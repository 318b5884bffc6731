/** Login lockout: the failure counter and the lock of one account, over every run of login
    attempts. Times are milliseconds of a clock that never runs backwards. */
module Lockout {
  import opened Sums

  const MAX_ATTEMPTS := 5
  const LOCK_TIME := 15 * 60 * 1000

  /** `n` times the lock time. */
  function LockTimes(n: int): int
  {
    n * (15 * 60 * 1000)
  }

  /** How many lock times fit into a span. */
  function LocksIn(span: int): int
  {
    span / (15 * 60 * 1000)
  }

  /** The failures that `n` resets allow before a lock. */
  function Allowed(n: int): int
  {
    n * 5
  }

  datatype State = State(failed: nat, lockedUntil: Option<int>)

  datatype Answer = AccountLocked | WrongPassword | LoggedIn

  predicate Locked(s: State, now: int)
  {
    s.lockedUntil.Some? && now < s.lockedUntil.value
  }

  /** The state after a failed password comparison. */
  function Failed(s: State, now: int): State
  {
    if s.failed + 1 >= MAX_ATTEMPTS then State(s.failed + 1, Some(now + LOCK_TIME))
    else s.(failed := s.failed + 1)
  }

  /** One login attempt on an active account. */
  function Attempt(s: State, now: int, matches: bool): (Answer, State)
  {
    if Locked(s, now) then (AccountLocked, s)
    else if matches then (LoggedIn, State(0, None))
    else (WrongPassword, Failed(s, now))
  }

  // ---------------------------------------------------------------- runs of wrong passwords

  predicate Sorted(times: seq<int>)
  {
    forall i, j :: 0 <= i < j < |times| ==> times[i] <= times[j]
  }

  function After(s: State, attempts: seq<int>): State
  {
    if attempts == [] then s
    else Attempt(After(s, attempts[..|attempts| - 1]), attempts[|attempts| - 1], false).1
  }

  /** The attempts of a run that get as far as a password comparison. */
  function Comparisons(s: State, attempts: seq<int>): seq<int>
  {
    if attempts == [] then []
    else
      var last := attempts[|attempts| - 1];
      Comparisons(s, attempts[..|attempts| - 1])
      + if Locked(After(s, attempts[..|attempts| - 1]), last) then [] else [last]
  }

  /** From the fifth comparison on, the next one is at least the lock time later. */
  predicate Spaced(times: seq<int>)
  {
    forall i :: MAX_ATTEMPTS <= i < |times| ==> times[i] - times[i - 1] >= LOCK_TIME
  }

  /** Where the account stands after a run: it counts the comparisons and is locked from the last one. */
  predicate Tracks(s: State, times: seq<int>)
  {
    && s.failed == |times|
    && s.lockedUntil == if |times| >= MAX_ATTEMPTS then Some(times[|times| - 1] + LOCK_TIME) else None
  }

  predicate Between(times: seq<int>, from: int, to: int)
  {
    forall i :: 0 <= i < |times| ==> from <= times[i] <= to
  }

  lemma {:induction false} RunSpaced(attempts: seq<int>)
    requires Sorted(attempts)
    ensures
      var times := Comparisons(State(0, None), attempts);
      && Spaced(times) && Tracks(After(State(0, None), attempts), times)
      && (attempts == [] ==> times == [])
      && (attempts != [] ==> Between(times, attempts[0], attempts[|attempts| - 1]))
  {
    if attempts == [] {
    } else {
      var n := |attempts| - 1;
      RunSpaced(attempts[..n]);
      assert n > 0 ==> attempts[0] <= attempts[n - 1] <= attempts[n];
    }
  }

  lemma {:induction false} SpacedSpan(times: seq<int>, n: nat)
    requires Spaced(times) && MAX_ATTEMPTS <= n <= |times|
    ensures times[n - 1] - times[MAX_ATTEMPTS - 1] >= LockTimes(n - MAX_ATTEMPTS)
  {
    if n > MAX_ATTEMPTS {
      SpacedSpan(times, n - 1);
    }
  }

  lemma AtMost(n: int, span: int)
    requires LockTimes(n) <= span
    ensures n <= LocksIn(span)
  {
  }

  /** The comparisons of a run: 15 minutes apart from the fifth on, and 5 + T / 15 min at most. */
  predicate WithinLockout(attempts: seq<int>)
    requires attempts != []
  {
    var times := Comparisons(State(0, None), attempts);
    Spaced(times) && |times| <= MAX_ATTEMPTS + LocksIn(attempts[|attempts| - 1] - attempts[0])
  }

  /** However often a wrong password is tried, at most 5 + T / 15 min comparisons fail in a
      stretch of T milliseconds, and each pair from the fifth on lies 15 minutes apart. */
  lemma LockoutBound(attempts: seq<int>)
    requires Sorted(attempts) && attempts != []
    ensures WithinLockout(attempts)
  {
    RunSpaced(attempts);
    var times := Comparisons(State(0, None), attempts);
    if |times| >= MAX_ATTEMPTS {
      SpacedSpan(times, |times|);
      AtMost(|times| - MAX_ATTEMPTS, attempts[|attempts| - 1] - attempts[0]);
    }
  }

  /** After any run of wrong passwords the account is locked exactly for the lock time from the last
      comparison, once there have been five. */
  lemma LockedExactly(attempts: seq<int>, now: int)
    requires Sorted(attempts)
    ensures
      var times := Comparisons(State(0, None), attempts);
      Locked(After(State(0, None), attempts), now) <==> |times| >= 5 && now < times[|times| - 1] + 15 * 60 * 1000
  {
    RunSpaced(attempts);
  }

  // ---------------------------------------------------------------- the account

  lemma OneMore(attempts: seq<int>, now: int)
    ensures After(State(0, None), attempts + [now]) == Attempt(After(State(0, None), attempts), now, false).1
    ensures Comparisons(State(0, None), attempts + [now]) ==
      Comparisons(State(0, None), attempts) + if Locked(After(State(0, None), attempts), now) then [] else [now]
  {
    assert (attempts + [now])[..|attempts|] == attempts;
  }

  /** One more attempt in a run of wrong passwords. */
  lemma AttemptInRun(attempts: seq<int>, now: int)
    requires Sorted(attempts)
    ensures
      var s, times := After(State(0, None), attempts), Comparisons(State(0, None), attempts);
      && (Locked(s, now) <==> |times| >= MAX_ATTEMPTS && now < times[|times| - 1] + LOCK_TIME)
      && Attempt(s, now, false).1 == After(State(0, None), attempts + [now])
      && Comparisons(State(0, None), attempts + [now]) == times + if Locked(s, now) then [] else [now]
  {
    LockedExactly(attempts, now);
    OneMore(attempts, now);
  }

  // ---------------------------------------------------------------- runs with successes in between

  /** A login attempt, with the right password or not. */
  datatype Event = Try(at: int, matches: bool)

  /** No attempt is earlier than the one before it. */
  predicate InOrder(events: seq<Event>)
  {
    var n := |events|;
    n > 1 ==> InOrder(events[..n - 1]) && events[n - 2].at <= events[n - 1].at
  }

  function Play(events: seq<Event>): State
  {
    if events == [] then State(0, None)
    else
      var last := events[|events| - 1];
      Attempt(Play(events[..|events| - 1]), last.at, last.matches).1
  }

  /** The answer to the last attempt of a run. */
  function LastAnswer(events: seq<Event>): Answer
    requires events != []
  {
    var last := events[|events| - 1];
    Attempt(Play(events[..|events| - 1]), last.at, last.matches).0
  }

  function Answered(events: seq<Event>, answer: Answer): nat
  {
    if events == [] then 0
    else Answered(events[..|events| - 1], answer) + if LastAnswer(events) == answer then 1 else 0
  }

  /** The attempts since the last success. */
  function Since(events: seq<Event>): seq<int>
  {
    if events == [] then []
    else if LastAnswer(events) == LoggedIn then []
    else Since(events[..|events| - 1]) + [events[|events| - 1].at]
  }

  /** The time of the last success, or of the first attempt. */
  function StretchStart(events: seq<Event>): int
    requires events != []
  {
    if LastAnswer(events) == LoggedIn || |events| == 1 then events[|events| - 1].at
    else StretchStart(events[..|events| - 1])
  }

  lemma {:induction false} StretchTimes(events: seq<Event>)
    requires InOrder(events) && events != []
    ensures events[0].at <= StretchStart(events) <= events[|events| - 1].at
    ensures Between(Since(events), StretchStart(events), events[|events| - 1].at)
  {
    var n := |events| - 1;
    if n == 0 {
      assert events[..0] == [] && Since([]) == [];
    } else {
      StretchTimes(events[..n]);
      assert events[n - 1].at <= events[n].at;
    }
  }

  lemma {:induction false} StretchSorted(events: seq<Event>)
    requires InOrder(events)
    ensures Sorted(Since(events))
  {
    if events == [] {
    } else {
      var n := |events| - 1;
      StretchSorted(events[..n]);
      if n > 0 {
        StretchTimes(events[..n]);
        assert events[n - 1].at <= events[n].at;
      } else {
        assert events[..0] == [] && Since([]) == [];
      }
    }
  }

  /** Since the last success the account has seen a run of wrong passwords. */
  lemma {:induction false} StretchState(events: seq<Event>)
    ensures Play(events) == After(State(0, None), Since(events))
  {
    if events == [] {
    } else {
      var n := |events| - 1;
      StretchState(events[..n]);
      OneMore(Since(events[..n]), events[n].at);
    }
  }

  /** The failures of a stretch, five aside, each take the lock time. */
  lemma StretchSpan(attempts: seq<int>, from: int, to: int)
    requires Sorted(attempts) && from <= to && Between(attempts, from, to)
    ensures LockTimes(|Comparisons(State(0, None), attempts)| - MAX_ATTEMPTS) <= to - from
  {
    RunSpaced(attempts);
    var times := Comparisons(State(0, None), attempts);
    if |times| >= MAX_ATTEMPTS {
      SpacedSpan(times, |times|);
    }
  }

  /** The failures since the last success. */
  function Current(events: seq<Event>): nat
  {
    |Comparisons(State(0, None), Since(events))|
  }

  lemma OneMoreAttempt(events: seq<Event>)
    requires InOrder(events) && events != []
    ensures
      var init := events[..|events| - 1];
      match LastAnswer(events)
      case LoggedIn => Current(events) == 0
      case WrongPassword => Current(events) == Current(init) + 1
      case AccountLocked => Current(events) == Current(init)
  {
    var n := |events| - 1;
    StretchState(events[..n]);
    OneMore(Since(events[..n]), events[n].at);
  }

  lemma FirstAttempt(events: seq<Event>)
    requires |events| == 1
    ensures Answered(events, WrongPassword) == Current(events)
  {
    assert events[..0] == [] && Current([]) == 0 && Answered([], WrongPassword) == 0;
    OneMoreAttempt(events);
    assert Play([]) == State(0, None);
  }

  /** A stretch of `current` failures that ends with a success at `now`. */
  lemma StretchEnds(failed: int, current: int, successes: int, first: int, start: int, now: int)
    requires LockTimes(failed - current - Allowed(successes)) <= start - first
    requires LockTimes(current - MAX_ATTEMPTS) <= now - start
    ensures LockTimes(failed - Allowed(successes + 1)) <= now - first
  {
  }

  lemma TotalBound(failed: int, current: int, successes: int, first: int, start: int, now: int)
    requires LockTimes(failed - current - Allowed(successes)) <= start - first
    requires LockTimes(current - MAX_ATTEMPTS) <= now - start
    ensures failed <= Allowed(successes + 1) + LocksIn(now - first)
  {
    StretchEnds(failed, current, successes, first, start, now);
    AtMost(failed - Allowed(successes + 1), now - first);
  }

  /** The failures of the finished stretches, five for each aside, fit in the time they took. */
  predicate FinishedFit(events: seq<Event>)
    requires events != []
  {
    LockTimes(Answered(events, WrongPassword) - Current(events) - Allowed(Answered(events, LoggedIn)))
      <= StretchStart(events) - events[0].at
  }

  lemma StretchFits(events: seq<Event>, now: int)
    requires InOrder(events) && events != [] && events[|events| - 1].at <= now
    ensures LockTimes(Current(events) - MAX_ATTEMPTS) <= now - StretchStart(events)
  {
    StretchTimes(events);
    StretchSorted(events);
    StretchSpan(Since(events), StretchStart(events), events[|events| - 1].at);
  }

  lemma {:induction false} FinishedStretches(events: seq<Event>)
    requires InOrder(events) && events != []
    ensures FinishedFit(events)
  {
    var n := |events| - 1;
    if n == 0 {
      FirstAttempt(events);
    } else {
      var init, now := events[..n], events[n].at;
      FinishedStretches(init);
      OneMoreAttempt(events);
      if LastAnswer(events) == LoggedIn {
        assert init[n - 1] == events[n - 1] && events[n - 1].at <= now;
        StretchFits(init, now);
        StretchEnds(Answered(init, WrongPassword), Current(init), Answered(init, LoggedIn), events[0].at,
                    StretchStart(init), now);
      }
    }
  }

  /** Over every run, right passwords included: at most 5 + T / 15 min comparisons fail in time T, and
      five more for each success in between. */
  lemma FailuresBound(events: seq<Event>)
    requires InOrder(events) && events != []
    ensures Answered(events, WrongPassword) <=
      Allowed(Answered(events, LoggedIn) + 1) + LocksIn(events[|events| - 1].at - events[0].at)
  {
    var last := events[|events| - 1].at;
    FinishedStretches(events);
    StretchFits(events, last);
    var start := StretchStart(events);
    TotalBound(Answered(events, WrongPassword), Current(events), Answered(events, LoggedIn), events[0].at, start,
               last);
  }

  // ---------------------------------------------------------------- the class

  /** One account, with the attempts since it was last reset. */
  class Account {
    var failedLoginAttempts: nat
    var lockedUntil: Option<int>
    ghost var since: seq<int>

    function View(): State
      reads this
    {
      State(failedLoginAttempts, lockedUntil)
    }

    ghost predicate Valid()
      reads this
    {
      Sorted(since) && View() == After(State(0, None), since)
    }

    /** The clock never runs backwards. */
    ghost predicate Reached(now: int)
      reads this
    {
      since != [] ==> since[|since| - 1] <= now
    }

    /** The password comparisons that have failed since the last reset. */
    ghost function FailedAt(): seq<int>
      reads this
    {
      Comparisons(State(0, None), since)
    }

    constructor ()
      ensures Valid() && since == []
    {
      failedLoginAttempts, lockedUntil, since := 0, None, [];
    }

    method RecordFailedLogin(now: int) returns (isNowLocked: bool, attemptsRemaining: int)
      modifies this`failedLoginAttempts, this`lockedUntil
      ensures View() == Failed(old(View()), now)
      ensures isNowLocked <==> failedLoginAttempts >= MAX_ATTEMPTS
      ensures isNowLocked ==> Locked(View(), now) && attemptsRemaining == 0
      ensures !isNowLocked ==> attemptsRemaining == MAX_ATTEMPTS - failedLoginAttempts > 0
    {
      var currentAttempts := failedLoginAttempts + 1;
      if currentAttempts >= MAX_ATTEMPTS {
        failedLoginAttempts := currentAttempts;
        lockedUntil := Some(now + LOCK_TIME);
        return true, 0;
      }
      failedLoginAttempts := currentAttempts;
      return false, MAX_ATTEMPTS - currentAttempts;
    }

    method RecordSuccessfulLogin()
      modifies this
      ensures Valid() && since == []
    {
      failedLoginAttempts := 0;
      lockedUntil := None;
      since := [];
    }

    /** Locked for 15 minutes from the last failure once there are five; the right password resets the
        account when it is not locked, and the failures stay within the bound. */
    method Authorize(now: int, matches: bool) returns (answer: Answer)
      requires Valid() && Reached(now)
      modifies this
      ensures Valid()
      ensures
        var times := old(FailedAt());
        answer == AccountLocked <==> |times| >= 5 && now < times[|times| - 1] + 15 * 60 * 1000
      ensures answer == LoggedIn ==> matches && FailedAt() == []
      ensures answer == WrongPassword ==> !matches && FailedAt() == old(FailedAt()) + [now]
      ensures answer == AccountLocked ==> FailedAt() == old(FailedAt())
      ensures answer != LoggedIn ==> since == old(since) + [now] && WithinLockout(since)
    {
      AttemptInRun(since, now);
      LockoutBound(since + [now]);
      if lockedUntil.Some? && now < lockedUntil.value {
        since := since + [now];
        return AccountLocked;
      }
      if !matches {
        since := since + [now];
        var _, _ := RecordFailedLogin(now);
        return WrongPassword;
      }
      RecordSuccessfulLogin();
      return LoggedIn;
    }
  }
}
