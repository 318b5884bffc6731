/** The in-memory rate limiter: a fixed window per ip and kind of request, and a cleanup that
    drops expired windows. Times are milliseconds of a clock that never runs backwards. */
module RateLimit {
  datatype Kind = Auth | Search

  datatype Window = Window(count: int, resetAt: int)

  type Attempts = map<string, Window>

  datatype Decision = Decision(allowed: bool, retryAfter: int)

  const LENGTH := 60 * 1000

  function Max(kind: Kind): int
  {
    match kind
    case Auth => 10
    case Search => 30
  }

  function Key(ip: string, kind: Kind): string
  {
    ip + match kind case Auth => "auth" case Search => "search"
  }

  function CeilingSeconds(ms: int): int
  {
    (ms + 999) / 1000
  }

  /** One request: its decision and the windows it leaves. */
  function Request(attempts: Attempts, key: string, max: int, now: int): (Decision, Attempts)
  {
    if key !in attempts || now > attempts[key].resetAt then
      (Decision(true, 0), attempts[key := Window(1, now + LENGTH)])
    else if attempts[key].count >= max then
      (Decision(false, CeilingSeconds(attempts[key].resetAt - now)), attempts)
    else
      (Decision(true, 0), attempts[key := attempts[key].(count := attempts[key].count + 1)])
  }

  function Cleaned(attempts: Attempts, now: int): Attempts
  {
    map k | k in attempts && now <= attempts[k].resetAt :: attempts[k]
  }

  // ---------------------------------------------------------------- keys

  /** An ip and a kind are recovered from their key: no two pairs share a window. */
  lemma KeysDiffer(ip1: string, kind1: Kind, ip2: string, kind2: Kind)
    requires Key(ip1, kind1) == Key(ip2, kind2)
    ensures ip1 == ip2 && kind1 == kind2
  {
    var k1, k2 := Key(ip1, kind1), Key(ip2, kind2);
    assert k1[|k1| - 3] == k2[|k2| - 3];
    assert k1[|k1| - 4] == k2[|k2| - 4];
    assert k1[..|ip1|] == ip1 && k2[..|ip2|] == ip2;
  }

  // ---------------------------------------------------------------- runs

  datatype Event = Ask(ip: string, kind: Kind, at: int) | Cleanup(at: int)

  predicate Sorted(events: seq<Event>)
  {
    forall i, j :: 0 <= i < j < |events| ==> events[i].at <= events[j].at
  }

  function After(attempts: Attempts, e: Event): Attempts
  {
    match e
    case Ask(ip, kind, at) => Request(attempts, Key(ip, kind), Max(kind), at).1
    case Cleanup(at) => Cleaned(attempts, at)
  }

  function DecisionOf(attempts: Attempts, e: Event): Decision
    requires e.Ask?
  {
    Request(attempts, Key(e.ip, e.kind), Max(e.kind), e.at).0
  }

  /** The allowed requests of one ip and kind whose time lies in [from, to]. */
  function AllowedIn(attempts: Attempts, events: seq<Event>, ip: string, kind: Kind, from: int, to: int): nat
    decreases events
  {
    if events == [] then 0
    else
      var e := events[0];
      (if e.Ask? && e.ip == ip && e.kind == kind && DecisionOf(attempts, e).allowed && from <= e.at <= to then 1 else 0)
      + AllowedIn(After(attempts, e), events[1..], ip, kind, from, to)
  }

  /** The windows a limiter can hold: every count lies between one and its kind's maximum. */
  ghost predicate Counted(attempts: Attempts)
  {
    forall ip, kind :: Key(ip, kind) in attempts ==> 1 <= attempts[Key(ip, kind)].count <= Max(kind)
  }

  lemma CountedAfter(attempts: Attempts, e: Event)
    requires Counted(attempts)
    ensures Counted(After(attempts, e))
  {
    forall ip, kind | Key(ip, kind) in After(attempts, e)
      ensures 1 <= After(attempts, e)[Key(ip, kind)].count <= Max(kind)
    {
      if e.Ask? && Key(ip, kind) == Key(e.ip, e.kind) {
        KeysDiffer(ip, kind, e.ip, e.kind);
      }
    }
  }

  /** The most requests a window can still let through up to time `to`, none earlier than `to - LENGTH`. */
  function Potential(attempts: Attempts, ip: string, kind: Kind, to: int): int
  {
    var key, max := Key(ip, kind), Max(kind);
    if key !in attempts then max
    else if attempts[key].resetAt >= to then max - attempts[key].count
    else max - attempts[key].count + max
  }

  /** Every event pays for what it lets through. */
  lemma EventPays(attempts: Attempts, e: Event, ip: string, kind: Kind, to: int)
    requires Counted(attempts) && to - LENGTH <= e.at <= to
    ensures Potential(After(attempts, e), ip, kind, to)
      + (if e.Ask? && e.ip == ip && e.kind == kind && DecisionOf(attempts, e).allowed then 1 else 0)
      <= Potential(attempts, ip, kind, to)
  {
    if Key(ip, kind) in attempts {
      assert 1 <= attempts[Key(ip, kind)].count <= Max(kind);
    }
    if e.Ask? && Key(ip, kind) == Key(e.ip, e.kind) {
      KeysDiffer(ip, kind, e.ip, e.kind);
    }
  }

  lemma {:induction false} NothingAfter(attempts: Attempts, events: seq<Event>, ip: string, kind: Kind,
                                              from: int, to: int)
    requires forall i :: 0 <= i < |events| ==> events[i].at > to
    ensures AllowedIn(attempts, events, ip, kind, from, to) == 0
    decreases events
  {
    if events == [] {
    } else {
      NothingAfter(After(attempts, events[0]), events[1..], ip, kind, from, to);
    }
  }

  lemma {:induction false} AllowedWithinPotential(attempts: Attempts, events: seq<Event>, ip: string, kind: Kind,
                                                        from: int)
    requires Counted(attempts) && Sorted(events)
    requires forall i :: 0 <= i < |events| ==> events[i].at >= from
    ensures AllowedIn(attempts, events, ip, kind, from, from + LENGTH) <= Potential(attempts, ip, kind, from + LENGTH)
    decreases events
  {
    if events == [] {
      assert Key(ip, kind) in attempts ==> attempts[Key(ip, kind)].count <= Max(kind);
    } else if events[0].at > from + LENGTH {
      NothingAfter(attempts, events, ip, kind, from, from + LENGTH);
      assert Key(ip, kind) in attempts ==> attempts[Key(ip, kind)].count <= Max(kind);
    } else {
      CountedAfter(attempts, events[0]);
      AllowedWithinPotential(After(attempts, events[0]), events[1..], ip, kind, from);
      EventPays(attempts, events[0], ip, kind, from + LENGTH);
    }
  }

  lemma {:induction false} AllowedFrom(attempts: Attempts, events: seq<Event>, ip: string, kind: Kind, from: int)
    requires Counted(attempts) && Sorted(events)
    ensures AllowedIn(attempts, events, ip, kind, from, from + LENGTH) <= 2 * Max(kind) - 1
    decreases events
  {
    if events == [] {
    } else if events[0].at < from {
      CountedAfter(attempts, events[0]);
      AllowedFrom(After(attempts, events[0]), events[1..], ip, kind, from);
    } else {
      AllowedWithinPotential(attempts, events, ip, kind, from);
      assert Key(ip, kind) in attempts ==> attempts[Key(ip, kind)].count >= 1;
    }
  }

  /** In any run, requests of others and cleanups included, a closed interval of 60 seconds
      lets through at most 2 max - 1 requests of one ip and kind. */
  lemma RateBound(events: seq<Event>, ip: string, kind: Kind, from: int)
    requires Sorted(events)
    ensures AllowedIn(map[], events, ip, kind, from, from + LENGTH) <= 2 * Max(kind) - 1
  {
    AllowedFrom(map[], events, ip, kind, from);
  }

  // ---------------------------------------------------------------- the bound is reached

  function Repeat(e: Event, n: nat): seq<Event>
  {
    seq(n, _ => e)
  }

  lemma {:induction false} BurstAllowed(attempts: Attempts, e: Event, n: nat, rest: seq<Event>, from: int, to: int)
    requires e.Ask? && from <= e.at <= to && Key(e.ip, e.kind) in attempts
    requires e.at <= attempts[Key(e.ip, e.kind)].resetAt && attempts[Key(e.ip, e.kind)].count + n <= Max(e.kind)
    ensures
      var key := Key(e.ip, e.kind);
      AllowedIn(attempts, Repeat(e, n) + rest, e.ip, e.kind, from, to) ==
        n + AllowedIn(attempts[key := attempts[key].(count := attempts[key].count + n)], rest, e.ip, e.kind, from, to)
    decreases n
  {
    var key := Key(e.ip, e.kind);
    if n == 0 {
      assert Repeat(e, 0) + rest == rest;
      assert attempts[key := attempts[key].(count := attempts[key].count + 0)] == attempts;
    } else {
      var events := Repeat(e, n) + rest;
      assert events[0] == e && events[1..] == Repeat(e, n - 1) + rest;
      var next := After(attempts, e);
      BurstAllowed(next, e, n - 1, rest, from, to);
      assert next[key := next[key].(count := next[key].count + (n - 1))]
        == attempts[key := attempts[key].(count := attempts[key].count + n)];
    }
  }

  /** One request, the rest of its window at the last moment, then a full new window: 2 max - 1. */
  lemma RateBoundReached(ip: string, kind: Kind)
    ensures
      var first, last, again := Ask(ip, kind, 0), Ask(ip, kind, LENGTH), Ask(ip, kind, LENGTH + 1);
      var events := [first] + Repeat(last, Max(kind) - 1) + [again] + Repeat(again, Max(kind) - 1);
      Sorted(events) && AllowedIn(map[], events, ip, kind, LENGTH, 2 * LENGTH) == 2 * Max(kind) - 1
  {
    var first, last, again := Ask(ip, kind, 0), Ask(ip, kind, LENGTH), Ask(ip, kind, LENGTH + 1);
    var max := Max(kind);
    var tail := Repeat(again, max - 1);
    var events := [first] + Repeat(last, max - 1) + [again] + tail;
    assert events[0] == first && events[1..] == Repeat(last, max - 1) + ([again] + tail);
    var begun := After(map[], first);
    BurstAllowed(begun, last, max - 1, [again] + tail, LENGTH, 2 * LENGTH);
    var key := Key(ip, kind);
    var full := begun[key := begun[key].(count := begun[key].count + (max - 1))];
    assert ([again] + tail)[0] == again && ([again] + tail)[1..] == tail;
    var reopened := After(full, again);
    assert tail == Repeat(again, max - 1) + [];
    BurstAllowed(reopened, again, max - 1, [], LENGTH, 2 * LENGTH);
  }

  lemma {:induction false} BurstRefused(attempts: Attempts, e: Event, n: nat, from: int, to: int)
    requires e.Ask? && Key(e.ip, e.kind) in attempts
    requires e.at <= attempts[Key(e.ip, e.kind)].resetAt && attempts[Key(e.ip, e.kind)].count >= Max(e.kind)
    ensures AllowedIn(attempts, Repeat(e, n), e.ip, e.kind, from, to) == 0
  {
    if n == 0 {
    } else {
      assert Repeat(e, n)[0] == e && Repeat(e, n)[1..] == Repeat(e, n - 1);
      BurstRefused(attempts, e, n - 1, from, to);
    }
  }

  /** Of `n` requests at one time a caller who has made none before gets the first 10 through when
      signing in, the first 30 when searching. */
  lemma BurstExactly(ip: string, kind: Kind, at: int, n: nat)
    ensures
      var limit := if kind == Auth then 10 else 30;
      AllowedIn(map[], Repeat(Ask(ip, kind, at), n), ip, kind, at, at) == if n <= limit then n else limit
  {
    var e, max := Ask(ip, kind, at), Max(kind);
    if n > 0 {
      var begun := After(map[], e);
      assert Repeat(e, n)[0] == e && Repeat(e, n)[1..] == Repeat(e, n - 1);
      if n <= max {
        assert Repeat(e, n - 1) + [] == Repeat(e, n - 1);
        BurstAllowed(begun, e, n - 1, [], at, at);
      } else {
        assert Repeat(e, n - 1) == Repeat(e, max - 1) + Repeat(e, n - max);
        BurstAllowed(begun, e, max - 1, Repeat(e, n - max), at, at);
        var key := Key(ip, kind);
        BurstRefused(begun[key := begun[key].(count := begun[key].count + (max - 1))], e, n - max, at, at);
      }
    }
  }

  // ---------------------------------------------------------------- cleanup is invisible

  /** The decisions of the requests of a run, in order. */
  function Decisions(attempts: Attempts, events: seq<Event>): seq<Decision>
    decreases events
  {
    if events == [] then []
    else (if events[0].Ask? then [DecisionOf(attempts, events[0])] else [])
         + Decisions(After(attempts, events[0]), events[1..])
  }

  function WithoutCleanups(events: seq<Event>): seq<Event>
  {
    if events == [] then []
    else (if events[0].Ask? then [events[0]] else []) + WithoutCleanups(events[1..])
  }

  /** A cleanup keeps exactly the windows that are not over, as they are; two cleanups are one at the
      later time. */
  lemma CleanedExactly(attempts: Attempts, first: int, second: int)
    ensures forall k :: k in Cleaned(attempts, first) <==> k in attempts && attempts[k].resetAt >= first
    ensures forall k :: k in Cleaned(attempts, first) ==> Cleaned(attempts, first)[k] == attempts[k]
    ensures Cleaned(Cleaned(attempts, first), second) == Cleaned(attempts, if first < second then second else first)
  {
  }

  predicate SameOrExpired(a: Attempts, b: Attempts, now: int)
  {
    && (forall k :: k in a ==> k in b && a[k] == b[k])
    && (forall k :: k in b ==> k in a || now > b[k].resetAt)
  }

  /** A request is decided alike by both, and leaves them alike. */
  lemma AskKeepsSame(a: Attempts, b: Attempts, e: Event, now: int)
    requires SameOrExpired(a, b, now) && e.Ask? && now <= e.at
    ensures DecisionOf(a, e) == DecisionOf(b, e)
    ensures SameOrExpired(After(a, e), After(b, e), e.at)
  {
  }

  lemma CleanupKeepsSame(a: Attempts, b: Attempts, at: int, now: int)
    requires SameOrExpired(a, b, now) && now <= at
    ensures SameOrExpired(Cleaned(a, at), b, at)
  {
  }

  lemma {:induction false} CleanupsInvisible(a: Attempts, b: Attempts, events: seq<Event>, now: int)
    requires Sorted(events) && SameOrExpired(a, b, now)
    requires forall i :: 0 <= i < |events| ==> events[i].at >= now
    ensures Decisions(a, events) == Decisions(b, WithoutCleanups(events))
    decreases events
  {
    if events == [] {
    } else {
      var e, rest := events[0], events[1..];
      if e.Ask? {
        AskKeepsSame(a, b, e, now);
        assert WithoutCleanups(events)[0] == e && WithoutCleanups(events)[1..] == WithoutCleanups(rest);
        CleanupsInvisible(After(a, e), After(b, e), rest, e.at);
      } else {
        CleanupKeepsSame(a, b, e.at, now);
        assert WithoutCleanups(events) == WithoutCleanups(rest);
        CleanupsInvisible(After(a, e), b, rest, e.at);
      }
    }
  }

  /** Cleanups inserted anywhere change no decision and no retry time. */
  lemma CleanupNeverChangesDecisions(events: seq<Event>)
    requires Sorted(events)
    ensures Decisions(map[], events) == Decisions(map[], WithoutCleanups(events))
  {
    if events != [] {
      CleanupsInvisible(map[], map[], events, events[0].at);
    }
  }

  /** A refused caller is told to wait between 0 and 60 seconds, and by then the window has reset; one
      second less would not have done. */
  lemma RetryAfterSuffices(attempts: Attempts, key: string, max: int, start: int, now: int)
    requires max >= 1 && key in attempts && attempts[key].resetAt == start + LENGTH && start <= now
    ensures
      var d := Request(attempts, key, max, now).0;
      !d.allowed ==>
        && 0 <= d.retryAfter <= 60 && Request(attempts, key, max, now + d.retryAfter * 1000 + 1).0.allowed
        && (d.retryAfter > 0 ==> !Request(attempts, key, max, now + (d.retryAfter - 1) * 1000 + 1).0.allowed)
  {
  }

  // ---------------------------------------------------------------- the limiter

  /** The windows after a run. */
  function AfterAll(attempts: Attempts, events: seq<Event>): Attempts
    decreases events
  {
    if events == [] then attempts else AfterAll(After(attempts, events[0]), events[1..])
  }

  lemma {:induction false} OneMore(attempts: Attempts, events: seq<Event>, e: Event)
    ensures AfterAll(attempts, events + [e]) == After(AfterAll(attempts, events), e)
    ensures Decisions(attempts, events + [e]) ==
      Decisions(attempts, events) + if e.Ask? then [DecisionOf(AfterAll(attempts, events), e)] else []
    decreases events
  {
    if events == [] {
      assert events + [e] == [e] && [e][1..] == [];
    } else {
      assert (events + [e])[0] == events[0] && (events + [e])[1..] == events[1..] + [e];
      OneMore(After(attempts, events[0]), events[1..], e);
    }
  }

  /** In no closed interval of 60 seconds did more than 2 max - 1 requests of one ip and kind get through. */
  ghost predicate Bounded(events: seq<Event>)
  {
    forall ip, kind, from :: WithinRate(events, ip, kind, from)
  }

  predicate WithinRate(events: seq<Event>, ip: string, kind: Kind, from: int)
  {
    AllowedIn(map[], events, ip, kind, from, from + LENGTH) <= 2 * Max(kind) - 1
  }

  lemma RunBounded(events: seq<Event>)
    requires Sorted(events)
    ensures Bounded(events)
  {
    forall ip, kind, from
      ensures WithinRate(events, ip, kind, from)
    {
      RateBound(events, ip, kind, from);
    }
  }

  /** The limiter's map, with the requests and cleanups it has seen. */
  class RateLimiter {
    var attempts: Attempts
    ghost var events: seq<Event>

    ghost predicate Valid()
      reads this
    {
      Sorted(events) && attempts == AfterAll(map[], events)
    }

    /** The clock never runs backwards. */
    ghost predicate Reached(now: int)
      reads this
    {
      events != [] ==> events[|events| - 1].at <= now
    }

    constructor ()
      ensures Valid() && events == []
    {
      attempts, events := map[], [];
    }

    /** The next decision of the run, which stays within the bound. */
    method CheckRateLimit(ip: string, kind: Kind, now: int) returns (d: Decision)
      requires Valid() && Reached(now)
      modifies this
      ensures Valid() && events == old(events) + [Ask(ip, kind, now)]
      ensures Decisions(map[], events) == Decisions(map[], old(events)) + [d]
      ensures Bounded(events)
    {
      OneMore(map[], events, Ask(ip, kind, now));
      events := events + [Ask(ip, kind, now)];
      RunBounded(events);
      var key := Key(ip, kind);
      var max := Max(kind);
      if key !in attempts || now > attempts[key].resetAt {
        attempts := attempts[key := Window(1, now + LENGTH)];
        return Decision(true, 0);
      }
      var window := attempts[key];
      if window.count >= max {
        return Decision(false, CeilingSeconds(window.resetAt - now));
      }
      attempts := attempts[key := window.(count := window.count + 1)];
      return Decision(true, 0);
    }

    method CleanupRateLimits(now: int)
      requires Valid() && Reached(now)
      modifies this
      ensures Valid() && events == old(events) + [Cleanup(now)]
      ensures attempts == Cleaned(old(attempts), now)
      ensures Decisions(map[], events) == Decisions(map[], old(events))
    {
      OneMore(map[], events, Cleanup(now));
      ghost var seen := events;
      var before := attempts;
      var entries := before.Keys;
      while entries != {}
        invariant entries <= before.Keys && events == seen
        invariant attempts == map k | k in before && (k in entries || now <= before[k].resetAt) :: before[k]
      {
        var key :| key in entries;
        if now > before[key].resetAt {
          attempts := map k | k in attempts && k != key :: attempts[k];
        }
        entries := entries - {key};
      }
      events := events + [Cleanup(now)];
    }
  }
}
