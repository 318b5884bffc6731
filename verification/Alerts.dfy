/** The scheduled expiry alerts of quotations and how they are de-duplicated. The rows are those
    of one tenant; times are milliseconds of a clock that never runs backwards. */
module Alerts {
  import opened Ledger

  const DAY := 24 * 60 * 60 * 1000
  const WINDOW := 48 * 60 * 60 * 1000

  /** A quotation as the job sees it. */
  datatype Quote = Quote(number: string, creator: string, validUntil: int, status: QuotationStatus)

  datatype Notification = Notification(user: string, kind: string, link: string, title: string, createdAt: int)

  const KIND := "QUOTATION_EXPIRING"
  const LINK := "/dashboard/pos/quotations"

  /** A row of the audit log, by the quotation's id. */
  datatype Audit = Audit(quotation: nat, at: int)

  /** The quotations, the notifications, and the audit rows of alerts and of expiries. */
  datatype Rows = Rows(
    quotes: seq<Quote>, notifications: seq<Notification>, alerts: seq<Audit>, expiries: seq<Audit>)

  const TITLE := "Cotización por vencer: "

  function Title(number: string): string
  {
    TITLE + number
  }

  predicate OccursAt(text: string, part: string, i: int)
  {
    0 <= i <= |text| - |part| && text[i..i + |part|] == part
  }

  predicate Contains(text: string, part: string)
  {
    exists i | 0 <= i <= |text| :: OccursAt(text, part, i)
  }

  predicate Expiring(q: Quote, now: int)
  {
    q.status in {Draft, Sent} && now < q.validUntil <= now + WINDOW
  }

  predicate Recent(n: Notification, q: Quote, now: int)
  {
    && n.user == q.creator && n.kind == KIND && n.link == LINK
    && Contains(n.title, q.number) && n.createdAt >= now - DAY
  }

  predicate AlreadyAlerted(notifications: seq<Notification>, q: Quote, now: int)
  {
    exists i :: 0 <= i < |notifications| && Recent(notifications[i], q, now)
  }

  /** The job's work on the first `n` quotations. */
  function AlertFirst(d: Rows, now: int, n: nat): (r: Rows)
    requires n <= |d.quotes|
    ensures r.quotes == d.quotes && d.notifications <= r.notifications && d.alerts <= r.alerts
    ensures r.expiries == d.expiries
  {
    if n == 0 then d
    else
      var r, q := AlertFirst(d, now, n - 1), d.quotes[n - 1];
      if !Expiring(q, now) || AlreadyAlerted(r.notifications, q, now) then r
      else r.(notifications := r.notifications + [Notification(q.creator, KIND, LINK, Title(q.number), now)],
              alerts := r.alerts + [Audit(n - 1, now)])
  }

  function Expire(q: Quote, now: int): Quote
  {
    if Expires(q.status, q.validUntil, now) then q.(status := Expired) else q
  }

  /** The ids of the quotations past their date, in order. */
  function ExpiredIds(quotes: seq<Quote>, now: int): seq<nat>
  {
    if quotes == [] then []
    else
      var n := |quotes| - 1;
      ExpiredIds(quotes[..n], now) + if Expires(quotes[n].status, quotes[n].validUntil, now) then [n] else []
  }

  function Audits(ids: seq<nat>, now: int): seq<Audit>
  {
    seq(|ids|, i requires 0 <= i < |ids| => Audit(ids[i], now))
  }

  /** The scheduled expiry: every quotation past its date expires, and the audit log names each once. */
  function ExpireAll(d: Rows, now: int): Rows
  {
    d.(quotes := seq(|d.quotes|, i requires 0 <= i < |d.quotes| => Expire(d.quotes[i], now)),
       expiries := d.expiries + Audits(ExpiredIds(d.quotes, now), now))
  }

  lemma {:induction false} ExpiredIdsExactly(quotes: seq<Quote>, now: int)
    ensures forall q: nat :: q in ExpiredIds(quotes, now) <==>
      q < |quotes| && Expires(quotes[q].status, quotes[q].validUntil, now)
  {
    if quotes == [] {
    } else {
      var n := |quotes| - 1;
      ExpiredIdsExactly(quotes[..n], now);
      assert forall q: nat :: q < n ==> quotes[..n][q] == quotes[q];
    }
  }

  /** A draft or sent quotation whose date has passed. */
  predicate PastDate(q: Quote, now: int)
  {
    (q.status == Draft || q.status == Sent) && q.validUntil < now
  }

  predicate Rising(ids: seq<nat>)
  {
    forall j, k :: 0 <= j < k < |ids| ==> ids[j] < ids[k]
  }

  lemma {:induction false} ExpiredIdsRise(quotes: seq<Quote>, now: int)
    ensures Rising(ExpiredIds(quotes, now))
  {
    if quotes == [] {
    } else {
      var n := |quotes| - 1;
      var init := ExpiredIds(quotes[..n], now);
      ExpiredIdsRise(quotes[..n], now);
      ExpiredIdsExactly(quotes[..n], now);
      forall j | 0 <= j < |init|
        ensures init[j] < n
      {
        assert init[j] in init;
      }
    }
  }

  lemma AuditedExactly(ids: seq<nat>, now: int, q: nat)
    ensures Audit(q, now) in Audits(ids, now) <==> q in ids
  {
    if q in ids {
      var k :| 0 <= k < |ids| && ids[k] == q;
      assert Audits(ids, now)[k] == Audit(q, now);
    }
  }

  /** The audit rows that a run of the expiry job adds. */
  function NewExpiries(d: Rows, now: int): seq<Audit>
  {
    ExpireAll(d, now).expiries[|d.expiries|..]
  }

  /** The expiry job expires exactly the drafts and sent quotations past their date, and the audit log gains
      one row for each of them, in order, and no other. */
  lemma ExpiredExactly(d: Rows, now: int)
    ensures
      var r := ExpireAll(d, now);
      && r == d.(quotes := r.quotes, expiries := d.expiries + NewExpiries(d, now)) && |r.quotes| == |d.quotes|
      && forall q :: 0 <= q < |d.quotes| ==>
          r.quotes[q] == if PastDate(d.quotes[q], now) then d.quotes[q].(status := Expired) else d.quotes[q]
    ensures
      var news := NewExpiries(d, now);
      && (forall q: nat :: Audit(q, now) in news <==> q < |d.quotes| && PastDate(d.quotes[q], now))
      && (forall k :: 0 <= k < |news| ==> news[k].at == now)
      && (forall j, k :: 0 <= j < k < |news| ==> news[j].quotation < news[k].quotation)
  {
    var ids := ExpiredIds(d.quotes, now);
    ExpiredIdsExactly(d.quotes, now);
    ExpiredIdsRise(d.quotes, now);
    assert NewExpiries(d, now) == Audits(ids, now);
    forall q: nat
      ensures Audit(q, now) in NewExpiries(d, now) <==> q in ids
    {
      AuditedExactly(ids, now, q);
    }
  }

  /** A notification of the last 24 hours to the creator that names the quotation. */
  predicate Told(n: Notification, q: Quote, now: int)
  {
    && n.user == q.creator && n.kind == "QUOTATION_EXPIRING" && n.link == "/dashboard/pos/quotations"
    && Contains(n.title, q.number) && now - n.createdAt <= 24 * 60 * 60 * 1000
  }

  /** A draft or sent quotation with at most 48 hours left. */
  predicate SoonDue(q: Quote, now: int)
  {
    (q.status == Draft || q.status == Sent) && 0 < q.validUntil - now <= 48 * 60 * 60 * 1000
  }

  lemma TitleNamesNumber(number: string)
    ensures Contains(Title(number), number)
  {
    assert OccursAt(Title(number), number, |TITLE|);
  }

  predicate HasBeenTold(notifications: seq<Notification>, q: Quote, now: int)
  {
    exists i :: 0 <= i < |notifications| && Told(notifications[i], q, now)
  }

  lemma ToldExactly(notifications: seq<Notification>, q: Quote, now: int)
    ensures HasBeenTold(notifications, q, now) <==> AlreadyAlerted(notifications, q, now)
  {
    assert forall i :: 0 <= i < |notifications| ==>
      (Told(notifications[i], q, now) <==> Recent(notifications[i], q, now));
  }

  lemma StillTold(before: seq<Notification>, now: seq<Notification>, q: Quote, at: int)
    requires before <= now && HasBeenTold(before, q, at)
    ensures HasBeenTold(now, q, at)
  {
    var i :| 0 <= i < |before| && Told(before[i], q, at);
    assert Told(now[i], q, at);
  }

  lemma {:induction false} FirstTold(d: Rows, now: int, n: nat, q: nat)
    requires q < n <= |d.quotes| && SoonDue(d.quotes[q], now)
    ensures HasBeenTold(AlertFirst(d, now, n).notifications, d.quotes[q], now)
  {
    var before, r := AlertFirst(d, now, n - 1), AlertFirst(d, now, n);
    assert before.notifications <= r.notifications;
    if q < n - 1 {
      FirstTold(d, now, n - 1, q);
      StillTold(before.notifications, r.notifications, d.quotes[q], now);
    } else {
      ToldExactly(before.notifications, d.quotes[q], now);
      if !AlreadyAlerted(before.notifications, d.quotes[q], now) {
        TitleNamesNumber(d.quotes[q].number);
        assert Told(r.notifications[|before.notifications|], d.quotes[q], now);
      }
    }
  }

  /** After the alert job the creator of every quotation with at most 48 hours left has been told of it
      within the last 24 hours. */
  lemma NobodyMissed(d: Rows, now: int, q: nat)
    requires q < |d.quotes| && SoonDue(d.quotes[q], now)
    ensures HasBeenTold(AlertFirst(d, now, |d.quotes|).notifications, d.quotes[q], now)
  {
    FirstTold(d, now, |d.quotes|, q);
  }

  /** The alert job alerts nobody else: each new alert, with its one new notification, is of a quotation
      with at most 48 hours left whose creator had not been told in the last 24. */
  lemma {:induction false} NobodyElse(d: Rows, now: int, n: nat, k: nat)
    requires n <= |d.quotes| && |d.alerts| + k < |AlertFirst(d, now, n).alerts|
    ensures
      var r := AlertFirst(d, now, n);
      var alert := r.alerts[|d.alerts| + k];
      && |r.notifications| - |d.notifications| == |r.alerts| - |d.alerts|
      && alert.at == now && alert.quotation < n && SoonDue(d.quotes[alert.quotation], now)
      && !HasBeenTold(d.notifications, d.quotes[alert.quotation], now)
      && r.notifications[|d.notifications| + k].user == d.quotes[alert.quotation].creator
      && r.notifications[|d.notifications| + k].title == TITLE + d.quotes[alert.quotation].number
      && r.notifications[|d.notifications| + k].createdAt == now
  {
    var before := AlertFirst(d, now, n - 1);
    AlertsPaired(d, now, n);
    AlertsPaired(d, now, n - 1);
    if |d.alerts| + k < |before.alerts| {
      NobodyElse(d, now, n - 1, k);
    } else {
      ToldExactly(before.notifications, d.quotes[n - 1], now);
      if HasBeenTold(d.notifications, d.quotes[n - 1], now) {
        StillTold(d.notifications, before.notifications, d.quotes[n - 1], now);
      }
    }
  }

  lemma {:induction false} AlertsPaired(d: Rows, now: int, n: nat)
    requires n <= |d.quotes|
    ensures
      var r := AlertFirst(d, now, n);
      |r.notifications| - |d.notifications| == |r.alerts| - |d.alerts|
  {
    if n == 0 {
    } else {
      AlertsPaired(d, now, n - 1);
    }
  }

  class QuotationJob {
    var quotes: seq<Quote>
    var notifications: seq<Notification>
    var alerts: seq<Audit>
    var expiries: seq<Audit>

    function View(): Rows
      reads this
    {
      Rows(quotes, notifications, alerts, expiries)
    }

    constructor ()
      ensures View() == Rows([], [], [], [])
    {
      quotes, notifications, alerts, expiries := [], [], [], [];
    }

    method AlertExpiringQuotations(now: int) returns (alertedCount: nat)
      modifies this
      ensures View() == AlertFirst(old(View()), now, |old(quotes)|)
      ensures alertedCount == |alerts| - |old(alerts)| == |notifications| - |old(notifications)|
    {
      alertedCount := 0;
      for i := 0 to |quotes|
        invariant quotes == old(quotes) && View() == AlertFirst(old(View()), now, i)
        invariant alertedCount == |alerts| - |old(alerts)| == |notifications| - |old(notifications)|
      {
        var q := quotes[i];
        if Expiring(q, now) && !AlreadyAlerted(notifications, q, now) {
          notifications := notifications + [Notification(q.creator, KIND, LINK, Title(q.number), now)];
          alerts := alerts + [Audit(i, now)];
          alertedCount := alertedCount + 1;
        }
      }
    }

    method FindExpired(now: int) returns (ids: seq<nat>)
      ensures ids == ExpiredIds(quotes, now)
    {
      ids := [];
      for i := 0 to |quotes|
        invariant ids == ExpiredIds(quotes[..i], now)
      {
        assert quotes[..i + 1][..i] == quotes[..i];
        if Expires(quotes[i].status, quotes[i].validUntil, now) {
          ids := ids + [i];
        }
      }
      assert quotes[..|quotes|] == quotes;
    }

    method AuditExpired(ids: seq<nat>, now: int)
      modifies this`expiries
      ensures expiries == old(expiries) + Audits(ids, now)
    {
      for k := 0 to |ids|
        invariant expiries == old(expiries) + Audits(ids[..k], now)
      {
        expiries := expiries + [Audit(ids[k], now)];
        assert Audits(ids[..k + 1], now) == Audits(ids[..k], now) + [Audit(ids[k], now)];
      }
      assert ids[..|ids|] == ids;
    }

    /** Finds the quotations past their date, marks them in one update, and audits each. */
    method CheckExpiringQuotations(now: int) returns (expiredCount: nat)
      modifies this
      ensures View() == ExpireAll(old(View()), now)
      ensures expiredCount == |ExpiredIds(old(quotes), now)| == |expiries| - |old(expiries)|
    {
      var ids := FindExpired(now);
      ExpiredIdsExactly(quotes, now);
      var found := quotes;
      quotes := seq(|found|, i requires 0 <= i < |found| =>
        if i in ids then found[i].(status := Expired) else found[i]);
      assert quotes == ExpireAll(old(View()), now).quotes;
      AuditExpired(ids, now);
      return |ids|;
    }
  }

  // ---------------------------------------------------------------- runs

  /** One of the two jobs runs, a quotation is entered, a status changes, or somebody is notified of anything. */
  datatype Event =
    | RunJob(at: int)
    | RunExpiry(at: int)
    | Enter(at: int, quote: Quote)
    | SetStatus(at: int, quotation: nat, status: QuotationStatus)
    | Notify(at: int, notification: Notification)

  function Step(d: Rows, e: Event): Rows
  {
    match e
    case RunJob(now) => AlertFirst(d, now, |d.quotes|)
    case RunExpiry(now) => ExpireAll(d, now)
    case Enter(_, q) => d.(quotes := d.quotes + [q])
    case SetStatus(_, i, status) =>
      if i < |d.quotes| then d.(quotes := d.quotes[i := d.quotes[i].(status := status)]) else d
    case Notify(_, n) => d.(notifications := d.notifications + [n])
  }

  function Run(events: seq<Event>): Rows
  {
    if events == [] then Rows([], [], [], []) else Step(Run(events[..|events| - 1]), events[|events| - 1])
  }

  predicate Sorted(events: seq<Event>)
  {
    forall i, j :: 0 <= i < j < |events| ==> events[i].at <= events[j].at
  }

  /** The times of the alerts of one quotation. */
  function TimesOf(alerts: seq<Audit>, q: nat): seq<int>
  {
    if alerts == [] then []
    else
      var last := alerts[|alerts| - 1];
      TimesOf(alerts[..|alerts| - 1], q) + if last.quotation == q then [last.at] else []
  }

  /** The alert of quotation `q` at `at` fell in its last 48 hours and left its notification behind. */
  predicate Backed(d: Rows, q: nat, at: int)
    requires q < |d.quotes|
  {
    && at < d.quotes[q].validUntil <= at + WINDOW
    && exists i :: 0 <= i < |d.notifications| && NoticeOf(d.notifications[i], d.quotes[q], at)
  }

  predicate NoticeOf(n: Notification, q: Quote, at: int)
  {
    n == Notification(q.creator, KIND, LINK, Title(q.number), at)
  }

  predicate Apart(times: seq<int>)
  {
    forall i :: 0 <= i < |times| - 1 ==> times[i + 1] - times[i] > DAY
  }

  /** What every alert history satisfies at time `now`. */
  predicate Deduplicated(d: Rows, now: int)
  {
    && (forall i :: 0 <= i < |d.alerts| ==> d.alerts[i].quotation < |d.quotes|)
    && (forall q: nat :: q < |d.quotes| ==>
        var times := TimesOf(d.alerts, q);
        Apart(times) && forall i :: 0 <= i < |times| ==> times[i] <= now && Backed(d, q, times[i]))
  }

  lemma BackedIsRecent(d: Rows, q: nat, at: int, now: int)
    requires q < |d.quotes| && Backed(d, q, at) && now - at <= DAY
    ensures AlreadyAlerted(d.notifications, d.quotes[q], now)
  {
    var i :| 0 <= i < |d.notifications| && NoticeOf(d.notifications[i], d.quotes[q], at);
    TitleNamesNumber(d.quotes[q].number);
    assert Recent(d.notifications[i], d.quotes[q], now);
  }

  /** Rows that only gain notifications and quotations, or change a status, keep each alert backed. */
  lemma StillBacked(d: Rows, now: Rows, q: nat, at: int)
    requires q < |d.quotes| && Backed(d, q, at) && |d.quotes| <= |now.quotes| && d.notifications <= now.notifications
    requires now.quotes[q] == d.quotes[q].(status := now.quotes[q].status)
    ensures Backed(now, q, at)
  {
    var i :| 0 <= i < |d.notifications| && NoticeOf(d.notifications[i], d.quotes[q], at);
    assert NoticeOf(now.notifications[i], now.quotes[q], at);
  }

  lemma {:induction false} UnknownHasNoAlerts(alerts: seq<Audit>, q: nat)
    requires forall i :: 0 <= i < |alerts| ==> alerts[i].quotation != q
    ensures TimesOf(alerts, q) == []
  {
    if alerts == [] {
    } else {
      UnknownHasNoAlerts(alerts[..|alerts| - 1], q);
    }
  }

  lemma LaterIsFine(d: Rows, before: int, now: int)
    requires Deduplicated(d, before) && before <= now
    ensures Deduplicated(d, now)
  {
    assert forall q: nat, i :: q < |d.quotes| && 0 <= i < |TimesOf(d.alerts, q)| ==>
      TimesOf(d.alerts, q)[i] <= before;
  }

  /** The rows after one more alert, of quotation `q` at `now`. */
  function Alerted(d: Rows, q: nat, now: int): Rows
    requires q < |d.quotes|
  {
    var quote := d.quotes[q];
    d.(notifications := d.notifications + [Notification(quote.creator, KIND, LINK, Title(quote.number), now)],
       alerts := d.alerts + [Audit(q, now)])
  }

  lemma AlertedTimes(d: Rows, q: nat, now: int, t: nat)
    requires q < |d.quotes|
    ensures TimesOf(Alerted(d, q, now).alerts, t) == TimesOf(d.alerts, t) + if t == q then [now] else []
  {
    assert Alerted(d, q, now).alerts[..|d.alerts|] == d.alerts;
  }

  lemma EarlierAlert(d: Rows, q: nat, now: int, t: nat, i: nat)
    requires Deduplicated(d, now) && q < |d.quotes| && !AlreadyAlerted(d.notifications, d.quotes[q], now)
    requires t < |d.quotes| && i < |TimesOf(d.alerts, t)|
    ensures TimesOf(d.alerts, t)[i] <= now && Backed(Alerted(d, q, now), t, TimesOf(d.alerts, t)[i])
    ensures t == q ==> now - TimesOf(d.alerts, t)[i] > DAY
  {
    var at := TimesOf(d.alerts, t)[i];
    assert Backed(d, t, at);
    StillBacked(d, Alerted(d, q, now), t, at);
    if t == q && now - at <= DAY {
      BackedIsRecent(d, q, at, now);
    }
  }

  /** An alert without a recent notification keeps the history deduplicated. */
  lemma AlertDeduplicates(d: Rows, q: nat, now: int)
    requires Deduplicated(d, now) && q < |d.quotes| && Expiring(d.quotes[q], now)
    requires !AlreadyAlerted(d.notifications, d.quotes[q], now)
    ensures Deduplicated(Alerted(d, q, now), now)
  {
    var next := Alerted(d, q, now);
    assert NoticeOf(next.notifications[|d.notifications|], d.quotes[q], now);
    assert Backed(next, q, now);
    forall t: nat | t < |d.quotes|
      ensures Apart(TimesOf(next.alerts, t))
      ensures forall i :: 0 <= i < |TimesOf(next.alerts, t)| ==>
        TimesOf(next.alerts, t)[i] <= now && Backed(next, t, TimesOf(next.alerts, t)[i])
    {
      AlertedTimes(d, q, now, t);
      forall i: nat | i < |TimesOf(d.alerts, t)|
        ensures TimesOf(d.alerts, t)[i] <= now && Backed(next, t, TimesOf(d.alerts, t)[i])
        ensures t == q ==> now - TimesOf(d.alerts, t)[i] > DAY
      {
        EarlierAlert(d, q, now, t, i);
      }
    }
  }

  lemma {:induction false} JobDeduplicates(d: Rows, before: int, now: int, n: nat)
    requires Deduplicated(d, before) && before <= now && n <= |d.quotes|
    ensures Deduplicated(AlertFirst(d, now, n), now)
  {
    if n == 0 {
      LaterIsFine(d, before, now);
    } else {
      JobDeduplicates(d, before, now, n - 1);
      var r := AlertFirst(d, now, n - 1);
      if Expiring(d.quotes[n - 1], now) && !AlreadyAlerted(r.notifications, d.quotes[n - 1], now) {
        AlertDeduplicates(r, n - 1, now);
      }
    }
  }

  lemma OtherEventDeduplicates(d: Rows, before: int, e: Event)
    requires Deduplicated(d, before) && before <= e.at && !e.RunJob?
    ensures Deduplicated(Step(d, e), e.at)
  {
    var now := Step(d, e);
    forall q: nat | q < |now.quotes|
      ensures Apart(TimesOf(now.alerts, q))
      ensures forall i :: 0 <= i < |TimesOf(now.alerts, q)| ==>
        TimesOf(now.alerts, q)[i] <= e.at && Backed(now, q, TimesOf(now.alerts, q)[i])
    {
      var times := TimesOf(d.alerts, q);
      if q < |d.quotes| {
        forall i | 0 <= i < |times|
          ensures times[i] <= e.at && Backed(now, q, times[i])
        {
          assert Backed(d, q, times[i]);
          StillBacked(d, now, q, times[i]);
        }
      } else {
        UnknownHasNoAlerts(d.alerts, q);
      }
    }
  }

  lemma {:induction false} RunDeduplicates(events: seq<Event>)
    requires Sorted(events)
    ensures Deduplicated(Run(events), if events == [] then 0 else events[|events| - 1].at)
  {
    if events == [] {
    } else {
      var init, last := events[..|events| - 1], events[|events| - 1];
      RunDeduplicates(init);
      var before := if init == [] then last.at else init[|init| - 1].at;
      if init == [] {
        assert Deduplicated(Rows([], [], [], []), last.at);
      }
      if last.RunJob? {
        JobDeduplicates(Run(init), before, last.at, |Run(init).quotes|);
      } else {
        OtherEventDeduplicates(Run(init), before, last);
      }
    }
  }

  lemma {:induction false} ApartSpan(times: seq<int>, n: nat)
    requires Apart(times) && n < |times|
    ensures times[n] - times[0] >= n * (DAY + 1)
  {
    if n == 0 {
    } else {
      ApartSpan(times, n - 1);
    }
  }

  /** Over every run in which no notification is deleted, two alerts of a quotation lie more than
      24 hours apart, and a quotation is alerted at most twice. */
  lemma AtMostTwoAlerts(events: seq<Event>, q: nat)
    requires Sorted(events) && q < |Run(events).quotes|
    ensures
      var times := TimesOf(Run(events).alerts, q);
      Apart(times) && |times| <= 2
  {
    RunDeduplicates(events);
    var d := Run(events);
    var times := TimesOf(d.alerts, q);
    forall i | 0 <= i < |times|
      ensures times[i] < d.quotes[q].validUntil <= times[i] + WINDOW
    {
      assert Backed(d, q, times[i]);
    }
    if times != [] {
      ApartSpan(times, |times| - 1);
    }
  }
}
