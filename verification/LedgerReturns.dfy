/** Returns against sales: quantities, the availability shown to the user, and the refund
    status of a sale, over every run of the ledger. */
module LedgerReturns {
  import opened Sums
  import opened Inventory
  import opened Ledger
  import opened LedgerStock

  // ---------------------------------------------------------------- what a step may change

  predicate SaleKept(before: Sale, now: Sale)
  {
    now == before.(status := now.status) && (before.status == Voided ==> now.status == Voided)
  }

  predicate NoteKept(before: Note, now: Note)
  {
    now == before.(status := now.status) && (before.status != Pending ==> now.status == before.status)
  }

  /** Sales and notes are never deleted, only their status changes; a voided sale and a processed or
      cancelled note stay so. */
  predicate HistoryKept(before: Db, now: Db)
  {
    && |before.sales| <= |now.sales| && |before.notes| <= |now.notes|
    && (forall s :: 0 <= s < |before.sales| ==> SaleKept(before.sales[s], now.sales[s]))
    && (forall n :: 0 <= n < |before.notes| ==> NoteKept(before.notes[n], now.notes[n]))
  }

  lemma CancelNoteHistory(d: Db, n: nat)
    requires Consistent(d) && CancelNote(d, n).Ok?
    ensures HistoryKept(d, CancelNote(d, n).db)
  {
    assert NoteConsistent(d, d.notes[n]);
  }

  lemma SaleStepHistory(d: Db, a: Action)
    requires Consistent(d) && SaleAction(a)
    ensures HistoryKept(d, Next(d, a))
  {
    if a.DoCancelNote? {
      if Step(d, a).Ok? {
        CancelNoteHistory(d, a.note);
      }
    } else {
    }
  }

  /** Outside the sale actions only a conversion touches sales, by adding one. */
  lemma OtherStepHistory(d: Db, a: Action)
    requires !SaleAction(a)
    ensures d.sales <= Next(d, a).sales && Next(d, a).notes == d.notes
  {
  }

  lemma StepHistory(d: Db, a: Action)
    requires Consistent(d)
    ensures HistoryKept(d, Next(d, a))
  {
    if SaleAction(a) {
      SaleStepHistory(d, a);
    } else {
      OtherStepHistory(d, a);
    }
  }

  lemma HistoryChains(a: Db, b: Db, c: Db)
    requires HistoryKept(a, b) && HistoryKept(b, c)
    ensures HistoryKept(a, c)
  {
    assert forall s :: 0 <= s < |a.sales| ==> SaleKept(a.sales[s], b.sales[s]) && SaleKept(b.sales[s], c.sales[s]);
    assert forall n :: 0 <= n < |a.notes| ==> NoteKept(a.notes[n], b.notes[n]) && NoteKept(b.notes[n], c.notes[n]);
  }

  lemma HistoryStep(start: Db, d: Db, a: Action)
    requires Consistent(d) && HistoryKept(start, d)
    ensures HistoryKept(start, Next(d, a))
  {
    StepHistory(d, a);
    HistoryChains(start, d, Next(d, a));
  }

  /** Over every run: sales and notes keep their contents, a voided sale stays voided, and a note
      that was processed or cancelled never changes again. */
  lemma {:induction false} RunHistory(d: Db, actions: seq<Action>, k: nat)
    requires Consistent(d) && k <= |actions|
    ensures HistoryKept(Run(d, actions[..k]), Run(d, actions))
  {
    var n := |actions| - 1;
    if k == n + 1 {
      assert actions[..k] == actions;
    } else {
      assert actions[..n][..k] == actions[..k];
      RunHistory(d, actions[..n], k);
      RunConsistent(d, actions[..n]);
      HistoryStep(Run(d, actions[..k]), Run(d, actions[..n]), actions[n]);
    }
  }

  /** A refund is processed once: whatever follows, the note keeps its row, it can be neither
      cancelled nor processed again, and its goods stay returned. */
  lemma ProcessedForGood(d: Db, actions: seq<Action>, k: nat, n: nat)
    requires Consistent(d) && k <= |actions|
    requires n < |Run(d, actions[..k]).notes| && Run(d, actions[..k]).notes[n].status == Processed
    ensures
      var now := Run(d, actions);
      && n < |now.notes| && now.notes[n] == Run(d, actions[..k]).notes[n]
      && CancelNote(now, n).Fail? && ProcessRefund(now, n).Fail?
      && (forall p :: TakenBackOf(p)(now.notes[n]) == Qty(now.notes[n].lines, p))
  {
    RunHistory(d, actions, k);
    assert NoteKept(Run(d, actions[..k]).notes[n], Run(d, actions).notes[n]);
  }

  // ---------------------------------------------------------------- returned quantities

  predicate WithinSale(d: Db, s: nat, p: PartId)
    requires s < |d.sales|
  {
    Returned(d, s, p) <= Qty(d.sales[s].lines, p)
  }

  ghost predicate ReturnsWithinSales(d: Db)
  {
    forall s: nat, p :: s < |d.sales| ==> WithinSale(d, s, p)
  }

  lemma {:induction false} NothingReturned(notes: seq<Note>, s: nat, p: PartId)
    requires forall i :: 0 <= i < |notes| ==> notes[i].sale != s
    ensures SumInt(notes, ReturnedOf(s, p)) == 0
  {
    if notes == [] {
    } else {
      NothingReturned(notes[..|notes| - 1], s, p);
    }
  }

  /** Each line of an accepted return stays within what is left of its own part of the sale. */
  lemma AcceptedLine(d: Db, s: nat, lines: seq<Line>, i: nat)
    requires Consistent(d) && s < |d.sales| && i < |lines| && ReturnError(d, s, lines) == None
    ensures lines[i].qty <= Qty(d.sales[s].lines, lines[i].part) - Returned(d, s, lines[i].part)
  {
    ReturnLineAccepted(d, s, lines, i);
    assert SaleConsistent(d.parts, d.sales[s]);
    QtyOfDistinct(d.sales[s].lines, FindLine(d.sales[s].lines, lines[i].part).value);
  }

  /** What is left to return of each part covers the lines of the request together. */
  predicate WithinAvailable(d: Db, s: nat, lines: seq<Line>)
    requires s < |d.sales|
  {
    forall i :: 0 <= i < |lines| ==>
      Qty(lines, lines[i].part) <= Qty(d.sales[s].lines, lines[i].part) - Returned(d, s, lines[i].part)
  }

  lemma DistinctWithinAvailable(d: Db, s: nat, lines: seq<Line>)
    requires Consistent(d) && s < |d.sales| && ReturnError(d, s, lines) == None && Distinct(lines)
    ensures WithinAvailable(d, s, lines)
  {
    forall i | 0 <= i < |lines|
      ensures Qty(lines, lines[i].part) <= Qty(d.sales[s].lines, lines[i].part) - Returned(d, s, lines[i].part)
    {
      QtyOfDistinct(lines, i);
      AcceptedLine(d, s, lines, i);
    }
  }

  lemma CreateNoteReturned(d: Db, s: nat, lines: seq<Line>, t: nat, p: PartId)
    requires CreateNote(d, s, lines).Ok?
    ensures Returned(CreateNote(d, s, lines).db, t, p) == Returned(d, t, p) + if t == s then Qty(lines, p) else 0
  {
    SumIntAppend(d.notes, CreateNote(d, s, lines).db.notes[|d.notes|], ReturnedOf(t, p));
  }

  lemma CreateNoteKeeps(d: Db, s: nat, lines: seq<Line>)
    requires ReturnsWithinSales(d) && CreateNote(d, s, lines).Ok? && WithinAvailable(d, s, lines)
    ensures ReturnsWithinSales(CreateNote(d, s, lines).db)
  {
    var now := CreateNote(d, s, lines).db;
    forall t: nat, p | t < |now.sales|
      ensures WithinSale(now, t, p)
    {
      CreateNoteReturned(d, s, lines, t, p);
      assert WithinSale(d, t, p);
      QtyNonNegative(lines, p);
    }
  }

  /** An accepted return keeps the bound exactly when, part by part, its lines together ask
      for no more than is available; a request with distinct parts always does. */
  lemma CreateNoteWithin(d: Db, s: nat, lines: seq<Line>)
    requires Consistent(d) && ReturnsWithinSales(d) && CreateNote(d, s, lines).Ok?
    ensures ReturnsWithinSales(CreateNote(d, s, lines).db) <==> WithinAvailable(d, s, lines)
    ensures Distinct(lines) ==> WithinAvailable(d, s, lines)
  {
    var now := CreateNote(d, s, lines).db;
    if Distinct(lines) {
      DistinctWithinAvailable(d, s, lines);
    }
    if WithinAvailable(d, s, lines) {
      CreateNoteKeeps(d, s, lines);
    } else {
      var i :| 0 <= i < |lines|
        && Qty(lines, lines[i].part) > Qty(d.sales[s].lines, lines[i].part) - Returned(d, s, lines[i].part);
      CreateNoteReturned(d, s, lines, s, lines[i].part);
      assert !WithinSale(now, s, lines[i].part);
    }
  }

  /** Cancelling or processing a note never raises a returned quantity. */
  lemma NoteStatusWithin(d: Db, now: Db, n: nat)
    requires Consistent(d) && ReturnsWithinSales(d) && HistoryKept(d, now) && |now.sales| == |d.sales|
    requires n < |d.notes| && now.notes == d.notes[n := now.notes[n]] && d.notes[n].status == Pending
    ensures ReturnsWithinSales(now)
  {
    forall s: nat, p | s < |now.sales|
      ensures WithinSale(now, s, p)
    {
      assert WithinSale(d, s, p) && NoteConsistent(d, d.notes[n]);
      SumIntUpdate(d.notes, n, now.notes[n], ReturnedOf(s, p));
      QtyNonNegative(d.notes[n].lines, p);
    }
  }

  lemma SameNotesWithin(d: Db, now: Db)
    requires Consistent(d) && Consistent(now) && ReturnsWithinSales(d) && HistoryKept(d, now) && now.notes == d.notes
    ensures ReturnsWithinSales(now)
  {
    forall s: nat, p | s < |now.sales|
      ensures WithinSale(now, s, p)
    {
      if s < |d.sales| {
        assert WithinSale(d, s, p);
      } else {
        assert forall i :: 0 <= i < |d.notes| ==> NoteConsistent(d, d.notes[i]);
        NothingReturned(d.notes, s, p);
        assert SaleConsistent(now.parts, now.sales[s]);
        QtyNonNegative(now.sales[s].lines, p);
      }
    }
  }

  predicate DistinctRequest(a: Action)
  {
    a.DoCreateNote? ==> Distinct(a.lines)
  }

  lemma NotesUntouched(d: Db, a: Action)
    requires !a.DoCreateNote? && !a.DoCancelNote? && !a.DoProcessRefund?
    ensures Next(d, a).notes == d.notes
  {
  }

  /** An accepted return asks, part by part, for no more than is available before it. */
  predicate FitsAvailable(d: Db, a: Action)
  {
    a.DoCreateNote? && CreateNote(d, a.sale, a.lines).Ok? ==> WithinAvailable(d, a.sale, a.lines)
  }

  /** Where nothing is returned beyond what was sold, an action keeps it so exactly when it fits. */
  lemma StepWithinExactly(d: Db, a: Action)
    requires Consistent(d) && ReturnsWithinSales(d)
    ensures ReturnsWithinSales(Next(d, a)) <==> FitsAvailable(d, a)
    ensures DistinctRequest(a) ==> FitsAvailable(d, a)
  {
    StepHistory(d, a);
    StepConsistent(d, a);
    if Step(d, a).Fail? {
    } else if a.DoCreateNote? {
      CreateNoteWithin(d, a.sale, a.lines);
    } else if a.DoCancelNote? || a.DoProcessRefund? {
      NoteStatusWithin(d, Next(d, a), a.note);
    } else {
      NotesUntouched(d, a);
      SameNotesWithin(d, Next(d, a));
    }
  }

  /** In no state of the run is more of a part returned than was sold. */
  ghost predicate WithinThroughout(d: Db, actions: seq<Action>)
  {
    ReturnsWithinSales(Run(d, actions)) && (actions != [] ==> WithinThroughout(d, actions[..|actions| - 1]))
  }

  predicate FitsThroughout(d: Db, actions: seq<Action>)
  {
    actions != [] ==>
      var init := actions[..|actions| - 1];
      FitsThroughout(d, init) && FitsAvailable(Run(d, init), actions[|actions| - 1])
  }

  /** Over every run: returns stay within sales throughout exactly when every accepted return fits what
      is available in the state before it. */
  lemma {:induction false} RunWithinExactly(d: Db, actions: seq<Action>)
    requires Fresh(d)
    ensures WithinThroughout(d, actions) <==> FitsThroughout(d, actions)
  {
    if actions == [] {
    } else {
      var init := actions[..|actions| - 1];
      RunWithinExactly(d, init);
      if WithinThroughout(d, init) {
        RunConsistent(d, init);
        StepWithinExactly(Run(d, init), actions[|actions| - 1]);
      }
    }
  }

  lemma {:induction false} DistinctFitsThroughout(d: Db, actions: seq<Action>)
    requires Fresh(d) && forall i :: 0 <= i < |actions| ==> DistinctRequest(actions[i])
    ensures FitsThroughout(d, actions)
  {
    if actions == [] {
    } else {
      var init := actions[..|actions| - 1];
      DistinctFitsThroughout(d, init);
      RunWithinExactly(d, init);
      RunConsistent(d, init);
      StepWithinExactly(Run(d, init), actions[|actions| - 1]);
    }
  }

  /** In particular, when each request lists distinct parts, the non-cancelled notes of a sale return no
      more of a part than was sold in every reachable state; and a voided sale never has a note. */
  lemma RunWithin(d: Db, actions: seq<Action>)
    requires Fresh(d)
    ensures (forall i :: 0 <= i < |actions| ==> DistinctRequest(actions[i])) ==> ReturnsWithinSales(Run(d, actions))
    ensures forall n :: 0 <= n < |Run(d, actions).notes| ==>
      var note := Run(d, actions).notes[n];
      note.sale < |Run(d, actions).sales| && Run(d, actions).sales[note.sale].status != Voided
  {
    RunConsistent(d, actions);
    assert forall n :: 0 <= n < |Run(d, actions).notes| ==> NoteConsistent(Run(d, actions), Run(d, actions).notes[n]);
    if forall i :: 0 <= i < |actions| ==> DistinctRequest(actions[i]) {
      DistinctFitsThroughout(d, actions);
      RunWithinExactly(d, actions);
    }
  }

  // ---------------------------------------------------------------- availability shown

  datatype Returnable = Returnable(part: PartId, returned: int, available: int)

  /** The return screen: for each line of the sale, what was returned and what is left. */
  function ReturnScreen(d: Db, s: nat): (screen: seq<Returnable>)
    requires s < |d.sales|
  {
    var lines := d.sales[s].lines;
    seq(|lines|, i requires 0 <= i < |lines| =>
      Returnable(lines[i].part, Returned(d, s, lines[i].part), lines[i].qty - Returned(d, s, lines[i].part)))
  }

  predicate Offers(screen: seq<Returnable>, line: Line)
  {
    exists j :: 0 <= j < |screen| && screen[j].part == line.part && line.qty <= screen[j].available
  }

  lemma OfferedLine(d: Db, s: nat, line: Line)
    requires Consistent(d) && s < |d.sales|
    ensures
      var sold := d.sales[s].lines;
      var found := FindLine(sold, line.part);
      Offers(ReturnScreen(d, s), line) <==>
        found.Some? && line.qty <= sold[found.value].qty - Returned(d, s, line.part)
  {
    var screen, sold := ReturnScreen(d, s), d.sales[s].lines;
    assert SaleConsistent(d.parts, d.sales[s]);
    var found := FindLine(sold, line.part);
    if found.Some? {
      assert screen[found.value].part == line.part;
      assert forall j :: 0 <= j < |sold| && sold[j].part == line.part ==> j == found.value;
    }
  }

  /** The return check accepts a request exactly when the screen offers each of its lines. */
  lemma {:induction false} ScreenIsTheBound(d: Db, s: nat, lines: seq<Line>)
    requires Consistent(d) && s < |d.sales|
    ensures ReturnError(d, s, lines).None? <==>
      forall i :: 0 <= i < |lines| ==> Offers(ReturnScreen(d, s), lines[i])
  {
    if lines == [] {
    } else {
      var n := |lines| - 1;
      ScreenIsTheBound(d, s, lines[..n]);
      assert forall i :: 0 <= i < n ==> lines[..n][i] == lines[i];
      OfferedLine(d, s, lines[n]);
    }
  }

  // ---------------------------------------------------------------- refund status

  predicate NotePriced(d: Db, n: Note)
  {
    && n.sale < |d.sales| && ValidReturn(n.lines)
    && n.total == NoteTotal(Amount(n.lines), d.sales[n.sale].taxRate)
  }

  /** With Refunded the sum of the sale's non-cancelled notes. */
  predicate StatusAgrees(d: Db, s: nat)
    requires s < |d.sales|
  {
    Fits(d.sales[s].status, Refunded(d, s), d.sales[s].totals.total)
  }

  predicate Fits(status: SaleStatus, refunded: real, total: real)
  {
    match status
    case Completed => refunded == 0.0
    case Voided => refunded == 0.0
    case PartiallyRefunded => refunded > 0.0
    case FullyRefunded => Abs(refunded - total) < 0.01
  }

  lemma ReturnStatusFits(status: SaleStatus, sum: real, total: real)
    requires status != Voided
    ensures Fits(StatusAfterReturn(status, sum, total), sum, total) <==>
      Abs(sum - total) < 0.01 || sum > 0.0 || (status == Completed && sum == 0.0)
  {
  }

  lemma {:induction false} AmountNonNegative(lines: seq<Line>)
    requires Positive(lines) && forall i :: 0 <= i < |lines| ==> lines[i].price >= 0.0
    ensures Amount(lines) >= 0.0
  {
    if lines == [] {
    } else {
      var last := lines[|lines| - 1];
      AmountNonNegative(lines[..|lines| - 1]);
      assert last.price * last.qty as real >= 0.0;
    }
  }

  lemma NoteTotalNonNegative(subtotal: real, taxRate: real)
    requires subtotal >= 0.0 && taxRate >= -100.0
    ensures NoteTotal(subtotal, taxRate) >= 0.0
  {
    assert NoteTotal(subtotal, taxRate) == subtotal * (1.0 + taxRate / 100.0);
  }

  lemma RefundedNonNegative(d: Db, s: nat)
    requires s < |d.sales| && d.sales[s].taxRate >= -100.0
    requires forall n :: 0 <= n < |d.notes| ==> NotePriced(d, d.notes[n])
    ensures Refunded(d, s) >= 0.0
  {
    forall n | 0 <= n < |d.notes|
      ensures NoteAmountOf(s)(d.notes[n]) >= 0.0
    {
      assert NotePriced(d, d.notes[n]);
      if d.notes[n].sale == s {
        AmountNonNegative(d.notes[n].lines);
        NoteTotalNonNegative(Amount(d.notes[n].lines), d.sales[s].taxRate);
      }
    }
    SumRealNonNegative(d.notes, NoteAmountOf(s));
  }

  lemma NothingRefunded(d: Db, s: nat)
    requires forall n :: 0 <= n < |d.notes| ==> d.notes[n].sale != s
    ensures Refunded(d, s) == 0.0
  {
    SumRealZero(d.notes, NoteAmountOf(s));
  }

  /** The notes of the sale add up to its total, to within a cent. */
  predicate AddsUp(d: Db, s: nat)
    requires s < |d.sales|
  {
    Abs(Refunded(d, s) - d.sales[s].totals.total) < 0.01
  }

  lemma CreateNoteRefunds(d: Db, s: nat, lines: seq<Line>, t: nat)
    requires CreateNote(d, s, lines).Ok?
    ensures Refunded(CreateNote(d, s, lines).db, t) ==
      Refunded(d, t) + if t == s then NoteTotal(Amount(lines), d.sales[s].taxRate) else 0.0
  {
    SumRealAppend(d.notes, CreateNote(d, s, lines).db.notes[|d.notes|], NoteAmountOf(t));
  }

  lemma NoteStatus(d: Db, s: nat, lines: seq<Line>)
    requires CreateNote(d, s, lines).Ok?
    ensures
      var now := CreateNote(d, s, lines).db;
      now.sales[s] == d.sales[s].(
        status := StatusAfterReturn(d.sales[s].status, Refunded(now, s), d.sales[s].totals.total))
  {
    var now := CreateNote(d, s, lines).db;
    assert Refunded(now, s) == Refunded(d.(parts := now.parts, notes := now.notes), s);
  }

  lemma CancelNoteRefunds(d: Db, n: nat, t: nat)
    requires CancelNote(d, n).Ok?
    ensures Refunded(CancelNote(d, n).db, t) ==
      Refunded(d, t) - if t == d.notes[n].sale then d.notes[n].total else 0.0
  {
    SumRealUpdate(d.notes, n, d.notes[n].(status := NoteCancelled), NoteAmountOf(t));
  }

  /** A new note leaves the status of its sale in agreement exactly when the notes then add up to
      the total or to something positive, or to nothing on a sale that is COMPLETED. */
  lemma CreateNoteAgreesExactly(d: Db, s: nat, lines: seq<Line>)
    requires CreateNote(d, s, lines).Ok?
    ensures
      var sum := Refunded(d, s) + NoteTotal(Amount(lines), d.sales[s].taxRate);
      StatusAgrees(CreateNote(d, s, lines).db, s) <==>
        || Abs(sum - d.sales[s].totals.total) < 0.01
        || sum > 0.0
        || (d.sales[s].status == Completed && sum == 0.0)
  {
    CreateNoteRefunds(d, s, lines, s);
    var sum := Refunded(d, s) + NoteTotal(Amount(lines), d.sales[s].taxRate);
    ReturnStatusFits(d.sales[s].status, sum, d.sales[s].totals.total);
    NoteStatus(d, s, lines);
  }

  /** A cancelled note leaves the status of its sale in agreement exactly when the other notes do
      not add up to less than nothing. */
  lemma CancelNoteAgreesExactly(d: Db, n: nat)
    requires CancelNote(d, n).Ok?
    ensures
      var s := d.notes[n].sale;
      StatusAgrees(CancelNote(d, n).db, s) <==> Refunded(d, s) - d.notes[n].total >= 0.0
  {
    CancelNoteRefunds(d, n, d.notes[n].sale);
  }

  /** The two conditions together: an action that writes a note of sale `s` leaves a sum that its
      new status can express. */
  predicate KeepsAgreement(d: Db, a: Action, s: nat)
  {
    && (a.DoCreateNote? && a.sale == s && CreateNote(d, s, a.lines).Ok? ==>
        var sum := Refunded(d, s) + NoteTotal(Amount(a.lines), d.sales[s].taxRate);
        || Abs(sum - d.sales[s].totals.total) < 0.01
        || sum > 0.0
        || (d.sales[s].status == Completed && sum == 0.0))
    && (a.DoCancelNote? && CancelNote(d, a.note).Ok? && d.notes[a.note].sale == s ==>
        Refunded(d, s) - d.notes[a.note].total >= 0.0)
  }

  lemma ProcessRefundAgrees(d: Db, n: nat, s: nat)
    requires ProcessRefund(d, n).Ok?
    ensures Refunded(ProcessRefund(d, n).db, s) == Refunded(d, s)
  {
    SumRealUpdate(d.notes, n, d.notes[n].(status := Processed), NoteAmountOf(s));
  }

  /** An action that writes no note either leaves a status, voids a sale without notes, or adds a sale. */
  predicate StatusesExplained(d: Db, now: Db)
  {
    && HistoryKept(d, now) && now.notes == d.notes
    && (forall s :: 0 <= s < |d.sales| ==>
        now.sales[s].status == d.sales[s].status
        || (now.sales[s].status == Voided && d.sales[s].status == Completed && !HasNote(d, s)))
    && (forall s :: |d.sales| <= s < |now.sales| ==> now.sales[s].status == Completed)
  }

  lemma OtherStepExplained(d: Db, a: Action)
    requires Consistent(d) && !a.DoCreateNote? && !a.DoCancelNote? && !a.DoProcessRefund?
    ensures StatusesExplained(d, Next(d, a))
  {
    StepHistory(d, a);
  }

  lemma ExplainedAgrees(d: Db, now: Db, s: nat)
    requires Consistent(d) && StatusesExplained(d, now) && s < |now.sales|
    requires s < |d.sales| ==> StatusAgrees(d, s)
    ensures StatusAgrees(now, s)
  {
    assert forall n :: 0 <= n < |d.notes| ==> NoteConsistent(d, d.notes[n]);
    if s >= |d.sales| || now.sales[s].status != d.sales[s].status {
      NothingRefunded(d, s);
    } else {
      assert SaleKept(d.sales[s], now.sales[s]);
    }
  }

  lemma NewNoteAgrees(d: Db, t: nat, lines: seq<Line>, s: nat)
    requires s < |d.sales| && StatusAgrees(d, s) && CreateNote(d, t, lines).Ok?
    ensures
      var now := CreateNote(d, t, lines).db;
      s < |now.sales| && (StatusAgrees(now, s) <==> KeepsAgreement(d, DoCreateNote(t, lines), s))
  {
    CreateNoteRows(d, t, lines);
    if s == t {
      CreateNoteAgreesExactly(d, t, lines);
    } else {
      CreateNoteRefunds(d, t, lines, s);
    }
  }

  lemma CancelledNoteAgrees(d: Db, n: nat, s: nat)
    requires s < |d.sales| && StatusAgrees(d, s) && CancelNote(d, n).Ok?
    ensures
      var now := CancelNote(d, n).db;
      s < |now.sales| && (StatusAgrees(now, s) <==> KeepsAgreement(d, DoCancelNote(n), s))
  {
    if s == d.notes[n].sale {
      CancelNoteAgreesExactly(d, n);
    } else {
      CancelNoteRefunds(d, n, s);
    }
  }

  /** Where the status agreed before an action, it agrees after it exactly when the action keeps it. */
  lemma StepAgreesExactly(d: Db, a: Action, s: nat)
    requires Consistent(d) && s < |Next(d, a).sales| && (s < |d.sales| ==> StatusAgrees(d, s))
    ensures StatusAgrees(Next(d, a), s) <==> KeepsAgreement(d, a, s)
  {
    if Step(d, a).Fail? {
    } else if a.DoCreateNote? {
      NewNoteAgrees(d, a.sale, a.lines, s);
    } else if a.DoCancelNote? {
      CancelledNoteAgrees(d, a.note, s);
    } else if a.DoProcessRefund? {
      ProcessRefundAgrees(d, a.note, s);
    } else {
      OtherStepExplained(d, a);
      ExplainedAgrees(d, Next(d, a), s);
    }
  }

  /** The status of sale `s` agrees with its notes in every state of the run that has the sale. */
  predicate AgreesThroughout(d: Db, actions: seq<Action>, s: nat)
  {
    && (s < |Run(d, actions).sales| ==> StatusAgrees(Run(d, actions), s))
    && (actions != [] ==> AgreesThroughout(d, actions[..|actions| - 1], s))
  }

  predicate KeepsThroughout(d: Db, actions: seq<Action>, s: nat)
  {
    actions != [] ==>
      var init := actions[..|actions| - 1];
      KeepsThroughout(d, init, s) && KeepsAgreement(Run(d, init), actions[|actions| - 1], s)
  }

  lemma SalesGrow(d: Db, a: Action)
    requires Consistent(d)
    ensures |d.sales| <= |Next(d, a).sales|
    ensures forall s: nat :: s >= |d.sales| ==> KeepsAgreement(d, a, s)
  {
    StepHistory(d, a);
  }

  /** Over every run, for every sale and every tax rate: the refund status agrees with the notes
      throughout exactly when each note action keeps it in the state before it. */
  lemma {:induction false} RunAgreesExactly(d: Db, actions: seq<Action>, s: nat)
    requires Fresh(d)
    ensures AgreesThroughout(d, actions, s) <==> KeepsThroughout(d, actions, s)
  {
    if actions == [] {
    } else {
      var init, last := actions[..|actions| - 1], actions[|actions| - 1];
      RunAgreesExactly(d, init, s);
      if AgreesThroughout(d, init, s) {
        RunConsistent(d, init);
        SalesGrow(Run(d, init), last);
        if s < |Next(Run(d, init), last).sales| {
          StepAgreesExactly(Run(d, init), last, s);
        }
      }
    }
  }

  predicate NotesPriced(d: Db)
  {
    forall n :: 0 <= n < |d.notes| ==> NotePriced(d, d.notes[n])
  }

  lemma StepNotesPriced(d: Db, a: Action)
    requires Consistent(d) && NotesPriced(d)
    ensures NotesPriced(Next(d, a))
  {
    StepHistory(d, a);
    var now := Next(d, a);
    if !a.DoCreateNote? && !a.DoCancelNote? && !a.DoProcessRefund? {
      NotesUntouched(d, a);
    }
    forall n | 0 <= n < |now.notes|
      ensures NotePriced(now, now.notes[n])
    {
      if n < |d.notes| {
        assert NotePriced(d, d.notes[n]) && NoteKept(d.notes[n], now.notes[n]);
        assert SaleKept(d.sales[d.notes[n].sale], now.sales[d.notes[n].sale]);
      }
    }
  }

  lemma NewNoteNonNegative(d: Db, s: nat, lines: seq<Line>)
    requires CreateNote(d, s, lines).Ok? && d.sales[s].taxRate >= -100.0
    ensures NoteTotal(Amount(lines), d.sales[s].taxRate) >= 0.0
  {
    AmountNonNegative(lines);
    NoteTotalNonNegative(Amount(lines), d.sales[s].taxRate);
  }

  lemma OtherNotesNonNegative(d: Db, n: nat)
    requires NotesPriced(d) && CancelNote(d, n).Ok? && d.sales[d.notes[n].sale].taxRate >= -100.0
    ensures Refunded(d, d.notes[n].sale) - d.notes[n].total >= 0.0
  {
    var s := d.notes[n].sale;
    var now := CancelNote(d, n).db;
    CancelNoteRefunds(d, n, s);
    forall i | 0 <= i < |now.notes|
      ensures NotePriced(now, now.notes[i])
    {
      assert NotePriced(d, d.notes[i]);
    }
    RefundedNonNegative(now, s);
  }

  lemma FitsStays(status: SaleStatus, refunded: real, total: real, more: real)
    requires Fits(status, refunded, total) && refunded >= 0.0 && more >= 0.0 && status != Voided
    ensures
      var sum := refunded + more;
      Abs(sum - total) < 0.01 || sum > 0.0 || (status == Completed && sum == 0.0)
  {
  }

  /** At a tax rate of -100 % or more no note total is negative, so every note action keeps the
      agreement. */
  lemma RateKeepsAgreement(d: Db, a: Action, s: nat)
    requires NotesPriced(d) && s < |d.sales| && d.sales[s].taxRate >= -100.0 && StatusAgrees(d, s)
    ensures KeepsAgreement(d, a, s)
  {
    RefundedNonNegative(d, s);
    if a.DoCreateNote? && a.sale == s && CreateNote(d, s, a.lines).Ok? {
      NewNoteNonNegative(d, s, a.lines);
      CreateNoteRows(d, s, a.lines);
      FitsStays(d.sales[s].status, Refunded(d, s), d.sales[s].totals.total,
                NoteTotal(Amount(a.lines), d.sales[s].taxRate));
    } else if a.DoCancelNote? && CancelNote(d, a.note).Ok? && d.notes[a.note].sale == s {
      OtherNotesNonNegative(d, a.note);
    }
  }

  predicate RatedSalesAgree(d: Db)
  {
    forall s: nat :: s < |d.sales| && d.sales[s].taxRate >= -100.0 ==> StatusAgrees(d, s)
  }

  lemma StepRatedAgree(d: Db, a: Action)
    requires Consistent(d) && NotesPriced(d) && RatedSalesAgree(d)
    ensures RatedSalesAgree(Next(d, a))
  {
    StepHistory(d, a);
    forall s: nat | s < |Next(d, a).sales| && Next(d, a).sales[s].taxRate >= -100.0
      ensures StatusAgrees(Next(d, a), s)
    {
      if s < |d.sales| {
        assert SaleKept(d.sales[s], Next(d, a).sales[s]);
        RateKeepsAgreement(d, a, s);
      } else {
        SalesGrow(d, a);
      }
      StepAgreesExactly(d, a, s);
    }
  }

  /** In particular every sale taxed at -100 % or more agrees with its notes in every reachable state. */
  lemma {:induction false} RunAgrees(d: Db, actions: seq<Action>)
    requires Fresh(d)
    ensures NotesPriced(Run(d, actions)) && RatedSalesAgree(Run(d, actions))
  {
    if actions == [] {
    } else {
      var init := actions[..|actions| - 1];
      RunAgrees(d, init);
      RunConsistent(d, init);
      StepNotesPriced(Run(d, init), actions[|actions| - 1]);
      StepRatedAgree(Run(d, init), actions[|actions| - 1]);
    }
  }

  // ---------------------------------------------------------------- full refunds

  /** Cancelling a note never leaves its sale FULLY_REFUNDED; and it should, exactly when the notes
      without it add up to the total. */
  lemma CancelForgetsFullRefund(d: Db, n: nat)
    requires CancelNote(d, n).Ok?
    ensures
      var now, s := CancelNote(d, n).db, d.notes[n].sale;
      && now.sales[s].status != FullyRefunded
      && (AddsUp(now, s) <==> Abs(Refunded(d, s) - d.notes[n].total - d.sales[s].totals.total) < 0.01)
  {
    CancelNoteRefunds(d, n, d.notes[n].sale);
  }

  /** The last action of a run that wrote a note of a sale: none, a new note, or a cancellation. */
  datatype Touch = Untouched | Noted | Withdrawn

  function Touched(d: Db, a: Action, s: nat, before: Touch): Touch
  {
    if a.DoCreateNote? && a.sale == s && CreateNote(d, s, a.lines).Ok? then Noted
    else if a.DoCancelNote? && CancelNote(d, a.note).Ok? && d.notes[a.note].sale == s then Withdrawn
    else before
  }

  function LastTouch(d: Db, actions: seq<Action>, s: nat): Touch
  {
    if actions == [] then Untouched
    else
      var init := actions[..|actions| - 1];
      Touched(Run(d, init), actions[|actions| - 1], s, LastTouch(d, init, s))
  }

  /** Marked as fully refunded only by a new note, and always when the notes then add up. */
  predicate MarkExplained(d: Db, s: nat, touch: Touch)
  {
    if s < |d.sales| then
      && (d.sales[s].status == FullyRefunded ==> touch == Noted)
      && (touch == Noted && AddsUp(d, s) ==> d.sales[s].status == FullyRefunded)
    else touch == Untouched
  }

  lemma NoteMarkExplained(d: Db, a: Action, s: nat, touch: Touch)
    requires MarkExplained(d, s, touch) && (a.DoCreateNote? || a.DoCancelNote?) && Step(d, a).Ok?
    ensures MarkExplained(Next(d, a), s, Touched(d, a, s, touch))
  {
    if a.DoCreateNote? {
      CreateNoteRefunds(d, a.sale, a.lines, s);
      NoteStatus(d, a.sale, a.lines);
    } else {
      CancelNoteRefunds(d, a.note, s);
    }
  }

  lemma OtherMarkExplained(d: Db, now: Db, s: nat, touch: Touch)
    requires Consistent(d) && MarkExplained(d, s, touch) && StatusesExplained(d, now)
    ensures MarkExplained(now, s, touch)
  {
    if s < |d.sales| {
      assert SaleKept(d.sales[s], now.sales[s]);
      assert Refunded(now, s) == Refunded(d, s);
    }
  }

  lemma StepMarkExplained(d: Db, a: Action, s: nat, touch: Touch)
    requires Consistent(d) && MarkExplained(d, s, touch)
    ensures MarkExplained(Next(d, a), s, Touched(d, a, s, touch))
  {
    if Step(d, a).Fail? {
    } else if a.DoCreateNote? || a.DoCancelNote? {
      NoteMarkExplained(d, a, s, touch);
    } else if a.DoProcessRefund? {
      ProcessRefundAgrees(d, a.note, s);
    } else {
      OtherStepExplained(d, a);
      OtherMarkExplained(d, Next(d, a), s, touch);
    }
  }

  lemma {:induction false} RunMarkExplained(d: Db, actions: seq<Action>, s: nat)
    requires Fresh(d)
    ensures MarkExplained(Run(d, actions), s, LastTouch(d, actions, s))
  {
    if actions == [] {
    } else {
      var init := actions[..|actions| - 1];
      RunMarkExplained(d, init, s);
      RunConsistent(d, init);
      StepMarkExplained(Run(d, init), actions[|actions| - 1], s, LastTouch(d, init, s));
    }
  }

  /** Over every run: a sale whose notes add up to its total is FULLY_REFUNDED if the last note action
      on it was a new note, and never if it was a cancellation; at a tax rate of -100 % or more
      that is the only way to be FULLY_REFUNDED. */
  lemma FullyRefundedExactly(d: Db, actions: seq<Action>, s: nat)
    requires Fresh(d) && s < |Run(d, actions).sales|
    ensures
      var now, touch := Run(d, actions), LastTouch(d, actions, s);
      && (now.sales[s].status == FullyRefunded ==> touch == Noted)
      && (AddsUp(now, s) ==> (now.sales[s].status == FullyRefunded <==> touch == Noted))
      && (now.sales[s].taxRate >= -100.0 ==>
          (now.sales[s].status == FullyRefunded <==> touch == Noted && AddsUp(now, s)))
  {
    RunMarkExplained(d, actions, s);
    RunAgrees(d, actions);
    assert Run(d, actions).sales[s].taxRate >= -100.0 ==> StatusAgrees(Run(d, actions), s);
  }

  // ---------------------------------------------------------------- returning a whole counter sale

  /** A counter sale is priced from its lines and paid for, up to the change. */
  predicate CounterPriced(sale: Sale)
  {
    sale.quotation == None ==>
      && sale.lines != [] && sale.totals == SaleTotals(Amount(sale.lines), sale.totals.discount, sale.taxRate)
      && sale.totals.discount >= 0.0 && 0.0 <= sale.taxRate <= 100.0
      && Paid(sale.payments) == sale.totals.total + sale.change && sale.change >= 0.0
  }

  lemma CounterSalePriced(d: Db, a: Action)
    requires a.DoCreateSale? && Step(d, a).Ok?
    ensures |Next(d, a).sales| == |d.sales| + 1 && CounterPriced(Next(d, a).sales[|d.sales|])
  {
  }

  lemma NewSalePriced(d: Db, a: Action)
    requires Step(d, a).Ok?
    ensures forall s :: |d.sales| <= s < |Next(d, a).sales| ==> CounterPriced(Next(d, a).sales[s])
  {
    if a.DoCreateSale? {
      CounterSalePriced(d, a);
    }
  }

  lemma {:induction false} RunPriced(d: Db, actions: seq<Action>)
    requires Fresh(d)
    ensures forall s :: 0 <= s < |Run(d, actions).sales| ==> CounterPriced(Run(d, actions).sales[s])
  {
    if actions == [] {
    } else {
      var init, last := actions[..|actions| - 1], actions[|actions| - 1];
      RunPriced(d, init);
      RunConsistent(d, init);
      StepHistory(Run(d, init), last);
      if Step(Run(d, init), last).Ok? {
        NewSalePriced(Run(d, init), last);
      }
    }
  }

  lemma WholeSaleOffered(d: Db, s: nat)
    requires Consistent(d) && s < |d.sales| && d.sales[s].status != Voided && !HasNote(d, s)
    requires ValidReturn(d.sales[s].lines)
    ensures CreateNote(d, s, d.sales[s].lines).Ok?
  {
    var lines, screen := d.sales[s].lines, ReturnScreen(d, s);
    forall i | 0 <= i < |lines|
      ensures Offers(screen, lines[i])
    {
      NothingReturned(d.notes, s, lines[i].part);
      assert screen[i].part == lines[i].part;
    }
    ScreenIsTheBound(d, s, lines);
  }

  lemma WholeReturnStatus(d: Db, s: nat)
    requires s < |d.sales| && CounterPriced(d.sales[s]) && d.sales[s].quotation == None
    requires d.sales[s].status == Completed && !HasNote(d, s) && CreateNote(d, s, d.sales[s].lines).Ok?
    ensures
      var sale := d.sales[s];
      CreateNote(d, s, sale.lines).db.sales[s].status == FullyRefunded <==>
        sale.totals.discount * (1.0 + sale.taxRate / 100.0) < 0.01
  {
    var sale := d.sales[s];
    NothingRefunded(d, s);
    CreateNoteRefunds(d, s, sale.lines, s);
    NoteStatus(d, s, sale.lines);
    DiscountGap(Amount(sale.lines), sale.totals.discount, sale.taxRate);
    FullWithinGap(NoteTotal(Amount(sale.lines), sale.taxRate), sale.totals.total,
                  sale.totals.discount * (1.0 + sale.taxRate / 100.0));
  }

  lemma WholeReturnValid(d: Db, s: nat)
    requires Consistent(d) && s < |d.sales| && CounterPriced(d.sales[s]) && d.sales[s].quotation == None
    ensures
      var lines := d.sales[s].lines;
      ValidReturn(lines) <==> forall i :: 0 <= i < |lines| ==> lines[i].price >= 0.0
  {
    assert SaleConsistent(d.parts, d.sales[s]);
  }

  /** Of every run: taking back every line of a counter sale without notes is accepted exactly when no
      line has a negative price, and the sale then counts as fully refunded exactly when its taxed
      discount is below one cent. */
  lemma WholeSaleReturned(d: Db, actions: seq<Action>, now: Db, s: nat)
    requires Fresh(d) && now == Run(d, actions) && s < |now.sales| && now.sales[s].quotation == None
    requires now.sales[s].status == Completed && !HasNote(now, s)
    ensures
      var lines := now.sales[s].lines;
      CreateNote(now, s, lines).Ok? <==> forall i :: 0 <= i < |lines| ==> lines[i].price >= 0.0
    ensures
      var sale, returned := now.sales[s], CreateNote(now, s, now.sales[s].lines);
      returned.Ok? ==>
        (returned.db.sales[s].status == FullyRefunded <==>
         sale.totals.discount * (1.0 + sale.taxRate / 100.0) < 0.01)
  {
    ReachedSale(d, actions, now, s);
    WholeReturnValid(now, s);
    if ValidReturn(now.sales[s].lines) {
      WholeSaleOffered(now, s);
      WholeReturnStatus(now, s);
    }
  }

  lemma ReachedSale(d: Db, actions: seq<Action>, now: Db, s: nat)
    requires Fresh(d) && now == Run(d, actions) && s < |now.sales|
    ensures Consistent(now) && CounterPriced(now.sales[s])
  {
    RunConsistent(d, actions);
    RunPriced(d, actions);
  }

  lemma FullWithinGap(refunded: real, total: real, gap: real)
    requires refunded - total == gap >= 0.0
    ensures StatusAfterReturn(Completed, refunded, total) == FullyRefunded <==> gap < 0.01
  {
  }

  lemma DiscountGap(subtotal: real, discount: real, taxRate: real)
    requires discount >= 0.0 && taxRate >= 0.0
    ensures NoteTotal(subtotal, taxRate) - SaleTotals(subtotal, discount, taxRate).total
      == discount * (1.0 + taxRate / 100.0) >= 0.0
  {
    var rate := taxRate / 100.0;
    assert (subtotal - discount) * taxRate / 100.0 == (subtotal - discount) * rate;
    assert (subtotal - discount) * rate == subtotal * rate - discount * rate;
    assert discount * rate >= 0.0;
  }
}
