/** The life of a quotation over every run: its status only climbs, it changes at most three
    times, and at most one sale comes out of it. */
module LedgerQuotations {
  import opened Sums
  import opened Ledger
  import opened LedgerStock
  import opened LedgerGuards
  import opened LedgerReturns

  /** DRAFT below SENT below ACCEPTED below every final status; a deleted draft is final too. */
  function Rank(q: Option<Quotation>): nat
  {
    match q
    case None => 3
    case Some(quotation) =>
      match quotation.status
      case Draft => 0
      case Sent => 1
      case Accepted => 2
      case _ => 3
  }

  /** Between two versions of a quotation: nothing, a deletion, or a status that ranks higher. */
  predicate Climbs(before: Option<Quotation>, now: Option<Quotation>)
  {
    || now == before
    || (Rank(before) < Rank(now) && before.Some?
        && (now.Some? ==> now.value == before.value.(status := now.value.status))
        && (now.None? ==> before.value.status == Draft))
  }

  lemma StepClimbs(d: Db, a: Action, q: nat)
    requires q < |d.quotations|
    ensures q < |Next(d, a).quotations| && Climbs(d.quotations[q], Next(d, a).quotations[q])
  {
  }

  lemma NewQuotationIsDraft(d: Db, a: Action)
    ensures |Next(d, a).quotations| <= |d.quotations| + 1
    ensures |Next(d, a).quotations| > |d.quotations| ==> Rank(Next(d, a).quotations[|d.quotations|]) == 0
  {
  }

  /** How many actions of a run change quotation `q`. */
  function Changes(d: Db, actions: seq<Action>, q: nat): nat
  {
    if actions == [] then 0
    else
      var before, now := Run(d, actions[..|actions| - 1]), Run(d, actions);
      Changes(d, actions[..|actions| - 1], q)
      + if q < |before.quotations| && (q >= |now.quotations| || now.quotations[q] != before.quotations[q]) then 1 else 0
  }

  lemma {:induction false} ChangesWithinRank(d: Db, actions: seq<Action>, q: nat)
    requires Fresh(d)
    ensures if q < |Run(d, actions).quotations| then Changes(d, actions, q) <= Rank(Run(d, actions).quotations[q])
            else Changes(d, actions, q) == 0
  {
    if actions == [] {
    } else {
      var init, last := actions[..|actions| - 1], actions[|actions| - 1];
      var before := Run(d, init);
      ChangesWithinRank(d, init, q);
      if q < |before.quotations| {
        StepClimbs(before, last, q);
      } else {
        NewQuotationIsDraft(before, last);
      }
    }
  }

  /** No run changes one quotation more than three times. */
  lemma AtMostThreeChanges(d: Db, actions: seq<Action>, q: nat)
    requires Fresh(d)
    ensures Changes(d, actions, q) <= 3
  {
    ChangesWithinRank(d, actions, q);
  }

  // ---------------------------------------------------------------- sales from quotations

  predicate MadeFrom(d: Db, s: nat, q: nat)
    requires s < |d.sales|
  {
    d.sales[s].quotation == Some(q)
  }

  /** The sale carries over the lines, totals and tax rate of a quotation that is CONVERTED. */
  predicate FromConverted(d: Db, s: nat)
    requires s < |d.sales|
  {
    d.sales[s].quotation.Some? ==>
      var q := d.sales[s].quotation.value;
      && QuotationExists(d, q) && d.quotations[q].value.status == Converted
      && d.sales[s].lines == d.quotations[q].value.lines
      && d.sales[s].totals == d.quotations[q].value.totals
      && d.sales[s].taxRate == d.quotations[q].value.taxRate
  }

  predicate OneSaleEach(d: Db)
  {
    && (forall s: nat :: s < |d.sales| ==> FromConverted(d, s))
    && (forall s: nat, t: nat :: s < t < |d.sales| && d.sales[s].quotation.Some? ==>
        !MadeFrom(d, t, d.sales[s].quotation.value))
  }

  lemma NewSalesPlain(d: Db, a: Action)
    requires !a.DoConvertQuotation?
    ensures forall s :: |d.sales| <= s < |Next(d, a).sales| ==> Next(d, a).sales[s].quotation == None
  {
  }

  lemma SalesAddedPlain(d: Db, now: Db)
    requires OneSaleEach(d) && HistoryKept(d, now)
    requires forall s :: |d.sales| <= s < |now.sales| ==> now.sales[s].quotation == None
    requires forall q: nat :: q < |d.quotations| ==> q < |now.quotations| && Climbs(d.quotations[q], now.quotations[q])
    ensures OneSaleEach(now)
  {
    forall s: nat | s < |now.sales|
      ensures FromConverted(now, s)
    {
      assert s < |d.sales| ==> FromConverted(d, s);
    }
    forall s: nat, t: nat | s < t < |now.sales| && now.sales[s].quotation.Some?
      ensures !MadeFrom(now, t, now.sales[s].quotation.value)
    {
      assert t < |d.sales| ==> !MadeFrom(d, t, d.sales[s].quotation.value);
    }
  }

  /** A step that adds no sale made from a quotation. */
  lemma NoNewConversion(d: Db, a: Action)
    requires Consistent(d) && OneSaleEach(d) && !a.DoConvertQuotation?
    ensures OneSaleEach(Next(d, a))
  {
    StepHistory(d, a);
    NewSalesPlain(d, a);
    forall q: nat | q < |d.quotations|
      ensures q < |Next(d, a).quotations| && Climbs(d.quotations[q], Next(d, a).quotations[q])
    {
      StepClimbs(d, a, q);
    }
    SalesAddedPlain(d, Next(d, a));
  }

  lemma ConversionIsNew(d: Db, q: nat, payments: seq<Payment>)
    requires OneSaleEach(d) && ConvertQuotation(d, q, payments).Ok?
    ensures OneSaleEach(ConvertQuotation(d, q, payments).db)
    ensures forall s: nat :: s < |d.sales| ==> !MadeFrom(d, s, q)
  {
    var now := ConvertQuotation(d, q, payments).db;
    forall s: nat | s < |d.sales|
      ensures !MadeFrom(d, s, q) && FromConverted(now, s)
    {
      assert FromConverted(d, s);
    }
    forall s: nat, t: nat | s < t < |now.sales| && now.sales[s].quotation.Some?
      ensures !MadeFrom(now, t, now.sales[s].quotation.value)
    {
      if t < |d.sales| {
        assert !MadeFrom(d, t, d.sales[s].quotation.value);
      } else {
        assert !MadeFrom(d, s, q);
      }
    }
  }

  /** Over every run a quotation gives at most one sale, whose lines and totals are its own. */
  lemma {:induction false} RunOneSaleEach(d: Db, actions: seq<Action>)
    requires Fresh(d)
    ensures OneSaleEach(Run(d, actions))
  {
    if actions == [] {
    } else {
      var init, last := actions[..|actions| - 1], actions[|actions| - 1];
      RunOneSaleEach(d, init);
      RunConsistent(d, init);
      if !last.DoConvertQuotation? {
        NoNewConversion(Run(d, init), last);
      } else if Step(Run(d, init), last).Ok? {
        ConversionIsNew(Run(d, init), last.quotation, last.payments);
      }
    }
  }

  /** In a reachable state a quotation that can be deleted has no sale, and one that has a sale
      accepts no action that names it, except to be copied. */
  lemma SoldQuotationStays(d: Db, actions: seq<Action>, s: nat)
    requires Fresh(d) && s < |Run(d, actions).sales| && Run(d, actions).sales[s].quotation.Some?
    ensures
      var now := Run(d, actions);
      var q := now.sales[s].quotation.value;
      && DeleteQuotation(now, q).Fail?
      && (forall status :: SetQuotationStatus(now, q, status).Fail?)
      && (forall payments :: ConvertQuotation(now, q, payments).Fail?)
  {
    RunOneSaleEach(d, actions);
    assert FromConverted(Run(d, actions), s);
  }

  /** A quotation set to CONVERTED by hand never gets a sale: the status does not imply one. */
  lemma {:induction false} ConvertedByHand(d: Db, q: nat, later: seq<Action>)
    requires Consistent(d) && QuotationExists(d, q) && d.quotations[q].value.status == Accepted
    requires forall s: nat :: s < |d.sales| ==> !MadeFrom(d, s, q)
    ensures
      var marked := Next(d, DoSetQuotationStatus(q, Converted));
      var now := Run(marked, later);
      && QuotationExists(now, q) && now.quotations[q].value.status == Converted
      && forall s: nat :: s < |now.sales| ==> !MadeFrom(now, s, q)
  {
    var marked := Next(d, DoSetQuotationStatus(q, Converted));
    if later == [] {
      assert forall s: nat :: s < |marked.sales| ==> MadeFrom(marked, s, q) == MadeFrom(d, s, q);
    } else {
      var init, last := later[..|later| - 1], later[|later| - 1];
      ConvertedByHand(d, q, init);
      var before, now := Run(marked, init), Run(marked, later);
      StepConsistent(d, DoSetQuotationStatus(q, Converted));
      RunConsistent(marked, init);
      StepHistory(before, last);
      StepClimbs(before, last, q);
      forall s: nat | s < |now.sales|
        ensures !MadeFrom(now, s, q)
      {
        if s < |before.sales| {
          assert !MadeFrom(before, s, q);
        } else {
          NewSaleSource(before, last, q);
        }
      }
    }
  }

  lemma NewSaleSource(d: Db, a: Action, q: nat)
    requires QuotationExists(d, q) && d.quotations[q].value.status == Converted
    ensures forall s :: |d.sales| <= s < |Next(d, a).sales| ==> Next(d, a).sales[s].quotation != Some(q)
  {
  }

  // ---------------------------------------------------------------- copies and deletions

  /** Deleting a quotation undoes its creation, and its duplication: only the empty slot remains, and
      with it nothing that could be sent, sold or copied. */
  lemma DeletionUndoesCreation(d: Db, a: Action)
    requires (a.DoCreateQuotation? || a.DoDuplicateQuotation?) && Step(d, a).Ok?
    ensures
      var created := Next(d, a);
      var q := |d.quotations|;
      && created.quotations[..q] == d.quotations
      && DeleteQuotation(created, q) == Ok(d.(quotations := d.quotations + [None]))
      && forall later :: DeleteQuotation(DeleteQuotation(created, q).db, q) != Ok(later)
  {
    var created := Next(d, a);
    assert created.quotations[|d.quotations| := None] == d.quotations + [None];
  }

  lemma CopyAccepted(d: Db, q: nat, validUntil: int)
    requires QuotationExists(d, q)
    ensures
      var c := |d.quotations|;
      var copied := Next(d, DoDuplicateQuotation(q, validUntil));
      var now := Next(Next(copied, DoSetQuotationStatus(c, Sent)), DoSetQuotationStatus(c, Accepted));
      now == d.(quotations :=
        d.quotations + [Some(d.quotations[q].value.(validUntil := validUntil, status := Accepted))])
  {
    var c, original := |d.quotations|, d.quotations[q].value;
    var copied := Next(d, DoDuplicateQuotation(q, validUntil));
    assert copied.quotations[c := Some(original.(validUntil := validUntil, status := Sent))] ==
      d.quotations + [Some(original.(validUntil := validUntil, status := Sent))];
    assert Next(copied, DoSetQuotationStatus(c, Sent)).quotations[
      c := Some(original.(validUntil := validUntil, status := Accepted))] ==
      d.quotations + [Some(original.(validUntil := validUntil, status := Accepted))];
  }

  /** A copy sells like its original, whatever has become of that: sent, accepted and converted it gives
      a sale of the same lines and totals exactly when each line is in stock and the payments come
      to within a cent of the total; the original keeps its row. */
  lemma CopySells(d: Db, q: nat, validUntil: int, payments: seq<Payment>)
    requires Consistent(d) && QuotationExists(d, q) && ValidConversion(payments)
    ensures
      var c, original := |d.quotations|, d.quotations[q].value;
      var copied := Next(d, DoDuplicateQuotation(q, validUntil));
      var accepted := Next(Next(copied, DoSetQuotationStatus(c, Sent)), DoSetQuotationStatus(c, Accepted));
      var sold := ConvertQuotation(accepted, c, payments);
      && (sold.Ok? <==>
          && (forall i :: 0 <= i < |original.lines| ==>
              original.lines[i].part in d.parts && original.lines[i].qty <= d.parts[original.lines[i].part].stock)
          && Abs(Paid(payments) - original.totals.total) <= 0.01)
      && (sold.Ok? ==>
          && |sold.db.sales| == |d.sales| + 1 && sold.db.sales[|d.sales|].lines == original.lines
          && sold.db.sales[|d.sales|].totals == original.totals
          && MadeFrom(sold.db, |d.sales|, c) && sold.db.quotations[q] == d.quotations[q])
  {
    CopyAccepted(d, q, validUntil);
    var lines := d.quotations[q].value.lines;
    assert QuotationConsistent(d.parts, d.quotations[q]);
    NoneShort(d.parts, lines);
    CheckedLinesSell(d.parts, lines);
  }
}
