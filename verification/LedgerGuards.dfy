/** The guards against overselling: what the checks in front of a sale let through, and why
    stock never goes below zero except through the two actions without a sufficient guard. */
module LedgerGuards {
  import opened Sums
  import opened Inventory
  import opened Ledger
  import opened LedgerStock

  // ---------------------------------------------------------------- no overselling

  lemma {:induction false} NoneShort(parts: Parts, lines: seq<Line>)
    requires Known(parts, lines)
    ensures FirstShort(parts, lines).None? <==>
      forall i :: 0 <= i < |lines| ==> lines[i].qty <= parts[lines[i].part].stock
    ensures FirstShort(parts, lines).Some? ==>
      exists i :: 0 <= i < |lines| && lines[i].part == FirstShort(parts, lines).value
               && lines[i].qty > parts[lines[i].part].stock
  {
    if lines == [] {
    } else {
      var n := |lines| - 1;
      NoneShort(parts, lines[..n]);
      assert forall i :: 0 <= i < n ==> lines[..n][i] == lines[i];
    }
  }

  /** For distinct parts the line-by-line check in front of a sale is as strict as the row
      triggers behind it, and what it lets through leaves no part of the sale below zero. */
  lemma CheckedLinesSell(parts: Parts, lines: seq<Line>)
    requires Known(parts, lines) && Positive(lines) && Distinct(lines)
    ensures FirstShort(parts, lines).None? <==> SellLines(parts, lines).Some?
    ensures SellLines(parts, lines).Some? ==>
      var now := SellLines(parts, lines).value;
      && now.Keys == parts.Keys
      && (forall i :: 0 <= i < |lines| ==>
          now[lines[i].part].stock == parts[lines[i].part].stock - lines[i].qty >= 0)
      && (forall p :: p in parts && Qty(lines, p) == 0 ==> now[p] == parts[p])
  {
    NoneShort(parts, lines);
    SellLinesAccepts(parts, lines);
    forall i | 0 <= i < |lines|
      ensures Qty(lines, lines[i].part) == lines[i].qty
    {
      QtyOfDistinct(lines, i);
    }
    if SellLines(parts, lines).Some? {
      SellLinesMoves(parts, lines);
      MoveLinesEffect(parts, lines, Out);
    }
  }

  /** When a counter sale goes through, for every cart, payment list and register answer. */
  lemma SaleAccepted(d: Db, cart: seq<CartItem>, payments: seq<Payment>, discount: real, taxRate: real,
                     open: Option<nat>)
    requires cart != [] && PositiveCart(cart) && ValidPayments(payments) && discount >= 0.0
    requires 0.0 <= taxRate <= 100.0 && FindsOpen(d.registers, open)
    ensures CreateSale(d, cart, payments, discount, taxRate, open).Ok? <==>
      && DistinctCart(cart)
      && (forall i :: 0 <= i < |cart| ==> cart[i].part in d.parts && cart[i].qty <= d.parts[cart[i].part].stock)
      && Paid(payments) >= SaleTotals(Amount(Priced(d.parts, cart)), discount, taxRate).total
      && (HasCash(payments) ==> open.Some?)
    ensures CreateSale(d, cart, payments, discount, taxRate, open) != Fail(TriggerRaised)
    ensures CreateSale(d, cart, payments, discount, taxRate, open).Ok? ==>
      var now := CreateSale(d, cart, payments, discount, taxRate, open).db;
      forall i :: 0 <= i < |cart| ==>
        cart[i].part in now.parts && now.parts[cart[i].part].stock == d.parts[cart[i].part].stock - cart[i].qty >= 0
  {
    CartFound(d.parts, cart);
    if DistinctCart(cart) && forall i :: 0 <= i < |cart| ==> cart[i].part in d.parts {
      var lines := Priced(d.parts, cart);
      CheckedLinesSell(d.parts, lines);
      NoneShort(d.parts, lines);
      assert forall i :: 0 <= i < |cart| ==> lines[i].part == cart[i].part && lines[i].qty == cart[i].qty;
    }
  }

  /** In a well-formed ledger the row triggers never turn down a conversion. */
  lemma ConversionNeverRaises(d: Db, q: nat, payments: seq<Payment>)
    requires Consistent(d)
    ensures ConvertQuotation(d, q, payments) != Fail(TriggerRaised)
    ensures ConvertQuotation(d, q, payments).Ok? ==>
      var lines := d.quotations[q].value.lines;
      var now := ConvertQuotation(d, q, payments).db;
      forall i :: 0 <= i < |lines| ==>
        lines[i].part in now.parts
        && now.parts[lines[i].part].stock == d.parts[lines[i].part].stock - lines[i].qty >= 0
  {
    if QuotationExists(d, q) {
      CheckedLinesSell(d.parts, d.quotations[q].value.lines);
    }
  }

  predicate NonNegative(parts: Parts)
  {
    forall p :: p in parts ==> parts[p].stock >= 0
  }

  /** The two actions whose decrement is not covered by a check: cancelling a credit note, and
      entering an approved part on a ticket while both ticket-part triggers are present. */
  predicate Unguarded(triggers: Triggers, a: Action)
  {
    a.DoCancelNote? || (a.DoConsumeParts? && a.approved && triggers.legacy && triggers.sync)
  }

  lemma {:induction false} ConsumeNonNegative(d: Db, ticket: nat, items: seq<CartItem>, approved: bool)
    requires NonNegative(d.parts) && PositiveCart(items) && ConsumeItems(d, ticket, items, approved).Some?
    requires !(approved && d.triggers.legacy && d.triggers.sync)
    ensures
      var now := ConsumeItems(d, ticket, items, approved).value;
      NonNegative(now.parts) && now.triggers == d.triggers
  {
    if items == [] {
    } else {
      ConsumeNonNegative(d, ticket, items[..|items| - 1], approved);
    }
  }

  lemma {:induction false} ApproveNonNegative(d: Db, ticket: nat, n: nat)
    requires n <= |d.usages| && NonNegative(d.parts) && ApproveFirst(d, ticket, n).Some?
    ensures
      var now := ApproveFirst(d, ticket, n).value;
      NonNegative(now.parts) && now.triggers == d.triggers
  {
    if n == 0 {
    } else {
      ApproveNonNegative(d, ticket, n - 1);
    }
  }

  lemma {:induction false} DeleteNonNegative(d: Db, ticket: nat, pendingOnly: bool, n: nat)
    requires Consistent(d) && n <= |d.usages| && NonNegative(d.parts)
    ensures NonNegative(DeleteFirst(d, ticket, pendingOnly, n).parts)
  {
    if n == 0 {
    } else {
      DeleteNonNegative(d, ticket, pendingOnly, n - 1);
      DeleteKeeps(d, ticket, pendingOnly, n - 1);
    }
  }

  lemma GivenBackNonNegative(d: Db, ticket: nat)
    requires Consistent(d) && NonNegative(d.parts)
    ensures NonNegative(GiveBackFirst(d, ticket, |d.usages|))
  {
    GiveBackEffect(d, ticket, |d.usages|);
    assert d.usages[..|d.usages|] == d.usages;
    forall p | p in d.parts
      ensures SumInt(d.usages, OnTicket(ticket, p)) >= 0
    {
      OnTicketPositive(d.parts, d.usages, ticket, p);
    }
  }

  lemma LinesIn(parts: Parts, lines: seq<Line>)
    requires NonNegative(parts) && Positive(lines)
    ensures NonNegative(MoveLines(parts, lines, In)) && NonNegative(ReceiveLines(parts, lines))
  {
    MoveLinesEffect(parts, lines, In);
    ReceiveLinesEffect(parts, lines);
    forall p | p in parts
      ensures Qty(lines, p) >= 0
    {
      QtyNonNegative(lines, p);
    }
  }

  lemma LinesOut(parts: Parts, lines: seq<Line>)
    requires NonNegative(parts) && Positive(lines) && Known(parts, lines)
    ensures SellLines(parts, lines).Some? ==> NonNegative(SellLines(parts, lines).value)
    ensures NonNegative(MoveLines(parts, lines, Out)) <==>
      forall i :: 0 <= i < |lines| ==> Qty(lines, lines[i].part) <= parts[lines[i].part].stock
  {
    MoveLinesEffect(parts, lines, Out);
    SellLinesAccepts(parts, lines);
    if SellLines(parts, lines).Some? {
      SellLinesMoves(parts, lines);
    }
    forall p | p in parts
      ensures Qty(lines, p) >= 0
      ensures Qty(lines, p) > 0 ==> exists i :: 0 <= i < |lines| && lines[i].part == p
    {
      QtyNonNegative(lines, p);
    }
    if forall i :: 0 <= i < |lines| ==> Qty(lines, lines[i].part) <= parts[lines[i].part].stock {
      forall p | p in parts
        ensures MoveLines(parts, lines, Out)[p].stock >= 0
      {
        if Qty(lines, p) > 0 {
          var i :| 0 <= i < |lines| && lines[i].part == p;
          assert Qty(lines, lines[i].part) <= parts[p].stock;
        }
      }
    }
  }

  lemma SaleStepNonNegative(d: Db, a: Action)
    requires Consistent(d) && NonNegative(d.parts) && SaleAction(a) && !a.DoCancelNote?
    ensures NonNegative(Next(d, a).parts)
  {
    if Step(d, a).Ok? {
      match a
      case DoCreateSale(cart, _, _, _, _) =>
        CartFound(d.parts, cart);
        LinesOut(d.parts, Priced(d.parts, cart));
      case DoVoidSale(s, _) => LinesIn(d.parts, d.sales[s].lines);
      case DoCreateNote(_, lines) => LinesIn(d.parts, lines);
      case DoProcessRefund(_) =>
    }
  }

  lemma UsageStepNonNegative(d: Db, a: Action)
    requires Consistent(d) && NonNegative(d.parts) && Step(d, a).Ok? && !Unguarded(d.triggers, a)
    requires a.DoConsumeParts? || a.DoProposePart? || a.DoApproveParts?
    ensures NonNegative(Next(d, a).parts)
  {
    match a
    case DoConsumeParts(t, items, approved) => ConsumeNonNegative(d, t, items, approved);
    case DoProposePart(_, _) =>
    case DoApproveParts(t) => ApproveNonNegative(d, t, |d.usages|);
  }

  lemma ReturnStepNonNegative(d: Db, a: Action)
    requires Consistent(d) && NonNegative(d.parts) && Step(d, a).Ok?
    requires a.DoRejectParts? || a.DoCancelTicketParts? || a.DoCancelByAction? || a.DoRemovePart?
    ensures NonNegative(Next(d, a).parts)
  {
    if a.DoRemovePart? {
      assert UsageConsistent(d.parts, d.usages[a.usage]);
    } else if a.DoCancelByAction? {
      GivenBackNonNegative(d, a.ticket);
    } else {
      DeleteNonNegative(d, a.ticket, a.DoRejectParts?, |d.usages|);
    }
  }

  /** Every other action keeps every stock at or above zero. */
  lemma StepNonNegative(d: Db, a: Action)
    requires Consistent(d) && NonNegative(d.parts) && !Unguarded(d.triggers, a)
    ensures NonNegative(Next(d, a).parts)
  {
    if Step(d, a).Fail? {
    } else if SaleAction(a) {
      SaleStepNonNegative(d, a);
    } else if a.DoReceiveOrder? {
      LinesIn(d.parts, d.orders[a.order].lines);
    } else if a.DoConsumeParts? || a.DoProposePart? || a.DoApproveParts? {
      UsageStepNonNegative(d, a);
    } else if a.DoRejectParts? || a.DoCancelTicketParts? || a.DoCancelByAction? || a.DoRemovePart? {
      ReturnStepNonNegative(d, a);
    } else if a.DoConvertQuotation? {
      LinesOut(d.parts, d.quotations[a.quotation].value.lines);
    }
  }

  /** Cancelling a credit note keeps stocks at or above zero exactly when the returned goods are still there. */
  lemma CancelNoteNonNegative(d: Db, n: nat)
    requires Consistent(d) && NonNegative(d.parts) && CancelNote(d, n).Ok?
    ensures NonNegative(CancelNote(d, n).db.parts) <==>
      forall i :: 0 <= i < |d.notes[n].lines| ==>
        Qty(d.notes[n].lines, d.notes[n].lines[i].part) <= d.parts[d.notes[n].lines[i].part].stock
  {
    assert NoteConsistent(d, d.notes[n]);
    LinesOut(d.parts, d.notes[n].lines);
  }

  function CartQty(items: seq<CartItem>, p: PartId): int
  {
    if items == [] then 0
    else
      var last := items[|items| - 1];
      CartQty(items[..|items| - 1], p) + if last.part == p then last.qty else 0
  }

  /** With both triggers an approved item is taken out twice. */
  lemma {:induction false} ApprovedTakenTwice(d: Db, ticket: nat, items: seq<CartItem>, p: PartId)
    requires d.triggers == Triggers(true, true) && p in d.parts && ConsumeItems(d, ticket, items, true).Some?
    ensures
      var now := ConsumeItems(d, ticket, items, true).value;
      p in now.parts && now.parts[p].stock == d.parts[p].stock - 2 * CartQty(items, p)
  {
    if items == [] {
    } else {
      ApprovedTakenTwice(d, ticket, items[..|items| - 1], p);
    }
  }

  lemma {:induction false} ConsumedKeys(d: Db, ticket: nat, items: seq<CartItem>, approved: bool)
    requires ConsumeItems(d, ticket, items, approved).Some?
    ensures ConsumeItems(d, ticket, items, approved).value.parts.Keys == d.parts.Keys
  {
    if items == [] {
    } else {
      ConsumedKeys(d, ticket, items[..|items| - 1], approved);
    }
  }

  /** Entering approved parts with both triggers present keeps stocks at or above zero exactly
      when twice the quantity of each part is there. */
  lemma ApprovedNonNegative(d: Db, ticket: nat, items: seq<CartItem>)
    requires d.triggers == Triggers(true, true) && ConsumeParts(d, ticket, items, true).Ok?
    ensures NonNegative(ConsumeParts(d, ticket, items, true).db.parts) <==>
      forall p :: p in d.parts ==> 2 * CartQty(items, p) <= d.parts[p].stock
  {
    var now := ConsumeItems(d, ticket, items, true).value;
    ConsumedKeys(d, ticket, items, true);
    forall p | p in d.parts
      ensures now.parts[p].stock == d.parts[p].stock - 2 * CartQty(items, p)
    {
      ApprovedTakenTwice(d, ticket, items, p);
    }
  }

  /** Cancelling a note finds the returned goods still there, and approved parts entered under both
      triggers find twice their quantity; every other action needs nothing. */
  predicate Covered(d: Db, a: Action)
  {
    && (a.DoCancelNote? && CancelNote(d, a.note).Ok? ==> GoodsStillThere(d, d.notes[a.note].lines))
    && (a.DoConsumeParts? && a.approved && d.triggers == Triggers(true, true) && PositiveCart(a.items)
        && ConsumeItems(d, a.ticket, a.items, true).Some? ==>
        forall p :: p in d.parts ==> 2 * CartQty(a.items, p) <= d.parts[p].stock)
  }

  predicate GoodsStillThere(d: Db, lines: seq<Line>)
  {
    forall i :: 0 <= i < |lines| ==>
      lines[i].part in d.parts && Qty(lines, lines[i].part) <= d.parts[lines[i].part].stock
  }

  /** From stocks at or above zero an action leads to such stocks exactly when it is covered. */
  lemma StepNonNegativeExactly(d: Db, a: Action)
    requires Consistent(d) && NonNegative(d.parts)
    ensures NonNegative(Next(d, a).parts) <==> Covered(d, a)
  {
    if !Unguarded(d.triggers, a) {
      StepNonNegative(d, a);
    } else if Step(d, a).Ok? {
      if a.DoCancelNote? {
        assert NoteConsistent(d, d.notes[a.note]);
        CancelNoteNonNegative(d, a.note);
      } else {
        ApprovedNonNegative(d, a.ticket, a.items);
      }
    }
  }

  /** In no state of the run, the first and the last included, a stock is negative. */
  predicate NeverNegative(d: Db, actions: seq<Action>)
  {
    NonNegative(Run(d, actions).parts) && (actions != [] ==> NeverNegative(d, actions[..|actions| - 1]))
  }

  /** Every action of the run is covered in the state before it. */
  predicate CoveredRun(d: Db, actions: seq<Action>)
  {
    actions != [] ==>
      var init := actions[..|actions| - 1];
      CoveredRun(d, init) && Covered(Run(d, init), actions[|actions| - 1])
  }

  /** No state of a run has a negative stock exactly when every action of the run is covered in the
      state before it. */
  lemma {:induction false} RunNonNegative(d: Db, actions: seq<Action>)
    requires Fresh(d) && NonNegative(d.parts)
    ensures NeverNegative(d, actions) <==> CoveredRun(d, actions)
  {
    if actions == [] {
    } else {
      var init := actions[..|actions| - 1];
      RunNonNegative(d, init);
      if NeverNegative(d, init) {
        RunConsistent(d, init);
        StepNonNegativeExactly(Run(d, init), actions[|actions| - 1]);
      }
    }
  }
}
