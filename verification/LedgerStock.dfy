/** What the rows of the ledger satisfy, and the conservation of stock over every run. */
module LedgerStock {
  import opened Sums
  import opened Inventory
  import opened Ledger

  // ---------------------------------------------------------------- what the rows satisfy

  predicate SaleConsistent(parts: Parts, sale: Sale)
  {
    Known(parts, sale.lines) && Positive(sale.lines) && Distinct(sale.lines)
  }

  predicate NoteConsistent(d: Db, n: Note)
  {
    Known(d.parts, n.lines) && Positive(n.lines) && n.sale < |d.sales| && d.sales[n.sale].status != Voided
  }

  predicate QuotationConsistent(parts: Parts, q: Option<Quotation>)
  {
    q.Some? ==> Known(parts, q.value.lines) && Positive(q.value.lines) && Distinct(q.value.lines)
  }

  predicate OrderConsistent(parts: Parts, o: Order)
  {
    Known(parts, o.lines) && Positive(o.lines)
  }

  predicate UsageConsistent(parts: Parts, u: Option<Usage>)
  {
    u.Some? ==> u.value.part in parts && u.value.qty >= 1
  }

  /** The foreign keys hold, quantities are positive, the parts of one sale or quotation are
      distinct, and a credit note never belongs to a voided sale. */
  predicate Consistent(d: Db)
  {
    && (forall i :: 0 <= i < |d.sales| ==> SaleConsistent(d.parts, d.sales[i]))
    && (forall i :: 0 <= i < |d.notes| ==> NoteConsistent(d, d.notes[i]))
    && (forall i :: 0 <= i < |d.quotations| ==> QuotationConsistent(d.parts, d.quotations[i]))
    && (forall i :: 0 <= i < |d.orders| ==> OrderConsistent(d.parts, d.orders[i]))
    && (forall i :: 0 <= i < |d.usages| ==> UsageConsistent(d.parts, d.usages[i]))
    && (forall i :: 0 <= i < |d.cash| ==> d.cash[i].register < |d.registers|)
  }

  lemma PartsFound(parts: Parts, lines: seq<Line>)
    ensures |FindParts(parts, PartIds(lines))| == |lines| <==> Distinct(lines) && Known(parts, lines)
  {
    FoundExactly(parts, PartIds(lines));
    var ids := PartIds(lines);
    assert forall i :: 0 <= i < |lines| ==> ids[i] == lines[i].part;
  }

  lemma {:induction false} ConsumeKeeps(d: Db, ticket: nat, items: seq<CartItem>, approved: bool)
    requires Consistent(d) && PositiveCart(items) && ConsumeItems(d, ticket, items, approved).Some?
    ensures
      var now := ConsumeItems(d, ticket, items, approved).value;
      Consistent(now) && now.parts.Keys == d.parts.Keys
  {
    if items == [] {
    } else {
      ConsumeKeeps(d, ticket, items[..|items| - 1], approved);
    }
  }

  lemma {:induction false} ApproveKeeps(d: Db, ticket: nat, n: nat)
    requires Consistent(d) && n <= |d.usages| && ApproveFirst(d, ticket, n).Some?
    ensures
      var now := ApproveFirst(d, ticket, n).value;
      Consistent(now) && now.parts.Keys == d.parts.Keys
  {
    if n == 0 {
    } else {
      ApproveKeeps(d, ticket, n - 1);
    }
  }

  lemma DeleteOneKeeps(d: Db, i: nat)
    requires Consistent(d) && i < |d.usages| && d.usages[i].Some?
    ensures
      var now := DeleteUsage(d, i);
      Consistent(now) && now.parts.Keys == d.parts.Keys
  {
  }

  lemma {:induction false} DeleteKeeps(d: Db, ticket: nat, pendingOnly: bool, n: nat)
    requires Consistent(d) && n <= |d.usages|
    ensures
      var now := DeleteFirst(d, ticket, pendingOnly, n);
      Consistent(now) && now.parts.Keys == d.parts.Keys
  {
    if n == 0 {
    } else {
      DeleteKeeps(d, ticket, pendingOnly, n - 1);
      var now := DeleteFirst(d, ticket, pendingOnly, n - 1);
      if Selected(now.usages[n - 1], ticket, pendingOnly) {
        DeleteOneKeeps(now, n - 1);
      }
    }
  }

  lemma {:induction false} PaymentsKeep(d: Db, register: nat, s: nat, payments: seq<Payment>)
    requires Consistent(d) && register < |d.registers|
    ensures Consistent(PostPayments(d, register, s, payments))
  {
    if payments == [] {
    } else {
      PaymentsKeep(d, register, s, payments[..|payments| - 1]);
    }
  }

  lemma SoldConsistent(d: Db, sale: Sale, parts: Parts)
    requires Consistent(d) && SaleConsistent(d.parts, sale) && parts.Keys == d.parts.Keys
    ensures Consistent(d.(parts := parts, sales := d.sales + [sale]))
  {
    var now := d.(parts := parts, sales := d.sales + [sale]);
    forall i | 0 <= i < |d.notes|
      ensures NoteConsistent(now, now.notes[i])
    {
      assert NoteConsistent(d, d.notes[i]);
    }
    assert forall i :: 0 <= i < |d.quotations| ==> QuotationConsistent(d.parts, d.quotations[i]);
    assert forall i :: 0 <= i < |d.orders| ==> OrderConsistent(d.parts, d.orders[i]);
  }

  lemma CreateSaleConsistent(d: Db, cart: seq<CartItem>, payments: seq<Payment>, discount: real, taxRate: real,
                             open: Option<nat>)
    requires Consistent(d) && CreateSale(d, cart, payments, discount, taxRate, open).Ok?
    ensures
      var now := CreateSale(d, cart, payments, discount, taxRate, open).db;
      Consistent(now) && now.parts.Keys == d.parts.Keys
  {
    CartFound(d.parts, cart);
    var lines := Priced(d.parts, cart);
    SellLinesMoves(d.parts, lines);
    MoveLinesEffect(d.parts, lines, Out);
    var now := CreateSale(d, cart, payments, discount, taxRate, open).db;
    SoldConsistent(d, now.sales[|d.sales|], now.parts);
    if HasCash(payments) {
      PaymentsKeep(d.(parts := now.parts, sales := now.sales), open.value, |d.sales|, payments);
    }
  }

  lemma ReturnLinesKnown(d: Db, s: nat, lines: seq<Line>)
    requires Consistent(d) && s < |d.sales| && ReturnError(d, s, lines) == None
    ensures Known(d.parts, lines)
  {
    forall i | 0 <= i < |lines|
      ensures lines[i].part in d.parts
    {
      ReturnLineAccepted(d, s, lines, i);
    }
  }

  /** An accepted return names parts of the sale and asks for no more than is available. */
  lemma {:induction false} ReturnLineAccepted(d: Db, s: nat, lines: seq<Line>, i: nat)
    requires s < |d.sales| && i < |lines| && ReturnError(d, s, lines) == None
    ensures
      var l := FindLine(d.sales[s].lines, lines[i].part);
      l.Some? && lines[i].qty <= d.sales[s].lines[l.value].qty - Returned(d, s, lines[i].part)
  {
    if i < |lines| - 1 {
      ReturnLineAccepted(d, s, lines[..|lines| - 1], i);
    }
  }

  predicate SaleAction(a: Action)
  {
    a.DoCreateSale? || a.DoVoidSale? || a.DoCreateNote? || a.DoCancelNote? || a.DoProcessRefund?
  }

  predicate QuotationAction(a: Action)
  {
    || a.DoCreateQuotation? || a.DoSetQuotationStatus? || a.DoConvertQuotation?
    || a.DoDuplicateQuotation? || a.DoDeleteQuotation? || a.DoExpireQuotations?
  }

  predicate PartAction(a: Action)
  {
    || a.DoCreateOrder? || a.DoAddOrderLine? || a.DoReceiveOrder? || a.DoConsumeParts? || a.DoProposePart?
    || a.DoApproveParts? || a.DoRejectParts? || a.DoCancelTicketParts? || a.DoRemovePart?
    || a.DoCancelByAction?
  }

  predicate OrderAction(a: Action)
  {
    a.DoCreateOrder? || a.DoAddOrderLine? || a.DoReceiveOrder?
  }

  lemma VoidSaleConsistent(d: Db, s: nat, open: Option<nat>)
    requires Consistent(d) && VoidSale(d, s, open).Ok?
    ensures Consistent(VoidSale(d, s, open).db) && VoidSale(d, s, open).db.parts.Keys == d.parts.Keys
  {
    MoveLinesEffect(d.parts, d.sales[s].lines, In);
    var now := VoidSale(d, s, open).db;
    forall i | 0 <= i < |d.notes|
      ensures NoteConsistent(now, now.notes[i])
    {
      assert NoteConsistent(d, d.notes[i]) && d.notes[i].sale != s;
    }
  }

  lemma CreateNoteConsistent(d: Db, s: nat, lines: seq<Line>)
    requires Consistent(d) && CreateNote(d, s, lines).Ok?
    ensures Consistent(CreateNote(d, s, lines).db) && CreateNote(d, s, lines).db.parts.Keys == d.parts.Keys
  {
    ReturnLinesKnown(d, s, lines);
    MoveLinesEffect(d.parts, lines, In);
    var now := CreateNote(d, s, lines).db;
    forall i | 0 <= i < |now.notes|
      ensures NoteConsistent(now, now.notes[i])
    {
      assert i < |d.notes| ==> NoteConsistent(d, d.notes[i]);
    }
  }

  lemma CancelNoteConsistent(d: Db, n: nat)
    requires Consistent(d) && CancelNote(d, n).Ok?
    ensures Consistent(CancelNote(d, n).db) && CancelNote(d, n).db.parts.Keys == d.parts.Keys
  {
    MoveLinesEffect(d.parts, d.notes[n].lines, Out);
    var now := CancelNote(d, n).db;
    forall i | 0 <= i < |now.notes|
      ensures NoteConsistent(now, now.notes[i])
    {
      assert NoteConsistent(d, d.notes[i]);
    }
  }

  lemma SaleStepConsistent(d: Db, a: Action)
    requires Consistent(d) && SaleAction(a) && Step(d, a).Ok?
    ensures Consistent(Next(d, a)) && Next(d, a).parts.Keys == d.parts.Keys
  {
    match a
    case DoCreateSale(cart, payments, discount, taxRate, open) =>
      CreateSaleConsistent(d, cart, payments, discount, taxRate, open);
    case DoVoidSale(s, open) => VoidSaleConsistent(d, s, open);
    case DoCreateNote(s, lines) => CreateNoteConsistent(d, s, lines);
    case DoCancelNote(n) => CancelNoteConsistent(d, n);
    case DoProcessRefund(n) => assert forall i :: 0 <= i < |d.notes| ==> NoteConsistent(d, d.notes[i]);
  }

  lemma QuotationStepConsistent(d: Db, a: Action)
    requires Consistent(d) && QuotationAction(a) && !a.DoConvertQuotation? && Step(d, a).Ok?
    ensures Consistent(Next(d, a)) && Next(d, a).parts.Keys == d.parts.Keys
  {
    if a.DoCreateQuotation? {
      PartsFound(d.parts, a.lines);
    }
    assert Next(d, a) == d.(quotations := Next(d, a).quotations);
    forall i | 0 <= i < |d.notes|
      ensures NoteConsistent(Next(d, a), d.notes[i])
    {
      assert NoteConsistent(d, d.notes[i]);
    }
  }

  lemma ConvertConsistent(d: Db, q: nat, payments: seq<Payment>)
    requires Consistent(d) && ConvertQuotation(d, q, payments).Ok?
    ensures
      var now := ConvertQuotation(d, q, payments).db;
      Consistent(now) && now.parts.Keys == d.parts.Keys
  {
    var lines := d.quotations[q].value.lines;
    assert QuotationConsistent(d.parts, d.quotations[q]);
    SellLinesMoves(d.parts, lines);
    MoveLinesEffect(d.parts, lines, Out);
    var now := ConvertQuotation(d, q, payments).db;
    SoldConsistent(d, now.sales[|d.sales|], now.parts);
  }

  /** What cancelling by action adds to the stock of `p` for one ticket part of the ticket. */
  function OnTicket(ticket: nat, p: PartId): Option<Usage> -> int
  {
    (u: Option<Usage>) => if u.Some? && u.value.ticket == ticket && u.value.part == p then u.value.qty else 0
  }

  lemma {:induction false} GiveBackEffect(d: Db, ticket: nat, n: nat)
    requires n <= |d.usages|
    ensures GiveBackFirst(d, ticket, n).Keys == d.parts.Keys
    ensures forall p :: p in d.parts ==>
      GiveBackFirst(d, ticket, n)[p] ==
        d.parts[p].(stock := d.parts[p].stock + SumInt(d.usages[..n], OnTicket(ticket, p)))
  {
    if n == 0 {
    } else {
      GiveBackEffect(d, ticket, n - 1);
      assert d.usages[..n][..n - 1] == d.usages[..n - 1];
    }
  }

  lemma OrderStepConsistent(d: Db, a: Action)
    requires Consistent(d) && Step(d, a).Ok? && OrderAction(a)
    ensures Consistent(Next(d, a)) && Next(d, a).parts.Keys == d.parts.Keys
  {
    if a.DoReceiveOrder? {
      ReceiveLinesEffect(d.parts, d.orders[a.order].lines);
    }
    var now := Next(d, a);
    assert now == d.(parts := now.parts, orders := now.orders);
    forall i | 0 <= i < |d.notes|
      ensures NoteConsistent(now, now.notes[i])
    {
      assert NoteConsistent(d, d.notes[i]);
    }
  }

  lemma UseStepConsistent(d: Db, a: Action)
    requires Consistent(d) && Step(d, a).Ok? && (a.DoConsumeParts? || a.DoProposePart? || a.DoApproveParts?)
    ensures Consistent(Next(d, a)) && Next(d, a).parts.Keys == d.parts.Keys
  {
    match a
    case DoConsumeParts(t, items, approved) => ConsumeKeeps(d, t, items, approved);
    case DoProposePart(t, item) => ConsumeKeeps(d, t, [item], false);
    case DoApproveParts(t) => ApproveKeeps(d, t, |d.usages|);
  }

  lemma MarksAside(d: Db, cancelled: set<nat>)
    requires Consistent(d)
    ensures Consistent(d.(cancelled := cancelled))
  {
  }

  lemma DeletedConsistent(d: Db, ticket: nat, pendingOnly: bool, cancelled: set<nat>)
    requires Consistent(d)
    ensures
      var now := DeleteFirst(d, ticket, pendingOnly, |d.usages|).(cancelled := cancelled);
      Consistent(now) && now.parts.Keys == d.parts.Keys
  {
    DeleteKeeps(d, ticket, pendingOnly, |d.usages|);
    MarksAside(DeleteFirst(d, ticket, pendingOnly, |d.usages|), cancelled);
  }

  lemma CancelByActionConsistent(d: Db, ticket: nat)
    requires Consistent(d) && CancelByAction(d, ticket).Ok?
    ensures
      var now := CancelByAction(d, ticket).db;
      Consistent(now) && now.parts.Keys == d.parts.Keys
  {
    GiveBackEffect(d, ticket, |d.usages|);
  }

  lemma UsageStepConsistent(d: Db, a: Action)
    requires Consistent(d) && PartAction(a) && !OrderAction(a) && Step(d, a).Ok?
    ensures Consistent(Next(d, a)) && Next(d, a).parts.Keys == d.parts.Keys
  {
    if a.DoConsumeParts? || a.DoProposePart? || a.DoApproveParts? {
      UseStepConsistent(d, a);
    } else if a.DoCancelByAction? {
      CancelByActionConsistent(d, a.ticket);
    } else if a.DoRemovePart? {
      DeleteOneKeeps(d, a.usage);
    } else if a.DoRejectParts? {
      DeletedConsistent(d, a.ticket, true, d.cancelled - {a.ticket});
    } else {
      DeletedConsistent(d, a.ticket, false, d.cancelled + {a.ticket});
    }
  }

  lemma StepConsistent(d: Db, a: Action)
    requires Consistent(d)
    ensures Consistent(Next(d, a)) && Next(d, a).parts.Keys == d.parts.Keys
  {
    if Step(d, a).Fail? {
    } else if SaleAction(a) {
      SaleStepConsistent(d, a);
    } else if a.DoConvertQuotation? {
      ConvertConsistent(d, a.quotation, a.payments);
    } else if QuotationAction(a) {
      QuotationStepConsistent(d, a);
    } else if OrderAction(a) {
      OrderStepConsistent(d, a);
    } else if PartAction(a) {
      UsageStepConsistent(d, a);
    } else {
      var now := Next(d, a);
      assert now == d.(cancelled := now.cancelled, registers := now.registers, cash := now.cash);
    }
  }

  lemma {:induction false} RunConsistent(d: Db, actions: seq<Action>)
    requires Consistent(d)
    ensures Consistent(Run(d, actions)) && Run(d, actions).parts.Keys == d.parts.Keys
  {
    if actions == [] {
    } else {
      RunConsistent(d, actions[..|actions| - 1]);
      StepConsistent(Run(d, actions[..|actions| - 1]), actions[|actions| - 1]);
    }
  }

  // ---------------------------------------------------------------- conservation

  function SoldOf(p: PartId): Sale -> int
  {
    (s: Sale) => if s.status == Voided then 0 else Qty(s.lines, p)
  }

  function TakenBackOf(p: PartId): Note -> int
  {
    (n: Note) => if n.status == NoteCancelled then 0 else Qty(n.lines, p)
  }

  function ReceivedOf(p: PartId): Order -> int
  {
    (o: Order) => if o.received then Qty(o.lines, p) else 0
  }

  /** What a ticket part has taken from the stock of `p` under the given triggers. */
  function UsedOf(triggers: Triggers, p: PartId): Option<Usage> -> int
  {
    (u: Option<Usage>) =>
      if u.None? || u.value.part != p then 0
      else (if triggers.legacy then u.value.qty else 0)
           + (if triggers.sync && u.value.approved then u.value.qty else 0)
  }

  /** Stock with every movement on record undone. */
  function Balance(d: Db, p: PartId): int
    requires p in d.parts
  {
    d.parts[p].stock
    - SumInt(d.orders, ReceivedOf(p)) + SumInt(d.usages, UsedOf(d.triggers, p))
    + SumInt(d.sales, SoldOf(p)) - SumInt(d.notes, TakenBackOf(p))
  }

  lemma CreateSaleBalance(d: Db, cart: seq<CartItem>, payments: seq<Payment>, discount: real, taxRate: real,
                          open: Option<nat>, p: PartId)
    requires Consistent(d) && p in d.parts && CreateSale(d, cart, payments, discount, taxRate, open).Ok?
    ensures p in CreateSale(d, cart, payments, discount, taxRate, open).db.parts
    ensures Balance(CreateSale(d, cart, payments, discount, taxRate, open).db, p) == Balance(d, p)
  {
    CartFound(d.parts, cart);
    var lines := Priced(d.parts, cart);
    SellLinesMoves(d.parts, lines);
    MoveLinesEffect(d.parts, lines, Out);
    var totals := SaleTotals(Amount(lines), discount, taxRate);
    var sale := Sale(lines, payments, totals, taxRate, Paid(payments) - totals.total, Completed, None);
    SumIntAppend(d.sales, sale, SoldOf(p));
  }

  /** Lines moved into stock or out of it, with the note that records them. */
  lemma NoteBalance(d: Db, now: Db, s: nat, p: PartId)
    requires p in d.parts && p in now.parts && s < |d.sales| && |now.sales| == |d.sales|
    requires now == d.(parts := now.parts, notes := now.notes, sales := d.sales[s := now.sales[s]])
    requires now.sales[s] == d.sales[s].(status := now.sales[s].status)
    requires d.sales[s].status != Voided && now.sales[s].status != Voided
    requires now.parts[p].stock - d.parts[p].stock ==
      SumInt(now.notes, TakenBackOf(p)) - SumInt(d.notes, TakenBackOf(p))
    ensures Balance(now, p) == Balance(d, p)
  {
    SumIntUpdate(d.sales, s, now.sales[s], SoldOf(p));
  }

  lemma CreateNoteRows(d: Db, s: nat, lines: seq<Line>)
    requires CreateNote(d, s, lines).Ok?
    ensures s < |d.sales| && d.sales[s].status != Voided
    ensures
      var now := CreateNote(d, s, lines).db;
      && now == d.(parts := MoveLines(d.parts, lines, In), notes := now.notes, sales := d.sales[s := now.sales[s]])
      && |now.sales| == |d.sales| && now.sales[s] == d.sales[s].(status := now.sales[s].status)
      && now.sales[s].status != Voided && |now.notes| == |d.notes| + 1
      && now.notes == d.notes + [now.notes[|d.notes|]]
      && now.notes[|d.notes|].lines == lines && now.notes[|d.notes|].status == Pending
  {
  }

  lemma CreateNoteBalance(d: Db, s: nat, lines: seq<Line>, p: PartId)
    requires Consistent(d) && p in d.parts && CreateNote(d, s, lines).Ok?
    ensures p in CreateNote(d, s, lines).db.parts
    ensures Balance(CreateNote(d, s, lines).db, p) == Balance(d, p)
  {
    CreateNoteRows(d, s, lines);
    MoveLinesEffect(d.parts, lines, In);
    var now := CreateNote(d, s, lines).db;
    SumIntAppend(d.notes, now.notes[|d.notes|], TakenBackOf(p));
    NoteBalance(d, now, s, p);
  }

  lemma CancelNoteBalance(d: Db, n: nat, p: PartId)
    requires Consistent(d) && p in d.parts && CancelNote(d, n).Ok?
    ensures p in CancelNote(d, n).db.parts
    ensures Balance(CancelNote(d, n).db, p) == Balance(d, p)
  {
    var now, s := CancelNote(d, n).db, d.notes[n].sale;
    assert NoteConsistent(d, d.notes[n]);
    MoveLinesEffect(d.parts, d.notes[n].lines, Out);
    SumIntUpdate(d.notes, n, now.notes[n], TakenBackOf(p));
    NoteBalance(d, now, s, p);
  }

  lemma InsertBalance(d: Db, u: Usage, p: PartId)
    requires p in d.parts && InsertUsage(d, u).Some?
    ensures p in InsertUsage(d, u).value.parts && Balance(InsertUsage(d, u).value, p) == Balance(d, p)
  {
    SumIntAppend(d.usages, Some(u), UsedOf(d.triggers, p));
  }

  lemma {:induction false} ConsumeBalance(d: Db, ticket: nat, items: seq<CartItem>, approved: bool, p: PartId)
    requires p in d.parts && ConsumeItems(d, ticket, items, approved).Some?
    ensures
      var now := ConsumeItems(d, ticket, items, approved).value;
      p in now.parts && Balance(now, p) == Balance(d, p)
  {
    if items == [] {
    } else {
      var init, last := items[..|items| - 1], items[|items| - 1];
      ConsumeBalance(d, ticket, init, approved, p);
      InsertBalance(ConsumeItems(d, ticket, init, approved).value, Usage(ticket, last.part, last.qty, approved), p);
    }
  }

  lemma {:induction false} ApproveBalance(d: Db, ticket: nat, n: nat, p: PartId)
    requires n <= |d.usages| && p in d.parts && ApproveFirst(d, ticket, n).Some?
    ensures
      var now := ApproveFirst(d, ticket, n).value;
      p in now.parts && Balance(now, p) == Balance(d, p)
  {
    if n == 0 {
    } else {
      ApproveBalance(d, ticket, n - 1, p);
      var now := ApproveFirst(d, ticket, n - 1).value;
      if Selected(now.usages[n - 1], ticket, true) {
        SumIntUpdate(now.usages, n - 1, ApproveUsage(now, n - 1).value.usages[n - 1], UsedOf(now.triggers, p));
      }
    }
  }

  lemma DeleteOneBalance(d: Db, i: nat, p: PartId)
    requires i < |d.usages| && d.usages[i].Some? && p in d.parts
    ensures p in DeleteUsage(d, i).parts && Balance(DeleteUsage(d, i), p) == Balance(d, p)
  {
    SumIntUpdate(d.usages, i, None, UsedOf(d.triggers, p));
  }

  lemma {:induction false} DeleteBalance(d: Db, ticket: nat, pendingOnly: bool, n: nat, p: PartId)
    requires n <= |d.usages| && p in d.parts
    ensures
      var now := DeleteFirst(d, ticket, pendingOnly, n);
      p in now.parts && Balance(now, p) == Balance(d, p)
  {
    if n == 0 {
    } else {
      DeleteBalance(d, ticket, pendingOnly, n - 1, p);
      var now := DeleteFirst(d, ticket, pendingOnly, n - 1);
      if Selected(now.usages[n - 1], ticket, pendingOnly) {
        DeleteOneBalance(now, n - 1, p);
      }
    }
  }

  lemma SaleStepBalance(d: Db, a: Action, p: PartId)
    requires Consistent(d) && p in d.parts && SaleAction(a) && Step(d, a).Ok?
    ensures p in Next(d, a).parts && Balance(Next(d, a), p) == Balance(d, p)
  {
    match a
    case DoCreateSale(cart, payments, discount, taxRate, open) =>
      CreateSaleBalance(d, cart, payments, discount, taxRate, open, p);
    case DoVoidSale(s, open) =>
      MoveLinesEffect(d.parts, d.sales[s].lines, In);
      SumIntUpdate(d.sales, s, d.sales[s].(status := Voided), SoldOf(p));
    case DoCreateNote(s, lines) => CreateNoteBalance(d, s, lines, p);
    case DoCancelNote(n) => CancelNoteBalance(d, n, p);
    case DoProcessRefund(n) => SumIntUpdate(d.notes, n, Next(d, a).notes[n], TakenBackOf(p));
  }

  lemma ConvertBalance(d: Db, q: nat, payments: seq<Payment>, p: PartId)
    requires p in d.parts && ConvertQuotation(d, q, payments).Ok?
    ensures p in ConvertQuotation(d, q, payments).db.parts
    ensures Balance(ConvertQuotation(d, q, payments).db, p) == Balance(d, p)
  {
    SellLinesMoves(d.parts, d.quotations[q].value.lines);
    MoveLinesEffect(d.parts, d.quotations[q].value.lines, Out);
    SumIntAppend(d.sales, ConvertQuotation(d, q, payments).db.sales[|d.sales|], SoldOf(p));
  }

  lemma ReceiveBalance(d: Db, o: nat, p: PartId)
    requires p in d.parts && ReceiveOrder(d, o).Ok?
    ensures p in ReceiveOrder(d, o).db.parts && Balance(ReceiveOrder(d, o).db, p) == Balance(d, p)
  {
    ReceiveLinesEffect(d.parts, d.orders[o].lines);
    SumIntUpdate(d.orders, o, d.orders[o].(received := true), ReceivedOf(p));
  }

  lemma OrderStepBalance(d: Db, a: Action, p: PartId)
    requires p in d.parts && OrderAction(a) && Step(d, a).Ok?
    ensures p in Next(d, a).parts && Balance(Next(d, a), p) == Balance(d, p)
  {
    match a
    case DoCreateOrder => SumIntAppend(d.orders, Order([], false), ReceivedOf(p));
    case DoAddOrderLine(o, line) => SumIntUpdate(d.orders, o, Next(d, a).orders[o], ReceivedOf(p));
    case DoReceiveOrder(o) => ReceiveBalance(d, o, p);
  }

  lemma UseStepBalance(d: Db, a: Action, p: PartId)
    requires p in d.parts && Step(d, a).Ok? && (a.DoConsumeParts? || a.DoProposePart? || a.DoApproveParts?)
    ensures p in Next(d, a).parts && Balance(Next(d, a), p) == Balance(d, p)
  {
    match a
    case DoConsumeParts(t, items, approved) => ConsumeBalance(d, t, items, approved, p);
    case DoProposePart(t, item) => InsertBalance(d, Usage(t, item.part, item.qty, false), p);
    case DoApproveParts(t) => ApproveBalance(d, t, |d.usages|, p);
  }

  lemma DeletedBalance(d: Db, ticket: nat, pendingOnly: bool, cancelled: set<nat>, p: PartId)
    requires p in d.parts
    ensures
      var now := DeleteFirst(d, ticket, pendingOnly, |d.usages|).(cancelled := cancelled);
      p in now.parts && Balance(now, p) == Balance(d, p)
  {
    DeleteBalance(d, ticket, pendingOnly, |d.usages|, p);
  }

  lemma UsageStepBalance(d: Db, a: Action, p: PartId)
    requires p in d.parts && PartAction(a) && !OrderAction(a) && !a.DoCancelByAction? && Step(d, a).Ok?
    ensures p in Next(d, a).parts && Balance(Next(d, a), p) == Balance(d, p)
  {
    if a.DoConsumeParts? || a.DoProposePart? || a.DoApproveParts? {
      UseStepBalance(d, a, p);
    } else if a.DoRemovePart? {
      DeleteOneBalance(d, a.usage, p);
    } else if a.DoRejectParts? {
      DeletedBalance(d, a.ticket, true, d.cancelled - {a.ticket}, p);
    } else {
      DeletedBalance(d, a.ticket, false, d.cancelled + {a.ticket}, p);
    }
  }

  // ---------------------------------------------------------------- an order from creation to reception

  function AddLines(o: nat, lines: seq<Line>): seq<Action>
  {
    seq(|lines|, i requires 0 <= i < |lines| => DoAddOrderLine(o, lines[i]))
  }

  lemma {:induction false} LinesCollected(d: Db, lines: seq<Line>)
    requires Known(d.parts, lines) && Positive(lines) && forall i :: 0 <= i < |lines| ==> lines[i].price >= 0.0
    ensures
      var ordered := d.(orders := d.orders + [Order([], false)]);
      Run(ordered, AddLines(|d.orders|, lines)) == d.(orders := d.orders + [Order(lines, false)])
  {
    if lines == [] {
    } else {
      var n, o := |lines| - 1, |d.orders|;
      LinesCollected(d, lines[..n]);
      assert AddLines(o, lines)[..n] == AddLines(o, lines[..n]);
      assert lines[..n] + [lines[n]] == lines;
      assert (d.orders + [Order(lines[..n], false)])[o := Order(lines, false)] == d.orders + [Order(lines, false)];
    }
  }

  lemma CollectedReceived(d: Db, lines: seq<Line>, p: PartId)
    requires p in d.parts
    ensures
      var now := ReceiveOrder(d.(orders := d.orders + [Order(lines, false)]), |d.orders|);
      && now.Ok? && p in now.db.parts && now.db.parts[p].stock == d.parts[p].stock + Qty(lines, p)
      && now.db.orders == d.orders + [Order(lines, true)]
  {
    ReceiveLinesEffect(d.parts, lines);
    assert (d.orders + [Order(lines, false)])[|d.orders| := Order(lines, true)] == d.orders + [Order(lines, true)];
  }

  /** Items added one by one to a new order, then received: each part gains exactly what was ordered
      of it, and the order takes no further item and no second reception. */
  lemma ReceivedAsOrdered(d: Db, lines: seq<Line>, p: PartId)
    requires p in d.parts
    requires Known(d.parts, lines) && Positive(lines) && forall i :: 0 <= i < |lines| ==> lines[i].price >= 0.0
    ensures
      var o := |d.orders|;
      var now := ReceiveOrder(Run(CreateOrder(d).db, AddLines(o, lines)), o);
      && now.Ok? && p in now.db.parts && now.db.parts[p].stock == d.parts[p].stock + Qty(lines, p)
      && ReceiveOrder(now.db, o).Fail? && forall line :: AddOrderLine(now.db, o, line).Fail?
  {
    LinesCollected(d, lines);
    CollectedReceived(d, lines, p);
  }

  // ---------------------------------------------------------------- stock given back twice

  /** What an action adds to the stock of `p` beyond what the rows account for: cancelling a
      ticket by action gives back the ticket's parts and keeps them on record. */
  function Unaccounted(d: Db, a: Action, p: PartId): int
  {
    if a.DoCancelByAction? && a.ticket !in d.cancelled then SumInt(d.usages, OnTicket(a.ticket, p)) else 0
  }

  predicate HoldsPart(u: Option<Usage>, ticket: nat, p: PartId)
  {
    u.Some? && u.value.ticket == ticket && u.value.part == p
  }

  /** The cancellation finds the ticket cancelled already, or without any ticket part of `p`. */
  predicate Harmless(d: Db, a: Action, p: PartId)
  {
    a.DoCancelByAction? && a.ticket !in d.cancelled ==>
      forall i :: 0 <= i < |d.usages| ==> !HoldsPart(d.usages[i], a.ticket, p)
  }

  lemma {:induction false} OnTicketPositive(parts: Parts, usages: seq<Option<Usage>>, ticket: nat, p: PartId)
    requires forall i :: 0 <= i < |usages| ==> UsageConsistent(parts, usages[i])
    ensures SumInt(usages, OnTicket(ticket, p)) >= 0
    ensures SumInt(usages, OnTicket(ticket, p)) == 0 <==>
      forall i :: 0 <= i < |usages| ==> !HoldsPart(usages[i], ticket, p)
  {
    if usages == [] {
    } else {
      var n := |usages| - 1;
      OnTicketPositive(parts, usages[..n], ticket, p);
      assert forall i :: 0 <= i < n ==> usages[..n][i] == usages[i];
      assert UsageConsistent(parts, usages[n]);
    }
  }

  /** Cancelling a ticket by action adds the ticket's parts to the balance: it keeps the balance
      of `p` exactly when the ticket has no ticket part of `p`. */
  lemma CancelByActionBalance(d: Db, ticket: nat, p: PartId)
    requires Consistent(d) && p in d.parts && CancelByAction(d, ticket).Ok?
    ensures
      var now := CancelByAction(d, ticket).db;
      && p in now.parts && Balance(now, p) == Balance(d, p) + SumInt(d.usages, OnTicket(ticket, p))
      && (Balance(now, p) == Balance(d, p) <==>
          forall i :: 0 <= i < |d.usages| ==> !HoldsPart(d.usages[i], ticket, p))
  {
    GiveBackEffect(d, ticket, |d.usages|);
    assert d.usages[..|d.usages|] == d.usages;
    OnTicketPositive(d.parts, d.usages, ticket, p);
  }

  lemma UnaccountedSign(d: Db, a: Action, p: PartId)
    requires Consistent(d)
    ensures Unaccounted(d, a, p) >= 0
    ensures Unaccounted(d, a, p) == 0 <==> Harmless(d, a, p)
  {
    if a.DoCancelByAction? {
      OnTicketPositive(d.parts, d.usages, a.ticket, p);
    }
  }

  lemma OtherStepBalance(d: Db, a: Action, p: PartId)
    requires p in d.parts && !SaleAction(a) && !PartAction(a) && Step(d, a).Ok?
    ensures p in Next(d, a).parts && Balance(Next(d, a), p) == Balance(d, p)
  {
    if a.DoConvertQuotation? {
      ConvertBalance(d, a.quotation, a.payments, p);
    } else {
      var now := Next(d, a);
      assert now == d.(quotations := now.quotations, cancelled := now.cancelled, registers := now.registers,
                       cash := now.cash);
    }
  }

  /** Every action moves stock together with the rows that explain it, except for what
      cancelling a ticket by action adds. */
  lemma StepBalance(d: Db, a: Action, p: PartId)
    requires Consistent(d) && p in d.parts
    ensures p in Next(d, a).parts && Balance(Next(d, a), p) == Balance(d, p) + Unaccounted(d, a, p)
  {
    if Step(d, a).Fail? {
    } else if SaleAction(a) {
      SaleStepBalance(d, a, p);
    } else if OrderAction(a) {
      OrderStepBalance(d, a, p);
    } else if a.DoCancelByAction? {
      CancelByActionBalance(d, a.ticket, p);
    } else if PartAction(a) {
      UsageStepBalance(d, a, p);
    } else {
      OtherStepBalance(d, a, p);
    }
  }

  function UnaccountedInRun(d: Db, actions: seq<Action>, p: PartId): int
  {
    if actions == [] then 0
    else
      var init := actions[..|actions| - 1];
      UnaccountedInRun(d, init, p) + Unaccounted(Run(d, init), actions[|actions| - 1], p)
  }

  /** Every action of the run is harmless in the state before it. */
  predicate HarmlessRun(d: Db, actions: seq<Action>, p: PartId)
  {
    actions != [] ==>
      var init := actions[..|actions| - 1];
      HarmlessRun(d, init, p) && Harmless(Run(d, init), actions[|actions| - 1], p)
  }

  lemma {:induction false} RunBalance(d: Db, actions: seq<Action>, p: PartId)
    requires Consistent(d) && p in d.parts
    ensures p in Run(d, actions).parts
    ensures Balance(Run(d, actions), p) == Balance(d, p) + UnaccountedInRun(d, actions, p)
    ensures UnaccountedInRun(d, actions, p) >= 0
    ensures UnaccountedInRun(d, actions, p) == 0 <==> HarmlessRun(d, actions, p)
  {
    if actions == [] {
    } else {
      var init, last := actions[..|actions| - 1], actions[|actions| - 1];
      RunBalance(d, init, p);
      RunConsistent(d, init);
      StepBalance(Run(d, init), last, p);
      UnaccountedSign(Run(d, init), last, p);
    }
  }

  /** Opening stock, plus received orders, minus ticket parts, minus sales that are not voided,
      plus credit notes that are not cancelled. */
  function Accounted(opening: int, now: Db, p: PartId): int
  {
    opening + SumInt(now.orders, ReceivedOf(p)) - SumInt(now.usages, UsedOf(now.triggers, p))
    - SumInt(now.sales, SoldOf(p)) + SumInt(now.notes, TakenBackOf(p))
  }

  /** Stock conservation over every run: the stock is what the rows account for, plus what
      cancellations by action added; so it is conserved exactly when each of them met a ticket
      without the part. */
  lemma StockConserved(d: Db, actions: seq<Action>, p: PartId)
    requires Fresh(d) && p in d.parts
    ensures p in Run(d, actions).parts
    ensures
      var now := Run(d, actions);
      now.parts[p].stock == Accounted(d.parts[p].stock, now, p) + UnaccountedInRun(d, actions, p)
    ensures
      var now := Run(d, actions);
      now.parts[p].stock == Accounted(d.parts[p].stock, now, p) <==> HarmlessRun(d, actions, p)
  {
    RunBalance(d, actions, p);
  }

  // ---------------------------------------------------------------- ticket parts counted twice

  /** The plain quantity of the ticket parts of `p`: all of them, or the approved ones. */
  function PlainUseOf(p: PartId, approvedOnly: bool): Option<Usage> -> int
  {
    (u: Option<Usage>) =>
      if u.Some? && u.value.part == p && (approvedOnly ==> u.value.approved) then u.value.qty else 0
  }

  lemma {:induction false} UsedByTrigger(usages: seq<Option<Usage>>, triggers: Triggers, p: PartId)
    ensures SumInt(usages, UsedOf(triggers, p)) ==
      (if triggers.legacy then SumInt(usages, PlainUseOf(p, false)) else 0)
      + (if triggers.sync then SumInt(usages, PlainUseOf(p, true)) else 0)
  {
    if usages == [] {
    } else {
      UsedByTrigger(usages[..|usages| - 1], triggers, p);
    }
  }

  predicate ApprovedUse(u: Option<Usage>, p: PartId)
  {
    u.Some? && u.value.part == p && u.value.approved
  }

  lemma {:induction false} NoApprovedUse(parts: Parts, usages: seq<Option<Usage>>, p: PartId)
    requires forall i :: 0 <= i < |usages| ==> UsageConsistent(parts, usages[i])
    ensures SumInt(usages, PlainUseOf(p, true)) >= 0
    ensures SumInt(usages, PlainUseOf(p, true)) == 0 <==>
      forall i :: 0 <= i < |usages| ==> !ApprovedUse(usages[i], p)
  {
    if usages == [] {
    } else {
      var n := |usages| - 1;
      NoApprovedUse(parts, usages[..n], p);
      assert forall i :: 0 <= i < n ==> usages[..n][i] == usages[i];
      assert UsageConsistent(parts, usages[n]);
    }
  }

  /** With both ticket-part triggers present, as after all migrations, the stock agrees with
      counting every ticket part once exactly when no ticket part of that kind is approved. */
  lemma TicketPartsCountedOnce(d: Db, actions: seq<Action>, p: PartId)
    requires Fresh(d) && p in d.parts && d.triggers == Triggers(true, true)
    ensures
      var now := Run(d, actions);
      p in now.parts &&
      (now.parts[p].stock ==
         d.parts[p].stock + SumInt(now.orders, ReceivedOf(p)) - SumInt(now.usages, PlainUseOf(p, false))
         - SumInt(now.sales, SoldOf(p)) + SumInt(now.notes, TakenBackOf(p)) + UnaccountedInRun(d, actions, p)
       <==> forall i :: 0 <= i < |now.usages| ==> !ApprovedUse(now.usages[i], p))
  {
    StockConserved(d, actions, p);
    RunConsistent(d, actions);
    RunTriggers(d, actions);
    var now := Run(d, actions);
    UsedByTrigger(now.usages, now.triggers, p);
    NoApprovedUse(now.parts, now.usages, p);
  }

  lemma {:induction false} RunTriggers(d: Db, actions: seq<Action>)
    ensures Run(d, actions).triggers == d.triggers
  {
    if actions == [] {
    } else {
      RunTriggers(d, actions[..|actions| - 1]);
    }
  }
}
