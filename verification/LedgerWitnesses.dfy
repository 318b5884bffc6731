/** Concrete runs from a database without documents: how the ledger reaches the states in which a
    promise fails. */
module LedgerWitnesses {
  import opened Sums
  import opened Inventory
  import opened Ledger
  import opened LedgerStock
  import opened LedgerReturns

  // ---------------------------------------------------------------- short runs

  /** A run taken apart at its first action. */
  lemma {:induction false} RunFirst(d: Db, a: Action, rest: seq<Action>)
    ensures Run(d, [a] + rest) == Run(Next(d, a), rest)
  {
    if rest == [] {
      assert [a] + rest == [a] && [a][..0] == [];
    } else {
      var n := |rest| - 1;
      assert ([a] + rest)[..n + 1] == [a] + rest[..n];
      RunFirst(d, a, rest[..n]);
    }
  }

  lemma RunOfThree(d: Db, a: Action, b: Action, c: Action)
    ensures Run(d, [a, b, c]) == Next(Next(Next(d, a), b), c)
  {
    assert [a, b, c] == [a] + ([b] + ([c] + []));
    RunFirst(d, a, [b] + ([c] + []));
    RunFirst(Next(d, a), b, [c] + []);
    RunFirst(Next(Next(d, a), b), c, []);
  }

  lemma InitialConsistent(d: Db)
    requires Fresh(d)
    ensures Consistent(d)
  {
  }

  // ---------------------------------------------------------------- ticket parts

  /** One part put on ticket 0 of a database without ticket parts. */
  lemma FirstUse(d: Db, p: PartId, qty: int, approved: bool)
    requires Fresh(d) && p in d.parts && 1 <= qty <= d.parts[p].stock
    ensures Next(d, DoConsumeParts(0, [CartItem(p, qty)], approved)) ==
      InsertUsage(d, Usage(0, p, qty, approved)).value
  {
    assert [CartItem(p, qty)][..0] == [];
    assert ConsumeItems(d, 0, [], approved) == Some(d);
  }

  lemma OneOnTicket(u: Usage)
    ensures SumInt([Some(u)], OnTicket(u.ticket, u.part)) == u.qty
  {
    SumIntAppend([], Some(u), OnTicket(u.ticket, u.part));
    assert [] + [Some(u)] == [Some(u)];
  }

  lemma FirstUseCancelled(d: Db, p: PartId, qty: int)
    requires Consistent(d) && p in d.parts && d.cancelled == {} && d.usages == [Some(Usage(0, p, qty, false))]
    ensures CancelByAction(d, 0).Ok?
    ensures
      var now := CancelByAction(d, 0).db;
      && p in now.parts && now == d.(parts := now.parts, cancelled := {0}) && Balance(now, p) == Balance(d, p) + qty
  {
    OneOnTicket(Usage(0, p, qty, false));
    CancelByActionBalance(d, 0, p);
  }

  lemma Reopened(d: Db, p: PartId)
    requires Consistent(d) && p in d.parts && d.cancelled == {0}
    ensures
      var now := Next(d, DoMarkTicket(0, false));
      Consistent(now) && now == d.(cancelled := {}) && Balance(now, p) == Balance(d, p)
  {
  }

  lemma CancelledTwice(d: Db, p: PartId, qty: int)
    requires Consistent(d) && p in d.parts && d.cancelled == {} && d.usages == [Some(Usage(0, p, qty, false))]
    ensures
      var cancel, reopen := DoCancelByAction(0), DoMarkTicket(0, false);
      var now := Next(Next(Next(d, cancel), reopen), cancel);
      p in now.parts && now == d.(parts := now.parts, cancelled := {0}) && Balance(now, p) == Balance(d, p) + 2 * qty
  {
    FirstUseCancelled(d, p, qty);
    CancelByActionConsistent(d, 0);
    var once := CancelByAction(d, 0).db;
    assert Next(d, DoCancelByAction(0)) == once;
    Reopened(once, p);
    FirstUseCancelled(Next(once, DoMarkTicket(0, false)), p, qty);
  }

  /** A part put on a ticket, the ticket cancelled, reopened and cancelled again: the part is still
      on record as used, and twice its quantity has come back. */
  lemma CancellingCreatesStock(d: Db, p: PartId, qty: int)
    requires Fresh(d) && p in d.parts && 1 <= qty <= d.parts[p].stock
    ensures
      var consume := DoConsumeParts(0, [CartItem(p, qty)], false);
      var now := Run(d, [consume] + [DoCancelByAction(0), DoMarkTicket(0, false), DoCancelByAction(0)]);
      && p in now.parts && now.parts[p].stock == Accounted(d.parts[p].stock, now, p) + 2 * qty
      && now.usages == [Some(Usage(0, p, qty, false))]
  {
    var consume := DoConsumeParts(0, [CartItem(p, qty)], false);
    var rest := [DoCancelByAction(0), DoMarkTicket(0, false), DoCancelByAction(0)];
    RunFirst(d, consume, rest);
    FirstUse(d, p, qty, false);
    InitialConsistent(d);
    StepConsistent(d, consume);
    InsertBalance(d, Usage(0, p, qty, false), p);
    RunOfThree(Next(d, consume), rest[0], rest[1], rest[2]);
    CancelledTwice(Next(d, consume), p, qty);
  }

  /** An approved ticket part of a database with both triggers is taken from stock twice, even
      below zero. */
  lemma ApprovedPartTakenTwice(d: Db, p: PartId, qty: int)
    requires Fresh(d) && p in d.parts && 1 <= qty <= d.parts[p].stock && d.triggers == Triggers(true, true)
    ensures
      var now := Run(d, [DoConsumeParts(0, [CartItem(p, qty)], true)]);
      p in now.parts && now.parts[p].stock == d.parts[p].stock - 2 * qty
    ensures
      var now := Run(d, [DoConsumeParts(0, [CartItem(p, qty)], true)]);
      |now.usages| == 1 && ApprovedUse(now.usages[0], p)
  {
    var consume := DoConsumeParts(0, [CartItem(p, qty)], true);
    assert [consume] == [consume] + [];
    RunFirst(d, consume, []);
    FirstUse(d, p, qty, true);
  }

  // ---------------------------------------------------------------- sales and returns

  function Sell(p: PartId, qty: int, amount: real): Action
  {
    DoCreateSale([CartItem(p, qty)], [Payment(Card, amount)], 0.0, 0.0, None)
  }

  function Return(p: PartId, price: real): Action
  {
    DoCreateNote(0, [Line(p, 1, price, 0.0)])
  }

  lemma Sold(d: Db, p: PartId, qty: int, amount: real)
    requires p in d.parts && 1 <= qty <= d.parts[p].stock && d.registers == []
    requires 0.0 < amount && d.parts[p].price * qty as real <= amount
    ensures
      var now := Next(d, Sell(p, qty, amount));
      var total := d.parts[p].price * qty as real;
      && now == d.(parts := AddStock(d.parts, p, -qty), sales := now.sales) && |now.sales| == |d.sales| + 1
      && now.sales == d.sales + [now.sales[|d.sales|]]
      && now.sales[|d.sales|].lines == [Line(p, qty, d.parts[p].price, 0.0)]
      && now.sales[|d.sales|].status == Completed && now.sales[|d.sales|].taxRate == 0.0
      && now.sales[|d.sales|].totals.total == total
  {
    var cart, payments := [CartItem(p, qty)], [Payment(Card, amount)];
    CartFound(d.parts, cart);
    var lines := Priced(d.parts, cart);
    var total := d.parts[p].price * qty as real;
    assert lines == [Line(p, qty, d.parts[p].price, 0.0)] && lines[..0] == [] && payments[..0] == [];
    assert Amount(lines) == total;
    assert Paid(payments) == SumReal(payments[..0], Amounts()) + Amounts()(payments[0]) == amount;
    assert SellLines(d.parts, lines) == Some(AddStock(d.parts, p, -qty));
    assert FirstShort(d.parts, lines[..0]) == None && FirstShort(d.parts, lines) == None;
    assert SaleTotals(total, 0.0, 0.0).total == total;
    assert DistinctCart(cart) && !HasCash(payments);
  }

  /** One more unit of sale 0 returned, at a price of the user's choice. */
  lemma OneReturned(d: Db, p: PartId, price: real)
    requires p in d.parts && |d.sales| == 1 && d.sales[0].status != Voided && price >= 0.0
    requires |d.sales[0].lines| == 1 && d.sales[0].lines[0].part == p
    requires Returned(d, 0, p) + 1 <= d.sales[0].lines[0].qty
    ensures
      var note := Note(0, [Line(p, 1, price, 0.0)], NoteTotal(price, d.sales[0].taxRate), Pending);
      var status := StatusAfterReturn(d.sales[0].status, Refunded(d, 0) + note.total, d.sales[0].totals.total);
      Next(d, Return(p, price)) ==
        d.(parts := AddStock(d.parts, p, 1), notes := d.notes + [note], sales := [d.sales[0].(status := status)])
  {
    var lines := [Line(p, 1, price, 0.0)];
    assert lines[..0] == [] && d.sales[0].lines[..0] == [];
    assert Amount(lines) == price;
    assert FindLine(d.sales[0].lines, p) == Some(0);
    assert ReturnError(d, 0, lines) == None;
    assert MoveLines(d.parts, lines, In) == AddStock(d.parts, p, 1);
    CreateNoteRefunds(d, 0, lines, 0);
    var noted := d.(notes := d.notes + [Note(0, lines, NoteTotal(price, d.sales[0].taxRate), Pending)]);
    assert Refunded(noted, 0) == Refunded(CreateNote(d, 0, lines).db, 0);
  }

  lemma NothingReturnedYet(d: Db, p: PartId)
    requires d.notes == []
    ensures Returned(d, 0, p) == 0 && Refunded(d, 0) == 0.0
  {
  }

  lemma ReturnedSums(d: Db, p: PartId, price: real, status: SaleStatus)
    requires |d.sales| == 1
    ensures
      var note := Note(0, [Line(p, 1, price, 0.0)], NoteTotal(price, d.sales[0].taxRate), Pending);
      var now := d.(
        parts := AddStock(d.parts, p, 1), notes := d.notes + [note], sales := [d.sales[0].(status := status)]);
      Returned(now, 0, p) == Returned(d, 0, p) + 1 && Refunded(now, 0) == Refunded(d, 0) + note.total
  {
    var note := Note(0, [Line(p, 1, price, 0.0)], NoteTotal(price, d.sales[0].taxRate), Pending);
    assert note.lines[..0] == [] && Qty(note.lines, p) == 1;
    SumIntAppend(d.notes, note, ReturnedOf(0, p));
    SumRealAppend(d.notes, note, NoteAmountOf(0));
  }

  lemma SoldReturnedSold(d: Db, p: PartId, amount: real)
    requires p in d.parts && d.parts[p].stock == 0 && 0.0 <= d.parts[p].price < amount
    requires d.registers == [] && d.notes == [] && |d.sales| == 1 && d.sales[0].status == Completed
    requires |d.sales[0].lines| == 1 && d.sales[0].lines[0].part == p && d.sales[0].lines[0].qty == 1
    ensures
      var now := Next(Next(d, Return(p, 0.0)), Sell(p, 1, amount));
      && p in now.parts && now.parts[p].stock == 0 && |now.sales| == 2 && |now.notes| == 1
      && now.notes[0].lines == [Line(p, 1, 0.0, 0.0)] && now.notes[0].sale == 0 && now.notes[0].status == Pending
  {
    NothingReturnedYet(d, p);
    OneReturned(d, p, 0.0);
    Sold(Next(d, Return(p, 0.0)), p, 1, amount);
  }

  /** One unit in stock: sold, returned, sold again, and the return cancelled leaves minus one. */
  lemma CancelledNoteGoesNegative(d: Db, p: PartId)
    requires Fresh(d) && p in d.parts && d.parts[p].stock == 1 && d.parts[p].price >= 0.0
    ensures
      var sell := Sell(p, 1, d.parts[p].price + 1.0);
      var now := Run(d, [sell] + [Return(p, 0.0), sell, DoCancelNote(0)]);
      p in now.parts && now.parts[p].stock == -1
  {
    var amount := d.parts[p].price + 1.0;
    var sell := Sell(p, 1, amount);
    RunFirst(d, sell, [Return(p, 0.0), sell, DoCancelNote(0)]);
    Sold(d, p, 1, amount);
    var sold := Next(d, sell);
    RunOfThree(sold, Return(p, 0.0), sell, DoCancelNote(0));
    SoldReturnedSold(sold, p, amount);
    var again := Next(Next(sold, Return(p, 0.0)), sell);
    var lines := again.notes[0].lines;
    assert lines[..0] == [] && MoveLines(again.parts, lines, Out) == AddStock(again.parts, p, -1);
  }

  /** One unit of a sale of two for 20 returned for all of it. */
  lemma ReturnedForAll(d: Db, p: PartId, full: Db)
    requires p in d.parts && d.notes == [] && |d.sales| == 1 && d.sales[0].status == Completed
    requires d.sales[0].lines == [Line(p, 2, 10.0, 0.0)] && d.sales[0].taxRate == 0.0
    requires d.sales[0].totals.total == 20.0 && full == Next(d, Return(p, 20.0))
    ensures full.sales == [d.sales[0].(status := FullyRefunded)] && p in full.parts && |full.notes| == 1
    ensures Returned(full, 0, p) == 1 && Refunded(full, 0) == 20.0
  {
    NothingReturnedYet(d, p);
    OneReturned(d, p, 20.0);
    assert NoteTotal(20.0, 0.0) == 20.0;
    ReturnedSums(d, p, 20.0, FullyRefunded);
  }

  /** The other unit returned for nothing. */
  lemma ReturnedForNothing(d: Db, p: PartId, now: Db)
    requires p in d.parts && |d.notes| == 1 && |d.sales| == 1 && d.sales[0].status == FullyRefunded
    requires d.sales[0].lines == [Line(p, 2, 10.0, 0.0)] && d.sales[0].taxRate == 0.0
    requires d.sales[0].totals.total == 20.0 && Returned(d, 0, p) == 1 && Refunded(d, 0) == 20.0
    requires now == Next(d, Return(p, 0.0))
    ensures |now.sales| == 1 && now.sales[0].totals.total == 20.0 && Refunded(now, 0) == 20.0 && |now.notes| == 2
    ensures now.notes[1].sale == 0 && now.notes[1].status == Pending && now.notes[1].total == 0.0
  {
    OneReturned(d, p, 0.0);
    assert NoteTotal(0.0, 0.0) == 0.0;
    ReturnedSums(d, p, 0.0, FullyRefunded);
  }

  /** Two units sold for 20: the first returned for all of it, the second for nothing, and the second
      return cancelled. The notes add up to the total, and the sale is PARTIALLY_REFUNDED. */
  lemma FullRefundForgotten(d: Db, p: PartId)
    requires Fresh(d) && p in d.parts && d.parts[p].stock >= 2 && d.parts[p].price == 10.0
    ensures
      var now := Run(d, [Sell(p, 2, 20.0)] + [Return(p, 20.0), Return(p, 0.0), DoCancelNote(1)]);
      |now.sales| == 1 && AddsUp(now, 0) && now.sales[0].status == PartiallyRefunded
  {
    var sell := Sell(p, 2, 20.0);
    RunFirst(d, sell, [Return(p, 20.0), Return(p, 0.0), DoCancelNote(1)]);
    Sold(d, p, 2, 20.0);
    var sold := Next(d, sell);
    RunOfThree(sold, Return(p, 20.0), Return(p, 0.0), DoCancelNote(1));
    var full := Next(sold, Return(p, 20.0));
    ReturnedForAll(sold, p, full);
    ReturnedForNothing(full, p, Next(full, Return(p, 0.0)));
    CancelNoteRefunds(Next(full, Return(p, 0.0)), 1, 0);
  }

  lemma RepeatedReturned(d: Db, line: Line)
    requires line.qty == 1 && line.price >= 0.0 && d.notes == [] && |d.sales| == 1
    requires d.sales[0].lines == [line] && d.sales[0].status == Completed
    ensures CreateNote(d, 0, [line, line]).Ok?
    ensures Returned(CreateNote(d, 0, [line, line]).db, 0, line.part) == 2
    ensures Qty([line], line.part) == 1
  {
    assert [line, line][..1] == [line] && [line][..0] == [];
    assert FindLine([line], line.part) == Some(0);
    assert ReturnError(d, 0, [line]) == None;
    CreateNoteReturned(d, 0, [line, line], 0, line.part);
    NothingReturnedYet(d, line.part);
    assert Qty([line], line.part) == 1 && Qty([line, line], line.part) == 2;
  }

  /** One unit sold, and one request that names it twice: it is accepted, and two units are returned. */
  lemma RepeatedPartReturnsTooMuch(d: Db, p: PartId)
    requires Fresh(d) && p in d.parts && d.parts[p].stock >= 1 && d.parts[p].price >= 0.0
    ensures
      var line := Line(p, 1, d.parts[p].price, 0.0);
      var now := Run(d, [Sell(p, 1, d.parts[p].price + 1.0)] + [DoCreateNote(0, [line, line])]);
      && |now.sales| == 1 && now.sales[0].lines == [line] && |now.notes| == 1
      && Returned(now, 0, p) == 2 > Qty(now.sales[0].lines, p)
  {
    var amount := d.parts[p].price + 1.0;
    var line := Line(p, 1, d.parts[p].price, 0.0);
    var sell, note := Sell(p, 1, amount), DoCreateNote(0, [line, line]);
    RunFirst(d, sell, [note]);
    Sold(d, p, 1, amount);
    var sold := Next(d, sell);
    assert [note] == [note] + [];
    RunFirst(sold, note, []);
    RepeatedReturned(sold, line);
    CreateNoteRows(sold, 0, [line, line]);
  }

  // ---------------------------------------------------------------- a tax rate below -100 %

  lemma QuotedSold(d: Db, p: PartId)
    requires Fresh(d) && p in d.parts && d.parts[p].stock >= 1
    ensures
      var quote := DoCreateQuotation([Line(p, 1, 10.0, 0.0)], 100.0, -200.0, 0);
      var accepted := Next(Next(Next(d, quote), DoSetQuotationStatus(0, Sent)), DoSetQuotationStatus(0, Accepted));
      var now := Next(accepted, DoConvertQuotation(0, [Payment(Card, 0.0)]));
      && |now.sales| == 1 && now.sales[0].lines == [Line(p, 1, 10.0, 0.0)] && now.sales[0].status == Completed
      && now.sales[0].taxRate == -200.0 && now.sales[0].totals.total == 0.0
      && now.notes == [] && p in now.parts
  {
    var lines, payments := [Line(p, 1, 10.0, 0.0)], [Payment(Card, 0.0)];
    PartsFound(d.parts, lines);
    assert lines[..0] == [] && payments[..0] == [];
    assert DiscountedAmount(lines) == 10.0;
    assert QuotationTotals(10.0, 100.0, -200.0).total == 0.0;
    assert Paid(payments) == SumReal(payments[..0], Amounts()) + Amounts()(payments[0]) == 0.0;
    assert FirstShort(d.parts, lines[..0]) == None && FirstShort(d.parts, lines) == None;
    assert SellLines(d.parts, lines) == Some(AddStock(d.parts, p, -1));
  }

  /** A quotation at -200 % tax, given away and converted, then its part returned for 10: the note
      comes to -10, and the sale still counts as COMPLETED. */
  lemma NegativeRateDisagrees(d: Db, p: PartId)
    requires Fresh(d) && p in d.parts && d.parts[p].stock >= 1
    ensures
      var quote := DoCreateQuotation([Line(p, 1, 10.0, 0.0)], 100.0, -200.0, 0);
      var now := Run(d, [quote] + ([DoSetQuotationStatus(0, Sent)] +
        [DoSetQuotationStatus(0, Accepted), DoConvertQuotation(0, [Payment(Card, 0.0)]), Return(p, 10.0)]));
      && |now.sales| == 1 && now.sales[0].status == Completed && Refunded(now, 0) == -10.0 && !StatusAgrees(now, 0)
  {
    var quote := DoCreateQuotation([Line(p, 1, 10.0, 0.0)], 100.0, -200.0, 0);
    var send, accept := DoSetQuotationStatus(0, Sent), DoSetQuotationStatus(0, Accepted);
    var convert := DoConvertQuotation(0, [Payment(Card, 0.0)]);
    RunFirst(d, quote, [send] + [accept, convert, Return(p, 10.0)]);
    RunFirst(Next(d, quote), send, [accept, convert, Return(p, 10.0)]);
    var sent := Next(Next(d, quote), send);
    RunOfThree(sent, accept, convert, Return(p, 10.0));
    QuotedSold(d, p);
    var sold := Next(Next(sent, accept), convert);
    NothingReturnedYet(sold, p);
    OneReturned(sold, p, 10.0);
    var now := Next(sold, Return(p, 10.0));
    assert NoteTotal(10.0, -200.0) == -10.0;
    ReturnedSums(sold, p, 10.0, Completed);
  }
}
