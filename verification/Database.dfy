/** The server actions that loop, as code over the tables: they accumulate, check and write row by
    row. Each is proved to do exactly its step of the ledger, errors included. */
module Database {
  import opened Sums
  import opened Inventory
  import opened Ledger
  import opened LedgerReturns

  datatype Result = Done | Failed(error: Error)

  datatype ScreenResult = Screen(rows: seq<Returnable>) | NoScreen(error: Error)

  /** The action did the step: the new rows and Done, or the same rows and the step's error. */
  predicate Reports(step: Outcome, before: Db, now: Db, r: Result)
  {
    match step
    case Ok(db) => r == Done && now == db
    case Fail(e) => r == Failed(e) && now == before
  }

  // What the first lines of a document decide stays decided for the whole document.

  lemma {:induction false} ShortageStays(parts: Parts, lines: seq<Line>, n: nat)
    requires n <= |lines| && FirstShort(parts, lines[..n]).Some?
    ensures FirstShort(parts, lines) == FirstShort(parts, lines[..n])
  {
    if n == |lines| {
      assert lines[..n] == lines;
    } else {
      assert lines[..|lines| - 1][..n] == lines[..n];
      ShortageStays(parts, lines[..|lines| - 1], n);
    }
  }

  lemma {:induction false} RefusalStays(d: Db, s: nat, lines: seq<Line>, n: nat)
    requires s < |d.sales| && n <= |lines| && ReturnError(d, s, lines[..n]).Some?
    ensures ReturnError(d, s, lines) == ReturnError(d, s, lines[..n])
  {
    if n == |lines| {
      assert lines[..n] == lines;
    } else {
      assert lines[..|lines| - 1][..n] == lines[..n];
      RefusalStays(d, s, lines[..|lines| - 1], n);
    }
  }

  lemma {:induction false} RaiseStays(parts: Parts, lines: seq<Line>, n: nat)
    requires n <= |lines| && SellLines(parts, lines[..n]).None?
    ensures SellLines(parts, lines).None?
  {
    if n == |lines| {
      assert lines[..n] == lines;
    } else {
      assert lines[..|lines| - 1][..n] == lines[..n];
      RaiseStays(parts, lines[..|lines| - 1], n);
    }
  }

  lemma {:induction false} ConsumeStops(d: Db, ticket: nat, items: seq<CartItem>, approved: bool, n: nat)
    requires n <= |items| && ConsumeItems(d, ticket, items[..n], approved).None?
    ensures ConsumeItems(d, ticket, items, approved).None?
  {
    if n == |items| {
      assert items[..n] == items;
    } else {
      assert items[..|items| - 1][..n] == items[..n];
      ConsumeStops(d, ticket, items[..|items| - 1], approved, n);
    }
  }

  lemma {:induction false} ApproveStops(d: Db, ticket: nat, n: nat, m: nat)
    requires n <= m <= |d.usages| && ApproveFirst(d, ticket, n).None?
    ensures ApproveFirst(d, ticket, m).None?
  {
    if n < m {
      ApproveStops(d, ticket, n, m - 1);
    }
  }

  class Tables {
    var parts: Parts
    var sales: seq<Sale>
    var notes: seq<Note>
    var quotations: seq<Option<Quotation>>
    var orders: seq<Order>
    var usages: seq<Option<Usage>>
    var cancelled: set<nat>
    var registers: seq<Register>
    var cash: seq<CashTx>
    const triggers: Triggers

    function View(): Db
      reads this
    {
      Db(parts, sales, notes, quotations, orders, usages, cancelled, registers, cash, triggers)
    }

    constructor (stock: Parts, installed: Triggers)
      ensures Fresh(View()) && parts == stock && triggers == installed
    {
      parts, triggers := stock, installed;
      sales, notes, quotations, orders, usages, registers, cash := [], [], [], [], [], [], [];
      cancelled := {};
    }

    // -------------------------------------------------------------- credit notes

    /** The quantities already returned, keyed by part. */
    method ReturnedQuantities(s: nat) returns (returned: map<PartId, int>)
      ensures forall p :: (if p in returned then returned[p] else 0) == Returned(View(), s, p)
    {
      returned := map[];
      for n := 0 to |notes|
        invariant forall p :: (if p in returned then returned[p] else 0) == SumInt(notes[..n], ReturnedOf(s, p))
      {
        var note := notes[n];
        assert notes[..n + 1][..n] == notes[..n];
        if note.sale == s && note.status != NoteCancelled {
          for j := 0 to |note.lines|
            invariant forall p :: (if p in returned then returned[p] else 0)
                               == SumInt(notes[..n], ReturnedOf(s, p)) + Qty(note.lines[..j], p)
          {
            var line := note.lines[j];
            assert note.lines[..j + 1][..j] == note.lines[..j];
            var already := if line.part in returned then returned[line.part] else 0;
            returned := returned[line.part := already + line.qty];
          }
          assert note.lines[..|note.lines|] == note.lines;
        }
      }
      assert notes[..|notes|] == notes;
    }

    method TotalReturned(s: nat) returns (total: real)
      ensures total == Refunded(View(), s)
    {
      total := 0.0;
      for n := 0 to |notes|
        invariant total == SumReal(notes[..n], NoteAmountOf(s))
      {
        assert notes[..n + 1][..n] == notes[..n];
        if notes[n].sale == s && notes[n].status != NoteCancelled {
          total := total + notes[n].total;
        }
      }
      assert notes[..|notes|] == notes;
    }

    method GetPOSSaleForReturn(s: nat) returns (r: ScreenResult)
      ensures s >= |sales| ==> r == NoScreen(NotFound)
      ensures s < |sales| && sales[s].status == Voided ==> r == NoScreen(SaleIsVoided)
      ensures s < |sales| && sales[s].status != Voided ==> r == Screen(ReturnScreen(View(), s))
    {
      if s >= |sales| {
        return NoScreen(NotFound);
      }
      if sales[s].status == Voided {
        return NoScreen(SaleIsVoided);
      }
      var returned := ReturnedQuantities(s);
      var lines := sales[s].lines;
      var rows := [];
      for i := 0 to |lines|
        invariant rows == ReturnScreen(View(), s)[..i]
      {
        var already := if lines[i].part in returned then returned[lines[i].part] else 0;
        rows := rows + [Returnable(lines[i].part, already, lines[i].qty - already)];
      }
      return Screen(rows);
    }

    /** One UPDATE of a part's stock per line. */
    method MoveStock(lines: seq<Line>, way: Direction)
      modifies this`parts
      ensures parts == MoveLines(old(parts), lines, way)
    {
      for i := 0 to |lines|
        invariant parts == MoveLines(old(parts), lines[..i], way)
      {
        assert lines[..i + 1][..i] == lines[..i];
        parts := AddStock(parts, lines[i].part, Signed(way, lines[i].qty));
      }
      assert lines[..|lines|] == lines;
    }

    method SumLines(lines: seq<Line>) returns (subtotal: real)
      ensures subtotal == Amount(lines)
    {
      subtotal := 0.0;
      for i := 0 to |lines|
        invariant subtotal == Amount(lines[..i])
      {
        assert lines[..i + 1][..i] == lines[..i];
        subtotal := subtotal + lines[i].price * lines[i].qty as real;
      }
      assert lines[..|lines|] == lines;
    }

    /** The item check of a return, against the quantities already returned. */
    method CheckReturn(s: nat, lines: seq<Line>) returns (refusal: Option<Error>)
      requires s < |sales|
      ensures refusal == ReturnError(View(), s, lines)
    {
      var returned := ReturnedQuantities(s);
      for i := 0 to |lines|
        invariant ReturnError(View(), s, lines[..i]) == None
      {
        var line := lines[i];
        assert lines[..i + 1][..i] == lines[..i];
        var already := if line.part in returned then returned[line.part] else 0;
        var found := FindLine(sales[s].lines, line.part);
        refusal :=
          if found.None? then Some(NotInSale(line.part))
          else if line.qty > sales[s].lines[found.value].qty - already then Some(ExceedsAvailable(line.part))
          else None;
        assert refusal == ReturnError(View(), s, lines[..i + 1]);
        if refusal.Some? {
          RefusalStays(View(), s, lines, i + 1);
          return;
        }
      }
      assert lines[..|lines|] == lines;
      refusal := None;
    }

    method CreateCreditNote(s: nat, lines: seq<Line>) returns (r: Result)
      modifies this
      ensures Reports(CreateNote(old(View()), s, lines), old(View()), View(), r)
    {
      if !ValidReturn(lines) { return Failed(InvalidInput); }
      if s >= |sales| { return Failed(NotFound); }
      if sales[s].status == Voided { return Failed(SaleIsVoided); }
      var refusal := CheckReturn(s, lines);
      if refusal.Some? { return Failed(refusal.value); }

      ghost var before := View();
      var sale := sales[s];
      var subtotal := SumLines(lines);
      var taxAmount := subtotal * (sale.taxRate / 100.0);
      notes := notes + [Note(s, lines, subtotal + taxAmount, Pending)];
      MoveStock(lines, In);
      assert subtotal + taxAmount == NoteTotal(Amount(lines), sale.taxRate);
      assert View() == before.(
        parts := MoveLines(before.parts, lines, In),
        notes := before.notes + [Note(s, lines, NoteTotal(Amount(lines), sale.taxRate), Pending)]);

      UpdateSaleStatus(s);
      return Done;
    }

    /** Recomputes the status of a sale from its non-cancelled notes. */
    method UpdateSaleStatus(s: nat)
      requires s < |sales|
      modifies this`sales
      ensures sales == old(sales)[s := old(sales)[s].(
        status := StatusAfterReturn(old(sales)[s].status, Refunded(old(View()), s), old(sales)[s].totals.total))]
    {
      var sale := sales[s];
      var totalReturned := TotalReturned(s);
      var status := sale.status;
      if Abs(totalReturned - sale.totals.total) < 0.01 {
        status := FullyRefunded;
      } else if totalReturned > 0.0 {
        status := PartiallyRefunded;
      }
      if status != sale.status {
        sales := sales[s := sale.(status := status)];
      }
    }

    method CancelCreditNote(n: nat) returns (r: Result)
      modifies this
      ensures Reports(CancelNote(old(View()), n), old(View()), View(), r)
    {
      if n >= |notes| || notes[n].sale >= |sales| { return Failed(NotFound); }
      if notes[n].status != Pending { return Failed(NotPending); }
      var note := notes[n];
      MoveStock(note.lines, Out);
      notes := notes[n := note.(status := NoteCancelled)];
      var totalReturned := TotalReturned(note.sale);
      var status := Completed;
      if totalReturned > 0.0 {
        status := PartiallyRefunded;
      }
      sales := sales[note.sale := sales[note.sale].(status := status)];
      return Done;
    }

    // -------------------------------------------------------------- counter sales

    method SumPayments(payments: seq<Payment>, cashOnly: bool) returns (total: real)
      ensures total == if cashOnly then CashPaid(payments) else Paid(payments)
    {
      total := 0.0;
      for i := 0 to |payments|
        invariant total == if cashOnly then CashPaid(payments[..i]) else Paid(payments[..i])
      {
        assert payments[..i + 1][..i] == payments[..i];
        if !cashOnly || payments[i].via == Cash {
          total := total + payments[i].amount;
        }
      }
      assert payments[..|payments|] == payments;
    }

    /** Checks each item's stock in turn and accumulates the lines and the subtotal. */
    method PriceCart(cart: seq<CartItem>) returns (r: Result, lines: seq<Line>, subtotal: real)
      requires forall i :: 0 <= i < |cart| ==> cart[i].part in parts
      ensures r == match FirstShort(parts, Priced(parts, cart))
                   case Some(p) => Failed(InsufficientStock(p))
                   case None => Done
      ensures r == Done ==> lines == Priced(parts, cart) && subtotal == Amount(lines)
    {
      ghost var priced := Priced(parts, cart);
      lines, subtotal := [], 0.0;
      for i := 0 to |cart|
        invariant lines == priced[..i] && FirstShort(parts, lines) == None && subtotal == Amount(lines)
      {
        var part := parts[cart[i].part];
        assert priced[..i + 1][..i] == priced[..i];
        if part.stock < cart[i].qty {
          ShortageStays(parts, priced, i + 1);
          return Failed(InsufficientStock(cart[i].part)), lines, subtotal;
        }
        subtotal := subtotal + part.price * cart[i].qty as real;
        lines := lines + [Line(cart[i].part, cart[i].qty, part.price, 0.0)];
        assert lines == priced[..i + 1];
      }
      assert priced[..|cart|] == priced;
      return Done, lines, subtotal;
    }

    /** Resolves the cart against the parts table, then prices it. */
    method BuildValidatedSaleTotals(cart: seq<CartItem>, discount: real, taxRate: real)
      returns (r: Result, lines: seq<Line>, totals: Totals)
      ensures r == Failed(PartNotFound) <==> |FindParts(parts, CartIds(cart))| != |cart|
      ensures r != Failed(PartNotFound) ==>
        && (forall i :: 0 <= i < |cart| ==> cart[i].part in parts)
        && (r == match FirstShort(parts, Priced(parts, cart))
                 case Some(p) => Failed(InsufficientStock(p))
                 case None => Done)
      ensures r == Done ==>
        lines == Priced(parts, cart) && totals == SaleTotals(Amount(lines), discount, taxRate)
    {
      lines, totals := [], Totals(0.0, 0.0, 0.0, 0.0);
      if |FindParts(parts, CartIds(cart))| != |cart| {
        return Failed(PartNotFound), lines, totals;
      }
      CartFound(parts, cart);
      var subtotal;
      r, lines, subtotal := PriceCart(cart);
      var taxable := subtotal - discount;
      var taxAmount := taxable * taxRate / 100.0;
      totals := Totals(subtotal, discount, taxAmount, taxable + taxAmount);
    }

    /** Inserts the rows of a sale; false when a trigger raised, with no stock changed. */
    method InsertSaleLines(lines: seq<Line>) returns (inserted: bool)
      modifies this`parts
      ensures inserted <==> SellLines(old(parts), lines).Some?
      ensures parts == if inserted then SellLines(old(parts), lines).value else old(parts)
    {
      var saved := parts;
      for i := 0 to |lines|
        invariant SellLines(saved, lines[..i]) == Some(parts)
      {
        var line := lines[i];
        assert lines[..i + 1][..i] == lines[..i];
        if line.part in parts && parts[line.part].stock - line.qty < 0 {
          RaiseStays(saved, lines, i + 1);
          parts := saved;
          return false;
        }
        parts := AddStock(parts, line.part, -line.qty);
      }
      assert lines[..|lines|] == lines;
      return true;
    }

    method InsertCash(tx: CashTx)
      requires tx.register < |registers|
      modifies this`cash, this`registers
      ensures View() == PostCash(old(View()), tx)
    {
      var reg := registers[tx.register];
      cash := cash + [tx];
      registers := registers[tx.register := reg.(expected := reg.expected + SignedAmount(tx))];
    }

    method InsertPayments(s: nat, payments: seq<Payment>, open: Option<nat>)
      requires HasCash(payments) ==> open.Some? && open.value < |registers|
      modifies this`cash, this`registers
      ensures View() == if HasCash(payments) then PostPayments(old(View()), open.value, s, payments) else old(View())
    {
      ghost var before := View();
      for i := 0 to |payments|
        invariant |registers| == |before.registers|
        invariant View() == if HasCash(payments) then PostPayments(before, open.value, s, payments[..i]) else before
      {
        assert payments[..i + 1][..i] == payments[..i];
        if payments[i].via == Cash {
          InsertCash(CashTx(open.value, Income, payments[i].amount, SalePayment(s)));
        }
      }
      assert payments[..|payments|] == payments;
    }

    /** `open` is the database's answer to the search for an open register. */
    method CreatePOSSale(cart: seq<CartItem>, payments: seq<Payment>, discount: real, taxRate: real,
                         open: Option<nat>) returns (r: Result)
      requires FindsOpen(registers, open)
      modifies this
      ensures Reports(CreateSale(old(View()), cart, payments, discount, taxRate, open), old(View()), View(), r)
    {
      if !ValidSale(cart, payments, discount, taxRate) { return Failed(InvalidInput); }
      var lines, totals;
      r, lines, totals := BuildValidatedSaleTotals(cart, discount, taxRate);
      if r != Done { return; }
      var totalPayments := SumPayments(payments, false);
      if totalPayments < totals.total { return Failed(Underpaid); }
      var change := totalPayments - totals.total;
      if HasCash(payments) && open == None { return Failed(NoOpenRegister); }

      var s := |sales|;
      var inserted := InsertSaleLines(lines);
      if !inserted { return Failed(TriggerRaised); }
      sales := sales + [Sale(lines, payments, totals, taxRate, change, Completed, None)];
      InsertPayments(s, payments, open);
      return Done;
    }

    method VoidPOSSale(s: nat, open: Option<nat>) returns (r: Result)
      requires FindsOpen(registers, open)
      modifies this
      ensures Reports(VoidSale(old(View()), s, open), old(View()), View(), r)
    {
      if s >= |sales| { return Failed(NotFound); }
      if sales[s].status != Completed { return Failed(NotCompleted); }
      if HasNote(View(), s) { return Failed(HasCreditNotes); }
      var sale := sales[s];
      var hasCash := HasCash(sale.payments);
      if hasCash && open == None { return Failed(NoOpenRegister); }
      sales := sales[s := sale.(status := Voided)];
      MoveStock(sale.lines, In);
      if hasCash {
        var totalCashRefund := SumPayments(sale.payments, true);
        if totalCashRefund > 0.0 {
          InsertCash(CashTx(open.value, Expense, totalCashRefund, SaleVoid(s)));
        }
      }
      return Done;
    }

    // -------------------------------------------------------------- quotations

    method AddQuotation(lines: seq<Line>, globalDiscount: real, taxRate: real, validUntil: int) returns (r: Result)
      modifies this
      ensures Reports(CreateQuotation(old(View()), lines, globalDiscount, taxRate, validUntil), old(View()), View(), r)
    {
      if !ValidQuotation(lines, globalDiscount) { return Failed(InvalidInput); }
      if |FindParts(parts, PartIds(lines))| != |lines| { return Failed(PartNotFound); }
      var subtotal := 0.0;
      for i := 0 to |lines|
        invariant subtotal == DiscountedAmount(lines[..i])
      {
        assert lines[..i + 1][..i] == lines[..i];
        var itemSubtotal := lines[i].price * lines[i].qty as real;
        var itemDiscount := itemSubtotal * (lines[i].discount / 100.0);
        subtotal := subtotal + (itemSubtotal - itemDiscount);
      }
      assert lines[..|lines|] == lines;
      var totals := QuotationTotals(subtotal, globalDiscount, taxRate);
      quotations := quotations + [Some(Quotation(lines, totals, taxRate, validUntil, Draft))];
      return Done;
    }

    method ConvertQuotationToSale(q: nat, payments: seq<Payment>) returns (r: Result)
      modifies this
      ensures Reports(ConvertQuotation(old(View()), q, payments), old(View()), View(), r)
    {
      if !ValidConversion(payments) { return Failed(InvalidInput); }
      if q >= |quotations| || quotations[q] == None { return Failed(NotFound); }
      var quotation := quotations[q].value;
      if quotation.status != Accepted { return Failed(NotAccepted); }
      var lines := quotation.lines;
      for i := 0 to |lines|
        invariant FirstShort(parts, lines[..i]) == None
      {
        assert lines[..i + 1][..i] == lines[..i];
        if lines[i].part in parts && parts[lines[i].part].stock < lines[i].qty {
          ShortageStays(parts, lines, i + 1);
          return Failed(InsufficientStock(lines[i].part));
        }
      }
      assert lines[..|lines|] == lines;
      var totalPayments := SumPayments(payments, false);
      if Abs(totalPayments - quotation.totals.total) > 0.01 { return Failed(PaymentMismatch); }
      var inserted := InsertSaleLines(lines);
      if !inserted { return Failed(TriggerRaised); }
      sales := sales + [Sale(lines, payments, quotation.totals, quotation.taxRate, 0.0, Completed, Some(q))];
      quotations := quotations[q := Some(quotation.(status := Converted))];
      return Done;
    }

    method MarkExpiredQuotations(now: int) returns (r: Result)
      modifies this
      ensures Reports(ExpireQuotations(old(View()), now), old(View()), View(), r)
    {
      ghost var before := quotations;
      for i := 0 to |quotations|
        invariant |quotations| == |before|
        invariant forall j :: 0 <= j < i ==> quotations[j] == ExpireOne(before[j], now)
        invariant forall j :: i <= j < |before| ==> quotations[j] == before[j]
        invariant View() == old(View()).(quotations := quotations)
      {
        if quotations[i].Some? && Expires(quotations[i].value.status, quotations[i].value.validUntil, now) {
          quotations := quotations[i := Some(quotations[i].value.(status := Expired))];
        }
      }
      return Done;
    }

    // -------------------------------------------------------------- purchases

    method ReceivePurchaseOrder(o: nat) returns (r: Result)
      modifies this
      ensures Reports(ReceiveOrder(old(View()), o), old(View()), View(), r)
    {
      if o >= |orders| { return Failed(NotFound); }
      if orders[o].received { return Failed(NotPending); }
      var lines := orders[o].lines;
      for i := 0 to |lines|
        invariant View() == old(View()).(parts := ReceiveLines(old(parts), lines[..i]))
      {
        var line := lines[i];
        assert lines[..i + 1][..i] == lines[..i];
        if line.part in parts {
          var part := parts[line.part];
          parts := parts[line.part := part.(stock := part.stock + line.qty, cost := line.price)];
        }
      }
      assert lines[..|lines|] == lines;
      orders := orders[o := orders[o].(received := true)];
      return Done;
    }

    // -------------------------------------------------------------- parts used on tickets

    /** INSERT of a ticket part, with the triggers that follow it. */
    method InsertPartUsage(u: Usage)
      requires u.part in parts && parts[u.part].stock >= u.qty
      modifies this`parts, this`usages
      ensures Some(View()) == InsertUsage(old(View()), u)
    {
      if triggers.sync && u.approved {
        parts := AddStock(parts, u.part, -u.qty);
      }
      if triggers.legacy {
        parts := AddStock(parts, u.part, -u.qty);
      }
      usages := usages + [Some(u)];
    }

    /** Checks and inserts each part in turn; a failure rolls the transaction back. */
    method ConsumePartsAtomically(ticket: nat, items: seq<CartItem>, approved: bool) returns (r: Result)
      modifies this
      ensures Reports(ConsumeParts(old(View()), ticket, items, approved), old(View()), View(), r)
    {
      if !PositiveCart(items) { return Failed(InvalidInput); }
      ghost var before := View();
      var savedParts, savedUsages := parts, usages;
      for i := 0 to |items|
        invariant ConsumeItems(before, ticket, items[..i], approved) == Some(View())
      {
        var item := items[i];
        assert items[..i + 1][..i] == items[..i];
        if item.part !in parts || parts[item.part].stock < item.qty {
          ConsumeStops(before, ticket, items, approved, i + 1);
          parts, usages := savedParts, savedUsages;
          return Failed(TriggerRaised);
        }
        InsertPartUsage(Usage(ticket, item.part, item.qty, approved));
      }
      assert items[..|items|] == items;
      return Done;
    }

    method ApproveTicketParts(ticket: nat) returns (r: Result)
      modifies this
      ensures Reports(ApproveParts(old(View()), ticket), old(View()), View(), r)
    {
      if !HasPending(View(), ticket) { return Failed(NothingPending); }
      ghost var before := View();
      var savedParts, savedUsages := parts, usages;
      for i := 0 to |savedUsages|
        invariant |usages| == |savedUsages| && ApproveFirst(before, ticket, i) == Some(View())
      {
        if Selected(usages[i], ticket, true) {
          var u := usages[i].value;
          if triggers.sync {
            if u.part !in parts || parts[u.part].stock < u.qty {
              ApproveStops(before, ticket, i + 1, |before.usages|);
              parts, usages := savedParts, savedUsages;
              return Failed(TriggerRaised);
            }
            parts := AddStock(parts, u.part, -u.qty);
          }
          usages := usages[i := Some(u.(approved := true))];
        }
      }
      return Done;
    }

    /** Deletes ticket parts one by one, each giving its stock back. */
    method DeleteTicketParts(ticket: nat, pendingOnly: bool)
      modifies this
      ensures View() == DeleteFirst(old(View()), ticket, pendingOnly, |old(usages)|)
    {
      ghost var before := View();
      for i := 0 to |usages|
        invariant |usages| == |before.usages| && View() == DeleteFirst(before, ticket, pendingOnly, i)
      {
        if Selected(usages[i], ticket, pendingOnly) {
          var u := usages[i].value;
          if triggers.sync && u.approved {
            parts := AddStock(parts, u.part, u.qty);
          }
          if triggers.legacy {
            parts := AddStock(parts, u.part, u.qty);
          }
          usages := usages[i := None];
        }
      }
    }

    method RejectTicketParts(ticket: nat) returns (r: Result)
      modifies this
      ensures Reports(RejectParts(old(View()), ticket), old(View()), View(), r)
    {
      if !HasPending(View(), ticket) { return Failed(NothingPending); }
      DeleteTicketParts(ticket, true);
      cancelled := cancelled - {ticket};
      return Done;
    }

    method CancelTicket(ticket: nat) returns (r: Result)
      modifies this
      ensures Reports(CancelTicketParts(old(View()), ticket), old(View()), View(), r)
    {
      if ticket !in cancelled {
        DeleteTicketParts(ticket, false);
        cancelled := cancelled + {ticket};
      }
      return Done;
    }

    /** The cancel branch of the ticket actions: increments stock, row by row, and keeps the rows. */
    method CancelTicketByAction(ticket: nat) returns (r: Result)
      modifies this
      ensures Reports(CancelByAction(old(View()), ticket), old(View()), View(), r)
    {
      if ticket in cancelled { return Failed(AlreadyCancelled); }
      ghost var before := View();
      for i := 0 to |usages|
        invariant View() == before.(parts := GiveBackFirst(before, ticket, i))
      {
        if Selected(usages[i], ticket, false) {
          parts := AddStock(parts, usages[i].value.part, usages[i].value.qty);
        }
      }
      cancelled := cancelled + {ticket};
      return Done;
    }

    // -------------------------------------------------------------- cash registers

    method OpenCashRegister(name: string, opening: real) returns (r: Result)
      modifies this
      ensures Reports(OpenRegister(old(View()), name, opening), old(View()), View(), r)
    {
      if name == "" || opening < 0.0 { return Failed(InvalidInput); }
      for i := 0 to |registers|
        invariant forall j :: 0 <= j < i ==> !(registers[j].isOpen && registers[j].name == name)
      {
        if registers[i].isOpen && registers[i].name == name {
          return Failed(NameInUse);
        }
      }
      registers := registers + [Register(name, true, opening, 0.0, 0.0, 0.0)];
      return Done;
    }

    method CloseCashRegister(t: nat, counted: real) returns (r: Result)
      modifies this
      ensures Reports(CloseRegister(old(View()), t, counted), old(View()), View(), r)
    {
      if counted < 0.0 { return Failed(InvalidInput); }
      if t >= |registers| { return Failed(NotFound); }
      if !registers[t].isOpen { return Failed(RegisterClosed); }
      var income, out := 0.0, 0.0;
      for i := 0 to |cash|
        invariant income == SumReal(cash[..i], KindOf(t, Income)) && out == SumReal(cash[..i], OutOf(t))
      {
        assert cash[..i + 1][..i] == cash[..i];
        if cash[i].register == t {
          if cash[i].kind == Income {
            income := income + cash[i].amount;
          } else {
            out := out + cash[i].amount;
          }
        }
      }
      assert cash[..|cash|] == cash;
      var expected := registers[t].opening + income - out;
      registers := registers[t := registers[t].(
        isOpen := false, closing := counted, expected := expected, difference := counted - expected)];
      return Done;
    }
  }
}
