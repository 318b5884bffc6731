/** Sales, returns and quotations: exactly when each action is accepted, exactly what it leaves in
    stock, in cash and on record, and which undo which. */
module LedgerEffects {
  import opened Sums
  import opened Inventory
  import opened Ledger
  import opened LedgerStock
  import opened LedgerGuards
  import opened LedgerReturns
  import opened LedgerCash

  // ---------------------------------------------------------------- amounts

  /** An empty document is worth nothing, one line its price times its quantity, and two documents
      together what they are worth apart. */
  lemma {:induction false} AmountExactly(a: seq<Line>, b: seq<Line>, line: Line)
    ensures Amount([]) == 0.0 && Amount([line]) == line.price * line.qty as real
    ensures Amount(a + b) == Amount(a) + Amount(b)
  {
    assert [line][..0] == [];
    if b == [] {
      assert a + b == a;
    } else {
      var n := |b| - 1;
      assert (a + b)[..|a + b| - 1] == a + b[..n];
      AmountExactly(a, b[..n], line);
    }
  }

  lemma DiscountedLine(line: Line)
    ensures DiscountedAmount([line]) == line.price * line.qty as real * (1.0 - line.discount / 100.0)
  {
    assert [line][..0] == [] && DiscountedAmount([]) == 0.0;
    var gross := line.price * line.qty as real;
    assert gross - gross * (line.discount / 100.0) == gross * (1.0 - line.discount / 100.0);
  }

  /** The same with the percentage discount of each line taken off. */
  lemma {:induction false} DiscountedExactly(a: seq<Line>, b: seq<Line>, line: Line)
    ensures DiscountedAmount([]) == 0.0
    ensures DiscountedAmount([line]) == line.price * line.qty as real * (1.0 - line.discount / 100.0)
    ensures DiscountedAmount(a + b) == DiscountedAmount(a) + DiscountedAmount(b)
  {
    DiscountedLine(line);
    if b == [] {
      assert a + b == a;
    } else {
      var n := |b| - 1;
      assert (a + b)[..|a + b| - 1] == a + b[..n];
      DiscountedExactly(a, b[..n], line);
    }
  }

  /** Each payment counts once towards what is paid, and a cash payment towards the cash. */
  lemma PaidExactly(payments: seq<Payment>, more: Payment)
    ensures Paid([]) == 0.0 && Paid(payments + [more]) == Paid(payments) + more.amount
    ensures CashPaid([]) == 0.0
    ensures CashPaid(payments + [more]) == CashPaid(payments) + if more.via == Cash then more.amount else 0.0
  {
    SumRealAppend(payments, more, Amounts());
    SumRealAppend(payments, more, CashAmounts());
  }

  /** What a cart item costs at the part's price. */
  function CartWorth(parts: Parts): CartItem -> real
  {
    (item: CartItem) => if item.part in parts then parts[item.part].price * item.qty as real else 0.0
  }

  lemma {:induction false} PricedCart(parts: Parts, cart: seq<CartItem>, p: PartId)
    requires forall i :: 0 <= i < |cart| ==> cart[i].part in parts
    ensures Amount(Priced(parts, cart)) == SumReal(cart, CartWorth(parts))
    ensures Qty(Priced(parts, cart), p) == CartQty(cart, p)
  {
    if cart == [] {
    } else {
      var n := |cart| - 1;
      PricedCart(parts, cart[..n], p);
      assert Priced(parts, cart)[..n] == Priced(parts, cart[..n]);
    }
  }

  lemma TaxedTotal(subtotal: real, discount: real, taxRate: real)
    ensures SaleTotals(subtotal, discount, taxRate).total == (subtotal - discount) * (1.0 + taxRate / 100.0)
    ensures NoteTotal(subtotal, taxRate) == subtotal * (1.0 + taxRate / 100.0)
  {
    var taxable, rate := subtotal - discount, taxRate / 100.0;
    assert taxable * taxRate / 100.0 == taxable * rate;
    assert taxable * (1.0 + rate) == taxable + taxable * rate;
    assert subtotal * (1.0 + rate) == subtotal + subtotal * rate;
  }

  // ---------------------------------------------------------------- what an action leaves alone

  /** Everything but stock, sales, credit notes, registers and cash is as before. */
  predicate TradeOnly(d: Db, now: Db)
  {
    now == d.(parts := now.parts, sales := now.sales, notes := now.notes, registers := now.registers, cash := now.cash)
  }

  /** Only the balances of registers differ. */
  predicate SameDrawers(d: Db, now: Db)
  {
    && |now.registers| == |d.registers|
    && forall r :: 0 <= r < |d.registers| ==> now.registers[r] == d.registers[r].(expected := now.registers[r].expected)
  }

  lemma {:induction false} PaymentsPosted(d: Db, register: nat, s: nat, payments: seq<Payment>, r: nat)
    requires register < |d.registers|
    ensures
      var now := PostPayments(d, register, s, payments);
      && SameDrawers(d, now)
      && SumReal(now.cash, InRegister(r)) ==
         SumReal(d.cash, InRegister(r)) + if r == register then CashPaid(payments) else 0.0
  {
    if payments == [] {
    } else {
      var init, last := payments[..|payments| - 1], payments[|payments| - 1];
      PaymentsPosted(d, register, s, init, r);
      if last.via == Cash {
        var tx := CashTx(register, Income, last.amount, SalePayment(s));
        SumRealAppend(PostPayments(d, register, s, init).cash, tx, InRegister(r));
      }
    }
  }

  // ---------------------------------------------------------------- counter sales

  lemma SaleRows(d: Db, cart: seq<CartItem>, payments: seq<Payment>, discount: real, taxRate: real,
                 open: Option<nat>)
    requires CreateSale(d, cart, payments, discount, taxRate, open).Ok?
    ensures forall i :: 0 <= i < |cart| ==> cart[i].part in d.parts
    ensures
      var now := CreateSale(d, cart, payments, discount, taxRate, open).db;
      var lines := Priced(d.parts, cart);
      var totals := SaleTotals(Amount(lines), discount, taxRate);
      var sale := Sale(lines, payments, totals, taxRate, Paid(payments) - totals.total, Completed, None);
      && Paid(payments) >= totals.total && SellLines(d.parts, lines) == Some(now.parts)
      && now.sales == d.sales + [sale]
      && now == (if HasCash(payments)
                 then PostPayments(d.(parts := now.parts, sales := now.sales), open.value, |d.sales|, payments)
                 else d.(parts := now.parts, sales := now.sales))
  {
    CartFound(d.parts, cart);
  }

  /** The row of an accepted counter sale: each cart item at the part's price, the subtotal the sum over
      the cart of price times quantity, discount and tax on it, the payments given and the change. */
  lemma SaleRecorded(d: Db, cart: seq<CartItem>, payments: seq<Payment>, discount: real, taxRate: real,
                     open: Option<nat>)
    requires CreateSale(d, cart, payments, discount, taxRate, open).Ok?
    ensures
      var now := CreateSale(d, cart, payments, discount, taxRate, open).db;
      |now.sales| == |d.sales| + 1 && now.sales[..|d.sales|] == d.sales
    ensures
      var sale := CreateSale(d, cart, payments, discount, taxRate, open).db.sales[|d.sales|];
      && |sale.lines| == |cart|
      && forall i :: 0 <= i < |cart| ==>
          && cart[i].part in d.parts
          && sale.lines[i] == Line(cart[i].part, cart[i].qty, d.parts[cart[i].part].price, 0.0)
    ensures
      var sale := CreateSale(d, cart, payments, discount, taxRate, open).db.sales[|d.sales|];
      && sale.totals.subtotal == SumReal(cart, CartWorth(d.parts))
      && sale.totals.discount == discount && sale.taxRate == taxRate
      && sale.totals.total == (sale.totals.subtotal - discount) * (1.0 + taxRate / 100.0)
      && sale.totals.tax == sale.totals.total - (sale.totals.subtotal - discount)
      && sale.payments == payments && sale.change == Paid(payments) - sale.totals.total >= 0.0
      && sale.status == Completed && sale.quotation == None
  {
    SaleRows(d, cart, payments, discount, taxRate, open);
    PricedCart(d.parts, cart, "");
    TaxedTotal(Amount(Priced(d.parts, cart)), discount, taxRate);
  }

  /** An accepted counter sale takes exactly its cart out of stock and puts exactly its cash payments
      into the register found, and touches nothing else. */
  lemma SaleMoves(d: Db, cart: seq<CartItem>, payments: seq<Payment>, discount: real, taxRate: real,
                  open: Option<nat>)
    requires CreateSale(d, cart, payments, discount, taxRate, open).Ok?
    ensures
      var now := CreateSale(d, cart, payments, discount, taxRate, open).db;
      && now.parts.Keys == d.parts.Keys
      && forall p :: p in d.parts ==> now.parts[p] == d.parts[p].(stock := d.parts[p].stock - CartQty(cart, p))
    ensures
      var now := CreateSale(d, cart, payments, discount, taxRate, open).db;
      && TradeOnly(d, now) && now.notes == d.notes && SameDrawers(d, now)
      && forall r: nat :: SumReal(now.cash, InRegister(r)) ==
          SumReal(d.cash, InRegister(r)) + if open == Some(r) then CashPaid(payments) else 0.0
  {
    SaleRows(d, cart, payments, discount, taxRate, open);
    var lines := Priced(d.parts, cart);
    SellLinesMoves(d.parts, lines);
    MoveLinesEffect(d.parts, lines, Out);
    forall p | p in d.parts
      ensures Qty(lines, p) == CartQty(cart, p)
    {
      PricedCart(d.parts, cart, p);
    }
    SaleCash(d, cart, payments, discount, taxRate, open);
  }

  lemma SaleCash(d: Db, cart: seq<CartItem>, payments: seq<Payment>, discount: real, taxRate: real,
                 open: Option<nat>)
    requires CreateSale(d, cart, payments, discount, taxRate, open).Ok?
    ensures
      var now := CreateSale(d, cart, payments, discount, taxRate, open).db;
      && TradeOnly(d, now) && now.notes == d.notes && SameDrawers(d, now)
      && forall r: nat :: SumReal(now.cash, InRegister(r)) ==
          SumReal(d.cash, InRegister(r)) + if open == Some(r) then CashPaid(payments) else 0.0
  {
    var now := CreateSale(d, cart, payments, discount, taxRate, open).db;
    SaleRows(d, cart, payments, discount, taxRate, open);
    var sold := d.(parts := now.parts, sales := now.sales);
    if HasCash(payments) {
      forall r: nat
        ensures SameDrawers(sold, now)
        ensures SumReal(now.cash, InRegister(r)) ==
          SumReal(d.cash, InRegister(r)) + if open == Some(r) then CashPaid(payments) else 0.0
      {
        PaymentsPosted(sold, open.value, |d.sales|, payments, r);
      }
      PaymentsPosted(sold, open.value, |d.sales|, payments, 0);
    } else {
      NoCashNoAmount(payments);
    }
  }

  /** A void is accepted exactly for a completed sale without notes whose cash, if any, finds an open
      register. It sets that one sale VOIDED, puts exactly its lines back into stock and takes exactly
      its cash payments out of the register found. */
  lemma VoidExactly(d: Db, s: nat, open: Option<nat>)
    requires Consistent(d) && Booked(d)
    ensures VoidSale(d, s, open).Ok? <==>
      && FindsOpen(d.registers, open) && s < |d.sales| && d.sales[s].status == Completed
      && (forall n :: 0 <= n < |d.notes| ==> d.notes[n].sale != s)
      && ((forall r :: 0 <= r < |d.registers| ==> !d.registers[r].isOpen) ==>
          forall i :: 0 <= i < |d.sales[s].payments| ==> d.sales[s].payments[i].via != Cash)
    ensures VoidSale(d, s, open).Ok? ==>
      var now, sale := VoidSale(d, s, open).db, d.sales[s];
      && now.sales == d.sales[s := sale.(status := Voided)] && now.notes == d.notes
      && TradeOnly(d, now) && SameDrawers(d, now) && now.parts.Keys == d.parts.Keys
      && forall p :: p in d.parts ==> now.parts[p] == d.parts[p].(stock := d.parts[p].stock + Qty(sale.lines, p))
    ensures VoidSale(d, s, open).Ok? ==>
      var now, refund := VoidSale(d, s, open).db, CashPaid(d.sales[s].payments);
      && SumReal(now.cash, OfSale(s)) == SumReal(d.cash, OfSale(s)) - refund
      && forall r: nat :: SumReal(now.cash, InRegister(r)) ==
          SumReal(d.cash, InRegister(r)) - if open == Some(r) then refund else 0.0
  {
    if VoidSale(d, s, open).Ok? {
      MoveLinesEffect(d.parts, d.sales[s].lines, In);
      VoidCash(d, s, open);
    }
  }

  lemma VoidCash(d: Db, s: nat, open: Option<nat>)
    requires Booked(d) && VoidSale(d, s, open).Ok?
    ensures
      var now, refund := VoidSale(d, s, open).db, CashPaid(d.sales[s].payments);
      && SumReal(now.cash, OfSale(s)) == SumReal(d.cash, OfSale(s)) - refund
      && forall r: nat :: SumReal(now.cash, InRegister(r)) ==
          SumReal(d.cash, InRegister(r)) - if open == Some(r) then refund else 0.0
  {
    var now, sale := VoidSale(d, s, open).db, d.sales[s];
    assert SaleBooked(d, s);
    SumRealNonNegative(sale.payments, CashAmounts());
    if !HasCash(sale.payments) {
      NoCashNoAmount(sale.payments);
    } else if CashPaid(sale.payments) > 0.0 {
      var tx := CashTx(open.value, Expense, CashPaid(sale.payments), SaleVoid(s));
      SumRealAppend(d.cash, tx, OfSale(s));
      forall r: nat
        ensures SumReal(now.cash, InRegister(r)) == SumReal(d.cash, InRegister(r)) + InRegister(r)(tx)
      {
        SumRealAppend(d.cash, tx, InRegister(r));
      }
    }
  }

  /** Voiding a new sale at once is always accepted and undoes it: stock is as before, and so is the cash
      of every register. */
  lemma VoidUndoesSale(d: Db, cart: seq<CartItem>, payments: seq<Payment>, discount: real, taxRate: real,
                       open: Option<nat>)
    requires Consistent(d) && Booked(d) && CreateSale(d, cart, payments, discount, taxRate, open).Ok?
    ensures
      var sold := CreateSale(d, cart, payments, discount, taxRate, open).db;
      var back := VoidSale(sold, |d.sales|, open);
      && back.Ok? && back.db.parts == d.parts
      && (forall r: nat :: SumReal(back.db.cash, InRegister(r)) == SumReal(d.cash, InRegister(r)))
  {
    var sold, s := CreateSale(d, cart, payments, discount, taxRate, open).db, |d.sales|;
    SaleRows(d, cart, payments, discount, taxRate, open);
    SaleMoves(d, cart, payments, discount, taxRate, open);
    NewSaleVoidable(d, cart, payments, discount, taxRate, open);
    CreateSaleConsistent(d, cart, payments, discount, taxRate, open);
    CreateSaleBooked(d, cart, payments, discount, taxRate, open);
    VoidExactly(sold, s, open);
    var back := VoidSale(sold, s, open).db;
    forall p | p in d.parts
      ensures back.parts[p] == d.parts[p]
    {
      PricedCart(d.parts, cart, p);
    }
  }

  lemma NewSaleVoidable(d: Db, cart: seq<CartItem>, payments: seq<Payment>, discount: real, taxRate: real,
                        open: Option<nat>)
    requires Consistent(d) && CreateSale(d, cart, payments, discount, taxRate, open).Ok?
    ensures VoidSale(CreateSale(d, cart, payments, discount, taxRate, open).db, |d.sales|, open).Ok?
  {
    var sold := CreateSale(d, cart, payments, discount, taxRate, open).db;
    SaleRows(d, cart, payments, discount, taxRate, open);
    SaleCash(d, cart, payments, discount, taxRate, open);
    assert forall n :: 0 <= n < |d.notes| ==> NoteConsistent(d, d.notes[n]);
    assert FindsOpen(sold.registers, open);
  }

  // ---------------------------------------------------------------- returns

  lemma {:induction false} ReturnedNonNegative(d: Db, notes: seq<Note>, s: nat, p: PartId)
    requires forall i :: 0 <= i < |notes| ==> NoteConsistent(d, notes[i])
    ensures SumInt(notes, ReturnedOf(s, p)) >= 0
  {
    if notes == [] {
    } else {
      var n := |notes| - 1;
      ReturnedNonNegative(d, notes[..n], s, p);
      assert NoteConsistent(d, notes[n]);
      QtyNonNegative(notes[n].lines, p);
    }
  }

  lemma LineAvailable(d: Db, s: nat, line: Line)
    requires Consistent(d) && s < |d.sales| && line.qty >= 1
    ensures
      var found := FindLine(d.sales[s].lines, line.part);
      found.Some? && line.qty <= d.sales[s].lines[found.value].qty - Returned(d, s, line.part) <==>
        line.qty <= Qty(d.sales[s].lines, line.part) - Returned(d, s, line.part)
  {
    var sold := d.sales[s].lines;
    var found := FindLine(sold, line.part);
    assert SaleConsistent(d.parts, d.sales[s]);
    if found.Some? {
      QtyOfDistinct(sold, found.value);
    } else {
      QtyOfAbsent(sold, line.part);
      ReturnedNonNegative(d, d.notes, s, line.part);
    }
  }

  lemma {:induction false} LinesAvailable(d: Db, s: nat, lines: seq<Line>)
    requires Consistent(d) && s < |d.sales| && Positive(lines)
    ensures ReturnError(d, s, lines) == None <==> forall i :: 0 <= i < |lines| ==>
      lines[i].qty <= Qty(d.sales[s].lines, lines[i].part) - Returned(d, s, lines[i].part)
  {
    if lines == [] {
    } else {
      var n := |lines| - 1;
      LinesAvailable(d, s, lines[..n]);
      assert forall i :: 0 <= i < n ==> lines[..n][i] == lines[i];
      LineAvailable(d, s, lines[n]);
    }
  }

  /** A return is accepted exactly when it names something, in positive quantities at prices of zero or
      more, of a sale that is not voided, and no line asks for more than was sold of its part and not
      yet returned. */
  lemma ReturnAccepted(d: Db, s: nat, lines: seq<Line>)
    requires Consistent(d)
    ensures CreateNote(d, s, lines).Ok? <==>
      && lines != [] && (forall i :: 0 <= i < |lines| ==> lines[i].qty >= 1 && lines[i].price >= 0.0)
      && s < |d.sales| && d.sales[s].status != Voided
      && forall i :: 0 <= i < |lines| ==>
          lines[i].qty <= Qty(d.sales[s].lines, lines[i].part) - Returned(d, s, lines[i].part)
  {
    if s < |d.sales| && Positive(lines) {
      LinesAvailable(d, s, lines);
    }
  }

  /** The return screen says what can be returned: of the part in a row exactly the quantities up to the
      available one; and what is returned and what is available make up what was sold. */
  lemma ScreenExactly(d: Db, s: nat, i: nat, qty: int, price: real)
    requires Consistent(d) && s < |d.sales| && d.sales[s].status != Voided && i < |d.sales[s].lines|
    requires qty >= 1 && price >= 0.0
    ensures
      var row, sold := ReturnScreen(d, s)[i], d.sales[s].lines[i];
      && row.part == sold.part && row.returned + row.available == sold.qty
      && (CreateNote(d, s, [Line(sold.part, qty, price, 0.0)]).Ok? <==> qty <= row.available)
  {
    assert SaleConsistent(d.parts, d.sales[s]);
    QtyOfDistinct(d.sales[s].lines, i);
    ReturnAccepted(d, s, [Line(d.sales[s].lines[i].part, qty, price, 0.0)]);
  }

  /** An accepted return moves its quantity of each part from what is available to what is returned; on a
      sale without notes nothing is returned. */
  lemma ScreenMoves(d: Db, s: nat, lines: seq<Line>, i: nat)
    requires CreateNote(d, s, lines).Ok? && i < |d.sales[s].lines|
    ensures
      var before, now := ReturnScreen(d, s), ReturnScreen(CreateNote(d, s, lines).db, s);
      var qty := Qty(lines, d.sales[s].lines[i].part);
      && |now| == |before|
      && now[i] == before[i].(returned := before[i].returned + qty, available := before[i].available - qty)
    ensures !HasNote(d, s) ==> ReturnScreen(d, s)[i].returned == 0
  {
    CreateNoteRows(d, s, lines);
    CreateNoteReturned(d, s, lines, s, d.sales[s].lines[i].part);
    if !HasNote(d, s) {
      NothingReturned(d.notes, s, d.sales[s].lines[i].part);
    }
  }

  /** An accepted return adds one pending note of the lines as asked, for their amount with the sale's
      tax, puts exactly the lines back into stock, and changes nothing else but the sale's status. */
  lemma ReturnRecorded(d: Db, s: nat, lines: seq<Line>)
    requires CreateNote(d, s, lines).Ok?
    ensures
      var now := CreateNote(d, s, lines).db;
      && now.notes == d.notes + [Note(s, lines, Amount(lines) * (1.0 + d.sales[s].taxRate / 100.0), Pending)]
      && now == d.(parts := now.parts, notes := now.notes, sales := now.sales)
      && now.sales == d.sales[s := d.sales[s].(status := now.sales[s].status)]
    ensures
      var now := CreateNote(d, s, lines).db;
      && now.parts.Keys == d.parts.Keys
      && forall p :: p in d.parts ==> now.parts[p] == d.parts[p].(stock := d.parts[p].stock + Qty(lines, p))
  {
    CreateNoteRows(d, s, lines);
    NoteRow(d, s, lines);
    TaxedTotal(Amount(lines), 0.0, d.sales[s].taxRate);
    MoveLinesEffect(d.parts, lines, In);
  }

  lemma NoteRow(d: Db, s: nat, lines: seq<Line>)
    requires CreateNote(d, s, lines).Ok?
    ensures CreateNote(d, s, lines).db.notes ==
      d.notes + [Note(s, lines, NoteTotal(Amount(lines), d.sales[s].taxRate), Pending)]
  {
  }

  /** A cancellation is accepted exactly for a pending note. It marks that one note CANCELLED, takes
      exactly its lines out of stock again, and leaves the sale PARTIALLY_REFUNDED if the other notes
      refund something and COMPLETED otherwise. */
  lemma CancellationExactly(d: Db, n: nat)
    requires Consistent(d)
    ensures CancelNote(d, n).Ok? <==> n < |d.notes| && d.notes[n].status == Pending
    ensures CancelNote(d, n).Ok? ==>
      var now, note := CancelNote(d, n).db, d.notes[n];
      && now == d.(parts := now.parts, notes := d.notes[n := note.(status := NoteCancelled)], sales := now.sales)
      && now.parts.Keys == d.parts.Keys
      && forall p :: p in d.parts ==> now.parts[p] == d.parts[p].(stock := d.parts[p].stock - Qty(note.lines, p))
    ensures CancelNote(d, n).Ok? ==>
      var now, s := CancelNote(d, n).db, d.notes[n].sale;
      && s < |d.sales| && now.sales == d.sales[s := d.sales[s].(status := now.sales[s].status)]
      && now.sales[s].status ==
         if Refunded(d, s) - d.notes[n].total > 0.0 then PartiallyRefunded else Completed
  {
    if n < |d.notes| {
      assert NoteConsistent(d, d.notes[n]);
      MoveLinesEffect(d.parts, d.notes[n].lines, Out);
    }
    if CancelNote(d, n).Ok? {
      CancelNoteRefunds(d, n, d.notes[n].sale);
      CancelledStatus(d, n);
    }
  }

  lemma CancelledStatus(d: Db, n: nat)
    requires CancelNote(d, n).Ok?
    ensures
      var now, s := CancelNote(d, n).db, d.notes[n].sale;
      now.sales[s].status == if Refunded(now, s) > 0.0 then PartiallyRefunded else Completed
  {
    var now, s := CancelNote(d, n).db, d.notes[n].sale;
    assert Refunded(now, s) == Refunded(d.(parts := now.parts, notes := now.notes), s);
  }

  /** Cancelling a new note at once is always accepted and undoes it: stock, returned quantities and
      refunded sums of every sale are as before. */
  lemma CancellationUndoesReturn(d: Db, s: nat, lines: seq<Line>)
    requires Consistent(d) && CreateNote(d, s, lines).Ok?
    ensures
      var back := CancelNote(CreateNote(d, s, lines).db, |d.notes|);
      && back.Ok? && back.db.parts == d.parts
      && (forall t: nat, p :: Returned(back.db, t, p) == Returned(d, t, p))
      && (forall t: nat :: Refunded(back.db, t) == Refunded(d, t))
  {
    var noted, n := CreateNote(d, s, lines).db, |d.notes|;
    ReturnRecorded(d, s, lines);
    CreateNoteConsistent(d, s, lines);
    CancellationExactly(noted, n);
    var back := CancelNote(noted, n).db;
    forall t: nat, p
      ensures Returned(back, t, p) == Returned(d, t, p)
    {
      CreateNoteReturned(d, s, lines, t, p);
      SumIntUpdate(noted.notes, n, back.notes[n], ReturnedOf(t, p));
    }
    forall t: nat
      ensures Refunded(back, t) == Refunded(d, t)
    {
      CreateNoteRefunds(d, s, lines, t);
      CancelNoteRefunds(noted, n, t);
    }
  }

  /** A refund is processed exactly when its note is pending; nothing but that note changes, and in
      every later state it is PROCESSED and can be neither cancelled nor processed again. */
  lemma RefundProcessed(d: Db, n: nat, later: seq<Action>)
    requires Consistent(d)
    ensures ProcessRefund(d, n).Ok? <==> n < |d.notes| && d.notes[n].status == Pending
    ensures ProcessRefund(d, n).Ok? ==>
      var processed := ProcessRefund(d, n).db;
      processed == d.(notes := processed.notes) && |processed.notes| == |d.notes|
      && forall m :: 0 <= m < |d.notes| && m != n ==> processed.notes[m] == d.notes[m]
    ensures ProcessRefund(d, n).Ok? ==>
      var now := Run(ProcessRefund(d, n).db, later);
      && n < |now.notes| && now.notes[n] == d.notes[n].(status := Processed)
      && CancelNote(now, n).Fail? && ProcessRefund(now, n).Fail?
  {
    if ProcessRefund(d, n).Ok? {
      var processed := ProcessRefund(d, n).db;
      StepConsistent(d, DoProcessRefund(n));
      assert later[..0] == [];
      ProcessedForGood(processed, later, 0, n);
    }
  }

  // ---------------------------------------------------------------- quotations

  lemma TotalsOfQuotation(subtotal: real, globalDiscount: real, taxRate: real)
    ensures
      var totals := QuotationTotals(subtotal, globalDiscount, taxRate);
      && totals.subtotal == subtotal && totals.discount == subtotal * (globalDiscount / 100.0)
      && totals.total == subtotal * (1.0 - globalDiscount / 100.0) * (1.0 + taxRate / 100.0)
      && totals.tax == totals.total - (subtotal - totals.discount)
  {
    var off, rate := globalDiscount / 100.0, taxRate / 100.0;
    var taxable := subtotal - subtotal * off;
    assert taxable == subtotal * (1.0 - off);
    assert taxable + taxable * rate == taxable * (1.0 + rate);
  }

  /** A quotation is created exactly from lines of distinct existing parts, in positive quantities and
      with prices and percentages within their bounds. It is a new draft of these lines whose total is
      what they come to after both discounts and tax, and changes nothing else. */
  lemma QuotationCreated(d: Db, lines: seq<Line>, globalDiscount: real, taxRate: real, validUntil: int)
    ensures CreateQuotation(d, lines, globalDiscount, taxRate, validUntil).Ok? <==>
      && lines != [] && 0.0 <= globalDiscount <= 100.0 && Distinct(lines)
      && forall i :: 0 <= i < |lines| ==>
          && lines[i].part in d.parts && lines[i].qty >= 1 && lines[i].price >= 0.0
          && 0.0 <= lines[i].discount <= 100.0
    ensures CreateQuotation(d, lines, globalDiscount, taxRate, validUntil).Ok? ==>
      var now := CreateQuotation(d, lines, globalDiscount, taxRate, validUntil).db;
      var q := |d.quotations|;
      && now == d.(quotations := now.quotations) && |now.quotations| == q + 1 && now.quotations[..q] == d.quotations
      && now.quotations[q].Some?
      && var quotation := now.quotations[q].value;
      && quotation.lines == lines && quotation.taxRate == taxRate && quotation.validUntil == validUntil
      && quotation.status == Draft && quotation.totals.subtotal == DiscountedAmount(lines)
      && quotation.totals.discount == DiscountedAmount(lines) * (globalDiscount / 100.0)
      && quotation.totals.total ==
         DiscountedAmount(lines) * (1.0 - globalDiscount / 100.0) * (1.0 + taxRate / 100.0)
      && quotation.totals.tax == quotation.totals.total - (DiscountedAmount(lines) - quotation.totals.discount)
  {
    PartsFound(d.parts, lines);
    TotalsOfQuotation(DiscountedAmount(lines), globalDiscount, taxRate);
  }

  /** The transition table read backwards: from where each status is entered. */
  lemma StatusEnteredFrom(before: QuotationStatus, next: QuotationStatus)
    ensures Allowed(before, next) <==>
      match next
      case Draft => false
      case Sent => before == Draft
      case Accepted => before == Sent
      case Rejected => before == Sent
      case Expired => before == Sent
      case Converted => before == Accepted
      case Cancelled => before in {Draft, Sent, Accepted}
  {
  }

  /** A status is set exactly along the table, and nothing else changes. */
  lemma StatusSet(d: Db, q: nat, status: QuotationStatus)
    ensures SetQuotationStatus(d, q, status).Ok? <==>
      q < |d.quotations| && d.quotations[q].Some? && Allowed(d.quotations[q].value.status, status)
    ensures SetQuotationStatus(d, q, status).Ok? ==>
      var now := SetQuotationStatus(d, q, status).db;
      && now == d.(quotations := now.quotations) && |now.quotations| == |d.quotations|
      && now.quotations[q] == Some(d.quotations[q].value.(status := status))
      && forall k :: 0 <= k < |d.quotations| && k != q ==> now.quotations[k] == d.quotations[k]
  {
  }

  /** A conversion is accepted exactly for an accepted quotation whose lines are all in stock, with
      payments of zero or more that come to its total to within a cent. */
  lemma ConversionAccepted(d: Db, q: nat, payments: seq<Payment>)
    requires Consistent(d)
    ensures ConvertQuotation(d, q, payments).Ok? <==>
      && payments != [] && (forall i :: 0 <= i < |payments| ==> payments[i].amount >= 0.0)
      && q < |d.quotations| && d.quotations[q].Some? && d.quotations[q].value.status == Accepted
      && (forall i :: 0 <= i < |d.quotations[q].value.lines| ==>
          d.quotations[q].value.lines[i].qty <= d.parts[d.quotations[q].value.lines[i].part].stock)
      && -0.01 <= Paid(payments) - d.quotations[q].value.totals.total <= 0.01
  {
    if QuotationExists(d, q) {
      var lines := d.quotations[q].value.lines;
      assert QuotationConsistent(d.parts, d.quotations[q]);
      NoneShort(d.parts, lines);
      CheckedLinesSell(d.parts, lines);
    }
  }

  /** An accepted conversion sells exactly the quotation: one new sale of its lines, totals and rate with
      the payments given, its lines out of stock, the quotation CONVERTED, and no cash moved. */
  lemma ConversionRecorded(d: Db, q: nat, payments: seq<Payment>)
    requires ConvertQuotation(d, q, payments).Ok?
    ensures
      var now, quotation := ConvertQuotation(d, q, payments).db, d.quotations[q].value;
      && now == d.(parts := now.parts, sales := now.sales, quotations := now.quotations)
      && now.sales == d.sales +
         [Sale(quotation.lines, payments, quotation.totals, quotation.taxRate, 0.0, Completed, Some(q))]
      && now.quotations == d.quotations[q := Some(quotation.(status := Converted))]
    ensures
      var now, lines := ConvertQuotation(d, q, payments).db, d.quotations[q].value.lines;
      && now.parts.Keys == d.parts.Keys
      && forall p :: p in d.parts ==> now.parts[p] == d.parts[p].(stock := d.parts[p].stock - Qty(lines, p))
  {
    var lines := d.quotations[q].value.lines;
    SellLinesMoves(d.parts, lines);
    MoveLinesEffect(d.parts, lines, Out);
  }

  /** Exactly the drafts and sent quotations past their date expire, keeping their contents; and a
      second run at that time or an earlier one finds nothing left to do. */
  lemma ExpiryExactly(d: Db, now: int, other: int)
    requires other <= now
    ensures ExpireQuotations(d, now).Ok?
    ensures
      var after := ExpireQuotations(d, now).db;
      && after == d.(quotations := after.quotations) && |after.quotations| == |d.quotations|
      && (forall q :: 0 <= q < |d.quotations| ==>
          match d.quotations[q]
          case None => after.quotations[q] == None
          case Some(quotation) =>
            after.quotations[q] == Some(quotation.(status :=
              if (quotation.status == Draft || quotation.status == Sent) && quotation.validUntil < now
              then Expired else quotation.status)))
    ensures ExpireQuotations(ExpireQuotations(d, now).db, other) == ExpireQuotations(d, now)
  {
    var after := ExpireQuotations(d, now).db;
    assert ExpireQuotations(after, other).db.quotations == after.quotations;
  }
}
