/** The cash registers: both balance formulas, what closing freezes, and the cash of each sale. */
module LedgerCash {
  import opened Sums
  import opened Inventory
  import opened Ledger
  import opened LedgerStock

  function InRegister(r: nat): CashTx -> real
  {
    (tx: CashTx) => if tx.register == r then SignedAmount(tx) else 0.0
  }

  /** The automatic movements of sale `s`: its cash payments and its void. */
  function OfSale(s: nat): CashTx -> real
  {
    (tx: CashTx) => if tx.reference == SalePayment(s) || tx.reference == SaleVoid(s) then SignedAmount(tx) else 0.0
  }

  // ---------------------------------------------------------------- the two balance formulas

  datatype Stats = Stats(
    income: real, expenses: real, withdrawals: real, current: real, expected: real, difference: real)

  /** The statistics of a register: three separate totals, live while open, stored once closed. */
  function RegisterStats(d: Db, r: nat): Stats
    requires r < |d.registers|
  {
    var reg := d.registers[r];
    var income := SumReal(d.cash, KindOf(r, Income));
    var expenses := SumReal(d.cash, KindOf(r, Expense));
    var withdrawals := SumReal(d.cash, KindOf(r, Withdrawal));
    var live := reg.opening + income - expenses - withdrawals;
    Stats(income, expenses, withdrawals,
          if reg.isOpen then live else reg.closing,
          if reg.isOpen then live else reg.expected,
          if reg.isOpen then 0.0 else reg.difference)
  }

  lemma {:induction false} SplitByKind(cash: seq<CashTx>, r: nat)
    ensures SumReal(cash, OutOf(r)) == SumReal(cash, KindOf(r, Expense)) + SumReal(cash, KindOf(r, Withdrawal))
    ensures SumReal(cash, InRegister(r)) == SumReal(cash, KindOf(r, Income)) - SumReal(cash, OutOf(r))
  {
    if cash == [] {
    } else {
      SplitByKind(cash[..|cash| - 1], r);
    }
  }

  // ---------------------------------------------------------------- the books

  /** While open, the trigger keeps the stored balance at the signed sum of the movements;
      closing overwrites it with opening + that sum. */
  predicate RegisterBalanced(d: Db, r: nat)
    requires r < |d.registers|
  {
    var reg := d.registers[r];
    var total := SumReal(d.cash, InRegister(r));
    if reg.isOpen then reg.expected == total
    else reg.expected == reg.opening + total && reg.difference == reg.closing - reg.expected
  }

  predicate RegistersBalanced(d: Db)
  {
    forall r: nat :: r < |d.registers| ==> RegisterBalanced(d, r)
  }

  function SaleCash(sale: Sale): real
  {
    (if sale.quotation == None then CashPaid(sale.payments) else 0.0)
    - (if sale.status == Voided then CashPaid(sale.payments) else 0.0)
  }

  predicate SaleBooked(d: Db, s: nat)
    requires s < |d.sales|
  {
    && ValidConversion(d.sales[s].payments)
    && SumReal(d.cash, OfSale(s)) == SaleCash(d.sales[s])
  }

  predicate ReferencesKnown(d: Db)
  {
    forall i :: 0 <= i < |d.cash| ==>
      match d.cash[i].reference
      case SalePayment(s) => s < |d.sales|
      case SaleVoid(s) => s < |d.sales|
      case _ => true
  }

  predicate Booked(d: Db)
  {
    ReferencesKnown(d) && RegistersBalanced(d) && forall s: nat :: s < |d.sales| ==> SaleBooked(d, s)
  }

  lemma PostCashEffect(d: Db, tx: CashTx)
    requires tx.register < |d.registers| && d.registers[tx.register].isOpen && RegistersBalanced(d)
    ensures RegistersBalanced(PostCash(d, tx))
    ensures forall r: nat :: r < |d.registers| ==>
      PostCash(d, tx).registers[r] == d.registers[r].(expected := PostCash(d, tx).registers[r].expected)
    ensures forall s: nat :: SumReal(PostCash(d, tx).cash, OfSale(s)) == SumReal(d.cash, OfSale(s)) + OfSale(s)(tx)
  {
    var now := PostCash(d, tx);
    forall r: nat | r < |now.registers|
      ensures RegisterBalanced(now, r)
    {
      assert RegisterBalanced(d, r);
      SumRealAppend(d.cash, tx, InRegister(r));
    }
    forall s: nat
      ensures SumReal(now.cash, OfSale(s)) == SumReal(d.cash, OfSale(s)) + OfSale(s)(tx)
    {
      SumRealAppend(d.cash, tx, OfSale(s));
    }
  }

  lemma {:induction false} PostPaymentsEffect(d: Db, register: nat, s: nat, payments: seq<Payment>)
    requires register < |d.registers| && d.registers[register].isOpen && RegistersBalanced(d)
    requires ReferencesKnown(d) && s < |d.sales|
    ensures
      var now := PostPayments(d, register, s, payments);
      && RegistersBalanced(now) && ReferencesKnown(now)
      && (forall r: nat :: r < |d.registers| ==>
          now.registers[r] == d.registers[r].(expected := now.registers[r].expected))
      && forall t: nat :: SumReal(now.cash, OfSale(t)) ==
          SumReal(d.cash, OfSale(t)) + if t == s then CashPaid(payments) else 0.0
  {
    if payments == [] {
    } else {
      var last := payments[|payments| - 1];
      PostPaymentsEffect(d, register, s, payments[..|payments| - 1]);
      var now := PostPayments(d, register, s, payments[..|payments| - 1]);
      if last.via == Cash {
        PostCashEffect(now, CashTx(register, Income, last.amount, SalePayment(s)));
      }
    }
  }

  lemma NoCashNoAmount(payments: seq<Payment>)
    requires !HasCash(payments)
    ensures CashPaid(payments) == 0.0
  {
    SumRealZero(payments, CashAmounts());
  }

  lemma UnknownSaleUnbooked(d: Db, s: nat)
    requires ReferencesKnown(d) && s >= |d.sales|
    ensures SumReal(d.cash, OfSale(s)) == 0.0
  {
    SumRealZero(d.cash, OfSale(s));
  }

  lemma CreateSaleBooked(d: Db, cart: seq<CartItem>, payments: seq<Payment>, discount: real, taxRate: real,
                         open: Option<nat>)
    requires Booked(d) && CreateSale(d, cart, payments, discount, taxRate, open).Ok?
    ensures Booked(CreateSale(d, cart, payments, discount, taxRate, open).db)
  {
    CartFound(d.parts, cart);
    var lines := Priced(d.parts, cart);
    var totals := SaleTotals(Amount(lines), discount, taxRate);
    var sale := Sale(lines, payments, totals, taxRate, Paid(payments) - totals.total, Completed, None);
    var sold := d.(parts := SellLines(d.parts, lines).value, sales := d.sales + [sale]);
    var now := CreateSale(d, cart, payments, discount, taxRate, open).db;
    assert forall r: nat :: r < |d.registers| ==> RegisterBalanced(d, r) ==> RegisterBalanced(sold, r);
    UnknownSaleUnbooked(d, |d.sales|);
    if HasCash(payments) {
      PostPaymentsEffect(sold, open.value, |d.sales|, payments);
    } else {
      NoCashNoAmount(payments);
    }
    forall s: nat | s < |now.sales|
      ensures SaleBooked(now, s)
    {
      assert s < |d.sales| ==> SaleBooked(d, s);
    }
  }

  lemma VoidSaleBooked(d: Db, s: nat, open: Option<nat>)
    requires Booked(d) && VoidSale(d, s, open).Ok?
    ensures Booked(VoidSale(d, s, open).db)
  {
    var sale := d.sales[s];
    var voided := d.(parts := MoveLines(d.parts, sale.lines, In), sales := d.sales[s := sale.(status := Voided)]);
    var refund := CashPaid(sale.payments);
    var now := VoidSale(d, s, open).db;
    assert forall r: nat :: r < |d.registers| ==> RegisterBalanced(d, r) ==> RegisterBalanced(voided, r);
    assert SaleBooked(d, s);
    SumRealNonNegative(sale.payments, CashAmounts());
    if !HasCash(sale.payments) {
      NoCashNoAmount(sale.payments);
    } else if refund > 0.0 {
      PostCashEffect(voided, CashTx(open.value, Expense, refund, SaleVoid(s)));
    }
    forall t: nat | t < |now.sales|
      ensures SaleBooked(now, t)
    {
      assert SaleBooked(d, t);
    }
  }

  lemma ConvertBooked(d: Db, q: nat, payments: seq<Payment>)
    requires Booked(d) && ConvertQuotation(d, q, payments).Ok?
    ensures Booked(ConvertQuotation(d, q, payments).db)
  {
    var now := ConvertQuotation(d, q, payments).db;
    UnknownSaleUnbooked(d, |d.sales|);
    assert forall r: nat :: r < |d.registers| ==> RegisterBalanced(d, r) ==> RegisterBalanced(now, r);
    forall s: nat | s < |now.sales|
      ensures SaleBooked(now, s)
    {
      assert s < |d.sales| ==> SaleBooked(d, s);
    }
  }

  /** A manual movement or an invoice payment keeps every register balanced and adds nothing to any
      sale's cash. */
  lemma OtherCashBooked(d: Db, tx: CashTx)
    requires Booked(d) && tx.register < |d.registers| && d.registers[tx.register].isOpen
    requires tx.reference.InvoicePayment? || tx.reference.Free?
    ensures Booked(PostCash(d, tx))
    ensures forall s: nat :: SumReal(PostCash(d, tx).cash, OfSale(s)) == SumReal(d.cash, OfSale(s))
  {
    PostCashEffect(d, tx);
    forall s: nat | s < |d.sales|
      ensures SaleBooked(PostCash(d, tx), s)
    {
      assert SaleBooked(d, s);
    }
  }

  lemma OpenRegisterBooked(d: Db, name: string, opening: real)
    requires Consistent(d) && Booked(d) && OpenRegister(d, name, opening).Ok?
    ensures Booked(OpenRegister(d, name, opening).db)
  {
    var now := OpenRegister(d, name, opening).db;
    forall r: nat | r < |now.registers|
      ensures RegisterBalanced(now, r)
    {
      if r < |d.registers| {
        assert RegisterBalanced(d, r);
      } else {
        SumRealZero(d.cash, InRegister(r));
      }
    }
    assert forall s: nat :: s < |d.sales| ==> SaleBooked(d, s) ==> SaleBooked(now, s);
  }

  lemma CloseRegisterBooked(d: Db, r: nat, counted: real)
    requires Booked(d) && CloseRegister(d, r, counted).Ok?
    ensures Booked(CloseRegister(d, r, counted).db)
  {
    var now := CloseRegister(d, r, counted).db;
    SplitByKind(d.cash, r);
    assert forall t: nat :: t < |d.registers| && t != r ==> RegisterBalanced(d, t) ==> RegisterBalanced(now, t);
    assert forall s: nat :: s < |d.sales| ==> SaleBooked(d, s) ==> SaleBooked(now, s);
  }

  predicate CashAction(a: Action)
  {
    || a.DoCreateSale? || a.DoVoidSale? || a.DoConvertQuotation? || a.DoOpenRegister? || a.DoMoveCash?
    || a.DoInvoiceCash? || a.DoCloseRegister?
  }

  /** The remaining actions write no cash row, no sale and no payment, and void no sale. */
  predicate CashUntouched(d: Db, now: Db)
  {
    && now.cash == d.cash && now.registers == d.registers && |now.sales| == |d.sales|
    && forall s :: 0 <= s < |d.sales| ==>
        && now.sales[s] == d.sales[s].(status := now.sales[s].status)
        && (now.sales[s].status == Voided <==> d.sales[s].status == Voided)
  }

  lemma OtherSaleStepUntouched(d: Db, a: Action)
    requires Consistent(d) && (a.DoCreateNote? || a.DoCancelNote? || a.DoProcessRefund?)
    ensures CashUntouched(d, Next(d, a))
  {
    if a.DoCancelNote? && Step(d, a).Ok? {
      assert NoteConsistent(d, d.notes[a.note]);
    }
  }

  lemma OtherStepUntouched(d: Db, a: Action)
    requires Consistent(d) && !CashAction(a)
    ensures CashUntouched(d, Next(d, a))
  {
    if SaleAction(a) {
      OtherSaleStepUntouched(d, a);
    } else {
      assert Next(d, a).sales == d.sales;
    }
  }

  lemma UntouchedBooked(d: Db, now: Db)
    requires Booked(d) && CashUntouched(d, now)
    ensures Booked(now)
  {
    assert forall r: nat :: r < |d.registers| ==> RegisterBalanced(d, r) ==> RegisterBalanced(now, r);
    forall s: nat | s < |now.sales|
      ensures SaleBooked(now, s)
    {
      assert SaleBooked(d, s);
    }
  }

  lemma RegisterStepBooked(d: Db, a: Action)
    requires Consistent(d) && Booked(d) && Step(d, a).Ok?
    requires a.DoOpenRegister? || a.DoMoveCash? || a.DoInvoiceCash? || a.DoCloseRegister?
    ensures Booked(Next(d, a))
  {
    match a
    case DoOpenRegister(name, opening) => OpenRegisterBooked(d, name, opening);
    case DoMoveCash(r, kind, amount, text) => OtherCashBooked(d, CashTx(r, kind, amount, Free(text)));
    case DoInvoiceCash(i, amount, open) => OtherCashBooked(d, CashTx(open.value, Income, amount, InvoicePayment(i)));
    case DoCloseRegister(r, counted) => CloseRegisterBooked(d, r, counted);
  }

  lemma StepBooked(d: Db, a: Action)
    requires Consistent(d) && Booked(d)
    ensures Booked(Next(d, a))
  {
    if Step(d, a).Fail? {
    } else if a.DoCreateSale? {
      CreateSaleBooked(d, a.cart, a.payments, a.discount, a.taxRate, a.open);
    } else if a.DoVoidSale? {
      VoidSaleBooked(d, a.sale, a.open);
    } else if a.DoConvertQuotation? {
      ConvertBooked(d, a.quotation, a.payments);
    } else if CashAction(a) {
      RegisterStepBooked(d, a);
    } else {
      OtherStepUntouched(d, a);
      UntouchedBooked(d, Next(d, a));
    }
  }

  /** In every reachable state each register balances and each sale has exactly its own cash:
      its cash payments when made at the counter, minus its cash payments once voided. */
  lemma {:induction false} RunBooked(d: Db, actions: seq<Action>)
    requires Fresh(d)
    ensures Booked(Run(d, actions))
  {
    if actions == [] {
    } else {
      var init := actions[..|actions| - 1];
      RunBooked(d, init);
      RunConsistent(d, init);
      StepBooked(Run(d, init), actions[|actions| - 1]);
    }
  }

  /** A counter sale holds its cash payments until it is voided and nothing afterwards; a
      converted quotation holds nothing until voided, and then owes its cash payments. */
  lemma CashOfSale(d: Db, actions: seq<Action>, s: nat)
    requires Fresh(d) && s < |Run(d, actions).sales|
    ensures
      var now := Run(d, actions);
      var sale := now.sales[s];
      var held := SumReal(now.cash, OfSale(s));
      && (sale.quotation == None ==> held == if sale.status == Voided then 0.0 else CashPaid(sale.payments))
      && (sale.quotation != None ==> held == if sale.status == Voided then -CashPaid(sale.payments) else 0.0)
  {
    RunBooked(d, actions);
    assert SaleBooked(Run(d, actions), s);
  }

  /** Open or closed, the statistics show the balance that closing computes, their three totals
      account for every movement of the register, and the difference shown for a closed register
      is what was counted minus that balance. */
  lemma StatsAgree(d: Db, actions: seq<Action>, r: nat)
    requires Fresh(d) && r < |Run(d, actions).registers|
    ensures
      var now := Run(d, actions);
      var stats, reg := RegisterStats(now, r), now.registers[r];
      && stats.expected == ClosingBalance(now, r) == reg.opening + SumReal(now.cash, InRegister(r))
      && stats.income - stats.expenses - stats.withdrawals == SumReal(now.cash, InRegister(r))
      && stats.expenses + stats.withdrawals == SumReal(now.cash, OutOf(r))
      && (reg.isOpen ==> stats.current == stats.expected && stats.difference == 0.0)
      && (!reg.isOpen ==> stats.current - stats.difference == stats.expected)
  {
    RunBooked(d, actions);
    var now := Run(d, actions);
    assert RegisterBalanced(now, r);
    SplitByKind(now.cash, r);
  }

  // ---------------------------------------------------------------- closed for good

  predicate SameRegister(d: Db, now: Db, r: nat)
    requires r < |d.registers|
  {
    && r < |now.registers| && now.registers[r] == d.registers[r]
    && SumReal(now.cash, InRegister(r)) == SumReal(d.cash, InRegister(r))
  }

  lemma PostElsewhere(d: Db, tx: CashTx, r: nat)
    requires r < |d.registers| && tx.register < |d.registers| && tx.register != r
    ensures SameRegister(d, PostCash(d, tx), r)
  {
    SumRealAppend(d.cash, tx, InRegister(r));
  }

  lemma {:induction false} PaymentsElsewhere(d: Db, register: nat, s: nat, payments: seq<Payment>, r: nat)
    requires r < |d.registers| && register < |d.registers| && register != r
    ensures SameRegister(d, PostPayments(d, register, s, payments), r)
  {
    if payments == [] {
    } else {
      var init, last := payments[..|payments| - 1], payments[|payments| - 1];
      PaymentsElsewhere(d, register, s, init, r);
      if last.via == Cash {
        PostElsewhere(PostPayments(d, register, s, init), CashTx(register, Income, last.amount, SalePayment(s)), r);
      }
    }
  }

  lemma CreateSaleElsewhere(d: Db, cart: seq<CartItem>, payments: seq<Payment>, discount: real, taxRate: real,
                            open: Option<nat>, r: nat)
    requires r < |d.registers| && !d.registers[r].isOpen
    requires CreateSale(d, cart, payments, discount, taxRate, open).Ok?
    ensures SameRegister(d, CreateSale(d, cart, payments, discount, taxRate, open).db, r)
  {
    var now := CreateSale(d, cart, payments, discount, taxRate, open).db;
    if HasCash(payments) {
      PaymentsElsewhere(d.(parts := now.parts, sales := now.sales), open.value, |d.sales|, payments, r);
    }
  }

  lemma VoidSaleElsewhere(d: Db, s: nat, open: Option<nat>, r: nat)
    requires r < |d.registers| && !d.registers[r].isOpen && VoidSale(d, s, open).Ok?
    ensures SameRegister(d, VoidSale(d, s, open).db, r)
  {
    var now, payments := VoidSale(d, s, open).db, d.sales[s].payments;
    if HasCash(payments) && CashPaid(payments) > 0.0 {
      PostElsewhere(d.(parts := now.parts, sales := now.sales),
                    CashTx(open.value, Expense, CashPaid(payments), SaleVoid(s)), r);
    }
  }

  lemma StepClosed(d: Db, a: Action, r: nat)
    requires Consistent(d) && Booked(d) && r < |d.registers| && !d.registers[r].isOpen
    ensures SameRegister(d, Next(d, a), r)
  {
    if Step(d, a).Fail? {
    } else if !CashAction(a) {
      OtherStepUntouched(d, a);
    } else if a.DoCreateSale? {
      CreateSaleElsewhere(d, a.cart, a.payments, a.discount, a.taxRate, a.open, r);
    } else if a.DoVoidSale? {
      VoidSaleElsewhere(d, a.sale, a.open, r);
    } else if a.DoMoveCash? {
      PostElsewhere(d, CashTx(a.register, a.kind, a.amount, Free(a.text)), r);
    } else if a.DoInvoiceCash? {
      PostElsewhere(d, CashTx(a.open.value, Income, a.amount, InvoicePayment(a.invoice)), r);
    } else {
      assert Next(d, a).cash == d.cash && Next(d, a).registers[r] == d.registers[r];
    }
  }

  /** Whatever happens after a register is closed, its row and the sum of its movements stay,
      so the stored balance equals opening plus signed movements forever after. */
  lemma {:induction false} ClosedForGood(d: Db, first: seq<Action>, later: seq<Action>, r: nat)
    requires Fresh(d) && r < |Run(d, first).registers| && !Run(d, first).registers[r].isOpen
    ensures SameRegister(Run(d, first), Run(d, first + later), r)
    ensures
      var now := Run(d, first + later);
      now.registers[r].expected == now.registers[r].opening + SumReal(now.cash, InRegister(r))
  {
    RunBooked(d, first + later);
    if later == [] {
      assert first + later == first;
    } else {
      var n := |later| - 1;
      assert (first + later)[..|first + later| - 1] == first + later[..n];
      ClosedForGood(d, first, later[..n], r);
      RunConsistent(d, first + later[..n]);
      RunBooked(d, first + later[..n]);
      StepClosed(Run(d, first + later[..n]), later[n], r);
    }
    assert SameRegister(Run(d, first), Run(d, first + later), r);
    assert RegisterBalanced(Run(d, first + later), r);
  }
}
