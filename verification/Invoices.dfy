/** Invoices of tickets together with the books they post to: generation, payments with their cash
    entries, cancellation and the financial statistics. */
module Invoices {
  import opened Sums
  import Database
  import L = Ledger
  import LedgerCash
  import LedgerMovements
  import LedgerStock

  // ---------------------------------------------------------------- rows

  datatype InvoiceStatus = Pending | Paid | Cancelled

  datatype Received = Received(amount: real, cash: bool)

  datatype Invoice = Invoice(
    ticket: nat, laborCost: real, partsCost: real, partsMarkup: real, total: real,
    status: InvoiceStatus, payments: seq<Received>)

  /** A part used on the ticket, with the price proposed to the customer and its catalogue cost. */
  datatype UsedPart = UsedPart(qty: int, price: real, cost: real, approved: bool)

  datatype TicketStatus = Ready | NotReady

  /** The billing side of a ticket as an action reads it. Ready stands for CLOSED or RESOLVED. */
  datatype Ticket = Ticket(
    status: TicketStatus, services: seq<real>, templateLabor: Option<real>, parts: seq<UsedPart>)

  /** The invoices, and the ledger whose cash registers they post to. */
  datatype Shop = Shop(invoices: seq<Invoice>, books: L.Db)

  datatype Error =
    | InvalidInput | NotFound | NotReadyToBill | AlreadyInvoiced | AlreadyPaid | IsCancelled
    | ExceedsBalance | HasPayments | BooksRefuse(reason: L.Error)

  datatype Outcome = Ok(shop: Shop) | Fail(error: Error)

  // ---------------------------------------------------------------- sums

  function Self(): real -> real
  {
    (x: real) => x
  }

  function PriceOf(): UsedPart -> real
  {
    (u: UsedPart) => if u.approved then u.price * u.qty as real else 0.0
  }

  function CostOf(): UsedPart -> real
  {
    (u: UsedPart) => if u.approved then u.cost * u.qty as real else 0.0
  }

  function AmountOf(): Received -> real
  {
    (x: Received) => x.amount
  }

  function CashOf(): Received -> real
  {
    (x: Received) => if x.cash then x.amount else 0.0
  }

  function PaidSum(v: Invoice): real
  {
    SumReal(v.payments, AmountOf())
  }

  /** Individual services if there are any, otherwise the labor of the template. */
  function Labor(t: Ticket): real
  {
    if t.services != [] then SumReal(t.services, Self())
    else if t.templateLabor.Some? then t.templateLabor.value
    else 0.0
  }

  // ---------------------------------------------------------------- steps

  predicate Invoiced(invoices: seq<Invoice>, ticket: nat)
  {
    exists i :: 0 <= i < |invoices| && invoices[i].ticket == ticket
  }

  function InvoiceTotal(subtotal: real, taxRate: real, discount: real): real
  {
    subtotal + subtotal * taxRate / 100.0 - discount
  }

  /** `read` is the ticket's row at the time, None when there is none. */
  function Generate(shop: Shop, ticket: nat, read: Option<Ticket>, taxRate: real, discount: real): Outcome
  {
    if taxRate < 0.0 || discount < 0.0 then Fail(InvalidInput)
    else if read == None then Fail(NotFound)
    else if read.value.status != Ready then Fail(NotReadyToBill)
    else if Invoiced(shop.invoices, ticket) then Fail(AlreadyInvoiced)
    else
      var t := read.value;
      var parts := SumReal(t.parts, PriceOf());
      var subtotal := Labor(t) + parts;
      Ok(shop.(invoices := shop.invoices + [
        Invoice(ticket, Labor(t), parts, parts - SumReal(t.parts, CostOf()),
                InvoiceTotal(subtotal, taxRate, discount), Pending, [])]))
  }

  /** A cash payment is entered in an open register; without one the whole payment is rolled back. */
  function Pay(shop: Shop, i: nat, amount: real, cash: bool, open: Option<nat>): Outcome
  {
    if amount <= 0.0 then Fail(InvalidInput)
    else if i >= |shop.invoices| then Fail(NotFound)
    else
      var v := shop.invoices[i];
      if v.status == Paid then Fail(AlreadyPaid)
      else if v.status == Cancelled then Fail(IsCancelled)
      else if amount > v.total - PaidSum(v) then Fail(ExceedsBalance)
      else
        var status := if PaidSum(v) + amount >= v.total then Paid else Pending;
        var paid := shop.invoices[i := v.(payments := v.payments + [Received(amount, cash)], status := status)];
        if !cash then Ok(shop.(invoices := paid))
        else
          match L.InvoiceCash(shop.books, i, amount, open)
          case Ok(books) => Ok(Shop(paid, books))
          case Fail(e) => Fail(BooksRefuse(e))
  }

  function Cancel(shop: Shop, i: nat): Outcome
  {
    if i >= |shop.invoices| then Fail(NotFound)
    else if shop.invoices[i].payments != [] then Fail(HasPayments)
    else Ok(shop.(invoices := shop.invoices[i := shop.invoices[i].(status := Cancelled)]))
  }

  /** Any action of the ledger in between. The cash entry of an invoice is an action of its own too,
      for an invoice that exists. */
  function KeepBooks(shop: Shop, a: L.Action): Outcome
  {
    if a.DoInvoiceCash? && a.invoice >= |shop.invoices| then Fail(NotFound)
    else
      match L.Step(shop.books, a)
      case Ok(books) => Ok(shop.(books := books))
      case Fail(e) => Fail(BooksRefuse(e))
  }

  // ---------------------------------------------------------------- the statistics

  datatype Stats = Stats(
    totalInvoiced: real, totalPaid: real, totalPending: real, laborIncome: real, partsIncome: real,
    partsProfit: real, invoiceCount: nat, paid: nat, pending: nat)

  function TotalOf(): Invoice -> real
  {
    (v: Invoice) => if v.status == Cancelled then 0.0 else v.total
  }

  function PaidOf(): Invoice -> real
  {
    (v: Invoice) => if v.status == Cancelled then 0.0 else PaidSum(v)
  }

  function LaborOf(): Invoice -> real
  {
    (v: Invoice) => if v.status == Cancelled then 0.0 else v.laborCost
  }

  function PartsOf(): Invoice -> real
  {
    (v: Invoice) => if v.status == Cancelled then 0.0 else v.partsCost
  }

  function MarkupOf(): Invoice -> real
  {
    (v: Invoice) => if v.status == Cancelled then 0.0 else v.partsMarkup
  }

  /** What is left to pay of an invoice that is not cancelled. */
  function RemainderOf(): Invoice -> real
  {
    (v: Invoice) => if v.status == Cancelled then 0.0 else v.total - PaidSum(v)
  }

  function IsStatus(status: InvoiceStatus): Invoice -> int
  {
    (v: Invoice) => if v.status == status then 1 else 0
  }

  // ---------------------------------------------------------------- the actions

  datatype Result = Done | Failed(error: Error)

  predicate Reports(step: Outcome, before: Shop, now: Shop, r: Result)
  {
    match step
    case Ok(shop) => r == Done && now == shop
    case Fail(e) => r == Failed(e) && now == before
  }

  class Billing {
    var invoices: seq<Invoice>
    const tables: Database.Tables

    function View(): Shop
      reads this, tables
    {
      Shop(invoices, tables.View())
    }

    constructor (books: Database.Tables)
      ensures invoices == [] && tables == books
    {
      invoices, tables := [], books;
    }

    method CostTicket(t: Ticket) returns (labor: real, partsCost: real, partsMarkup: real)
      ensures labor == Labor(t) && partsCost == SumReal(t.parts, PriceOf())
      ensures partsMarkup == partsCost - SumReal(t.parts, CostOf())
    {
      labor := 0.0;
      if t.services != [] {
        for i := 0 to |t.services|
          invariant labor == SumReal(t.services[..i], Self())
        {
          assert t.services[..i + 1][..i] == t.services[..i];
          labor := labor + t.services[i];
        }
        assert t.services[..|t.services|] == t.services;
      } else if t.templateLabor.Some? {
        labor := t.templateLabor.value;
      }
      partsCost, partsMarkup := 0.0, 0.0;
      for i := 0 to |t.parts|
        invariant partsCost == SumReal(t.parts[..i], PriceOf())
        invariant partsMarkup == partsCost - SumReal(t.parts[..i], CostOf())
      {
        assert t.parts[..i + 1][..i] == t.parts[..i];
        var usage := t.parts[i];
        if usage.approved {
          var partPrice := usage.price * usage.qty as real;
          var partCost := usage.cost * usage.qty as real;
          partsCost := partsCost + partPrice;
          partsMarkup := partsMarkup + (partPrice - partCost);
        }
      }
      assert t.parts[..|t.parts|] == t.parts;
    }

    method GenerateInvoiceFromTicket(ticket: nat, read: Option<Ticket>, taxRate: real, discount: real)
      returns (r: Result)
      modifies this`invoices
      ensures Reports(Generate(old(View()), ticket, read, taxRate, discount), old(View()), View(), r)
    {
      if taxRate < 0.0 || discount < 0.0 { return Failed(InvalidInput); }
      if read == None { return Failed(NotFound); }
      if read.value.status != Ready { return Failed(NotReadyToBill); }
      if Invoiced(invoices, ticket) { return Failed(AlreadyInvoiced); }
      var labor, partsCost, partsMarkup := CostTicket(read.value);
      var total := InvoiceTotal(labor + partsCost, taxRate, discount);
      invoices := invoices + [Invoice(ticket, labor, partsCost, partsMarkup, total, Pending, [])];
      assert tables.View() == old(tables.View());
      assert View() == Generate(old(View()), ticket, read, taxRate, discount).shop;
      return Done;
    }

    method SumPaid(payments: seq<Received>) returns (total: real)
      ensures total == SumReal(payments, AmountOf())
    {
      total := 0.0;
      for i := 0 to |payments|
        invariant total == SumReal(payments[..i], AmountOf())
      {
        assert payments[..i + 1][..i] == payments[..i];
        total := total + payments[i].amount;
      }
      assert payments[..|payments|] == payments;
    }

    /** The payment and, for cash, its register entry succeed or fail together. `open` is the
        database's answer to the search for an open register. */
    method RegisterPayment(i: nat, amount: real, cash: bool, open: Option<nat>) returns (r: Result)
      requires L.FindsOpen(tables.registers, open)
      modifies this, tables
      ensures Reports(Pay(old(View()), i, amount, cash, open), old(View()), View(), r)
    {
      if amount <= 0.0 { return Failed(InvalidInput); }
      if i >= |invoices| { return Failed(NotFound); }
      var invoice := invoices[i];
      if invoice.status == Paid { return Failed(AlreadyPaid); }
      if invoice.status == Cancelled { return Failed(IsCancelled); }
      var totalPaid := SumPaid(invoice.payments);
      if amount > invoice.total - totalPaid { return Failed(ExceedsBalance); }

      var saved := invoices;
      var isFullyPaid := totalPaid + amount >= invoice.total;
      invoices := invoices[i := invoice.(
        payments := invoice.payments + [Received(amount, cash)],
        status := if isFullyPaid then Paid else Pending)];
      if cash {
        if open == None {
          invoices := saved;
          return Failed(BooksRefuse(L.NoOpenRegister));
        }
        tables.InsertCash(L.CashTx(open.value, L.Income, amount, L.InvoicePayment(i)));
      }
      return Done;
    }

    method GetFinancialStats() returns (stats: Stats)
      ensures stats.totalInvoiced == SumReal(invoices, TotalOf())
      ensures stats.totalPaid == SumReal(invoices, PaidOf())
      ensures stats.totalPending == stats.totalInvoiced - stats.totalPaid
      ensures stats.laborIncome == SumReal(invoices, LaborOf())
      ensures stats.partsIncome == SumReal(invoices, PartsOf()) && stats.partsProfit == SumReal(invoices, MarkupOf())
      ensures stats.paid == SumInt(invoices, IsStatus(Paid)) && stats.pending == SumInt(invoices, IsStatus(Pending))
      ensures stats.invoiceCount == stats.paid + stats.pending
    {
      stats := Stats(0.0, 0.0, 0.0, 0.0, 0.0, 0.0, 0, 0, 0);
      for i := 0 to |invoices|
        invariant stats.totalInvoiced == SumReal(invoices[..i], TotalOf())
        invariant stats.totalPaid == SumReal(invoices[..i], PaidOf())
        invariant stats.laborIncome == SumReal(invoices[..i], LaborOf())
        invariant stats.partsIncome == SumReal(invoices[..i], PartsOf())
        invariant stats.partsProfit == SumReal(invoices[..i], MarkupOf())
        invariant stats.paid == SumInt(invoices[..i], IsStatus(Paid))
        invariant stats.pending == SumInt(invoices[..i], IsStatus(Pending))
        invariant stats.invoiceCount == stats.paid + stats.pending
      {
        assert invoices[..i + 1][..i] == invoices[..i];
        var v := invoices[i];
        if v.status != Cancelled {
          var amount := SumPaid(v.payments);
          stats := stats.(
            totalInvoiced := stats.totalInvoiced + v.total, totalPaid := stats.totalPaid + amount,
            laborIncome := stats.laborIncome + v.laborCost, partsIncome := stats.partsIncome + v.partsCost,
            partsProfit := stats.partsProfit + v.partsMarkup, invoiceCount := stats.invoiceCount + 1,
            paid := stats.paid + if v.status == Paid then 1 else 0,
            pending := stats.pending + if v.status == Pending then 1 else 0);
        }
      }
      assert invoices[..|invoices|] == invoices;
      stats := stats.(totalPending := stats.totalInvoiced - stats.totalPaid);
    }
  }

  // ---------------------------------------------------------------- every run

  datatype Action =
    | DoGenerate(ticket: nat, read: Option<Ticket>, taxRate: real, discount: real)
    | DoPay(invoice: nat, amount: real, cash: bool, open: Option<nat>)
    | DoCancel(invoice: nat)
    | DoBooks(action: L.Action)

  function Step(shop: Shop, a: Action): Outcome
  {
    match a
    case DoGenerate(ticket, read, taxRate, discount) => Generate(shop, ticket, read, taxRate, discount)
    case DoPay(i, amount, cash, open) => Pay(shop, i, amount, cash, open)
    case DoCancel(i) => Cancel(shop, i)
    case DoBooks(action) => KeepBooks(shop, action)
  }

  function Next(shop: Shop, a: Action): Shop
  {
    match Step(shop, a)
    case Ok(now) => now
    case Fail(_) => shop
  }

  /** A run from no invoices and the given books. */
  function Run(books: L.Db, actions: seq<Action>): Shop
  {
    if actions == [] then Shop([], books)
    else Next(Run(books, actions[..|actions| - 1]), actions[|actions| - 1])
  }

  // ---------------------------------------------------------------- settlement

  /** Payments never exceed the total, PAID means paid exactly, CANCELLED means unpaid. */
  predicate Settled(v: Invoice)
  {
    && (forall i :: 0 <= i < |v.payments| ==> v.payments[i].amount > 0.0)
    && (v.payments != [] ==> 0.0 < PaidSum(v) <= v.total)
    && (v.status == Paid <==> v.payments != [] && PaidSum(v) == v.total)
    && (v.status == Cancelled ==> v.payments == [])
  }

  predicate AllSettled(invoices: seq<Invoice>)
  {
    forall i :: 0 <= i < |invoices| ==> Settled(invoices[i])
  }

  /** An invoice only gains payments and changes its status; a final one changes nothing. */
  predicate InvoiceKept(before: Invoice, now: Invoice)
  {
    && now == before.(payments := now.payments, status := now.status) && before.payments <= now.payments
    && (before.status != Pending ==> now == before)
  }

  predicate InvoicesKept(before: seq<Invoice>, now: seq<Invoice>)
  {
    |before| <= |now| && forall i :: 0 <= i < |before| ==> InvoiceKept(before[i], now[i])
  }

  lemma PaymentSettles(v: Invoice, amount: real, cash: bool)
    requires Settled(v) && v.status == Pending && 0.0 < amount <= v.total - PaidSum(v)
    ensures Settled(v.(payments := v.payments + [Received(amount, cash)],
                       status := if PaidSum(v) + amount >= v.total then Paid else Pending))
  {
    SumRealAppend(v.payments, Received(amount, cash), AmountOf());
  }

  lemma PaySettled(shop: Shop, i: nat, amount: real, cash: bool, open: Option<nat>)
    requires AllSettled(shop.invoices) && Pay(shop, i, amount, cash, open).Ok?
    ensures
      var now := Pay(shop, i, amount, cash, open).shop.invoices;
      AllSettled(now) && InvoicesKept(shop.invoices, now)
  {
    PaymentSettles(shop.invoices[i], amount, cash);
    var now := Pay(shop, i, amount, cash, open).shop.invoices;
    assert Settled(now[i]) && InvoiceKept(shop.invoices[i], now[i]);
  }

  lemma CancelSettled(shop: Shop, i: nat)
    requires AllSettled(shop.invoices) && Cancel(shop, i).Ok?
    ensures
      var now := Cancel(shop, i).shop.invoices;
      AllSettled(now) && InvoicesKept(shop.invoices, now)
  {
    assert Settled(shop.invoices[i]);
  }

  lemma StepSettled(shop: Shop, a: Action)
    requires AllSettled(shop.invoices)
    ensures AllSettled(Next(shop, a).invoices) && InvoicesKept(shop.invoices, Next(shop, a).invoices)
  {
    if Step(shop, a).Fail? || a.DoBooks? {
      assert Next(shop, a).invoices == shop.invoices;
    } else if a.DoPay? {
      PaySettled(shop, a.invoice, a.amount, a.cash, a.open);
    } else if a.DoCancel? {
      CancelSettled(shop, a.invoice);
    } else {
      assert Settled(Next(shop, a).invoices[|shop.invoices|]);
    }
  }

  /** In every reachable state every invoice is settled. */
  lemma {:induction false} RunSettled(books: L.Db, actions: seq<Action>)
    ensures AllSettled(Run(books, actions).invoices)
  {
    if actions == [] {
    } else {
      var init := actions[..|actions| - 1];
      RunSettled(books, init);
      StepSettled(Run(books, init), actions[|actions| - 1]);
    }
  }

  lemma KeptChains(a: seq<Invoice>, b: seq<Invoice>, c: seq<Invoice>)
    requires InvoicesKept(a, b) && InvoicesKept(b, c)
    ensures InvoicesKept(a, c)
  {
    assert forall i :: 0 <= i < |a| ==> InvoiceKept(a[i], b[i]) && InvoiceKept(b[i], c[i]);
  }

  /** Over every run invoices keep their amounts, gain payments only, and never change again once
      PAID or CANCELLED; one that was ever paid into is never CANCELLED. */
  lemma {:induction false} RunKeepsInvoices(books: L.Db, actions: seq<Action>, k: nat)
    requires k <= |actions|
    ensures InvoicesKept(Run(books, actions[..k]).invoices, Run(books, actions).invoices)
    ensures forall i :: 0 <= i < |Run(books, actions[..k]).invoices| ==>
      Run(books, actions[..k]).invoices[i].payments != [] ==> Run(books, actions).invoices[i].status != Cancelled
  {
    RunSettled(books, actions);
    var n := |actions| - 1;
    if k == n + 1 {
      assert actions[..k] == actions;
    } else {
      assert actions[..n][..k] == actions[..k];
      RunKeepsInvoices(books, actions[..n], k);
      RunSettled(books, actions[..n]);
      var start, before, now := Run(books, actions[..k]), Run(books, actions[..n]), Run(books, actions);
      StepSettled(before, actions[n]);
      KeptChains(start.invoices, before.invoices, now.invoices);
      assert forall i :: 0 <= i < |start.invoices| ==> InvoiceKept(start.invoices[i], now.invoices[i]);
    }
  }

  // ---------------------------------------------------------------- what a step leaves

  /** A payment is accepted exactly for a positive amount within what a pending invoice has left, when
      cash finds an open register. The invoice gains that one payment and is PAID exactly when its
      payments then come to its total; cash is entered as income in the register found, and nothing
      else changes. */
  lemma PayExactly(shop: Shop, i: nat, amount: real, cash: bool, open: Option<nat>)
    ensures Pay(shop, i, amount, cash, open).Ok? <==>
      && amount > 0.0 && i < |shop.invoices| && shop.invoices[i].status == Pending
      && PaidSum(shop.invoices[i]) + amount <= shop.invoices[i].total
      && (cash ==> L.FindsOpen(shop.books.registers, open) && open.Some?)
    ensures Pay(shop, i, amount, cash, open).Ok? ==>
      var now, v := Pay(shop, i, amount, cash, open).shop, shop.invoices[i];
      && |now.invoices| == |shop.invoices|
      && now.invoices[i] == v.(payments := v.payments + [Received(amount, cash)], status := now.invoices[i].status)
      && PaidSum(now.invoices[i]) == PaidSum(v) + amount
      && now.invoices[i].status == (if PaidSum(now.invoices[i]) == v.total then Paid else Pending)
      && (forall k :: 0 <= k < |shop.invoices| && k != i ==> now.invoices[k] == shop.invoices[k])
      && (!cash ==> now.books == shop.books)
      && (cash ==> LedgerMovements.Moved(shop.books, now.books, open.value, L.Income, amount)
                   && now.books.cash[|shop.books.cash|].reference == L.InvoicePayment(i))
  {
    if Pay(shop, i, amount, cash, open).Ok? {
      PaymentRecorded(shop, i, amount, cash, open);
      PaymentEntered(shop, i, amount, cash, open);
    }
  }

  lemma PaymentRecorded(shop: Shop, i: nat, amount: real, cash: bool, open: Option<nat>)
    requires Pay(shop, i, amount, cash, open).Ok?
    ensures
      var now, v := Pay(shop, i, amount, cash, open).shop.invoices, shop.invoices[i];
      && now == shop.invoices[i := now[i]]
      && now[i] == v.(payments := v.payments + [Received(amount, cash)], status := now[i].status)
      && PaidSum(now[i]) == PaidSum(v) + amount
      && now[i].status == (if PaidSum(now[i]) == v.total then Paid else Pending)
  {
    SumRealAppend(shop.invoices[i].payments, Received(amount, cash), AmountOf());
  }

  lemma PaymentEntered(shop: Shop, i: nat, amount: real, cash: bool, open: Option<nat>)
    requires Pay(shop, i, amount, cash, open).Ok?
    ensures
      var books := Pay(shop, i, amount, cash, open).shop.books;
      if cash then
        && L.InvoiceCash(shop.books, i, amount, open) == L.Ok(books)
        && open.Some? && open.value < |shop.books.registers| && shop.books.registers[open.value].isOpen
        && LedgerMovements.Moved(shop.books, books, open.value, L.Income, amount)
        && books.cash[|shop.books.cash|].reference == L.InvoicePayment(i)
      else books == shop.books
  {
    if cash {
      LedgerMovements.InvoiceCashExactly(shop.books, i, amount, open);
    }
  }

  /** A cancellation is accepted exactly for an invoice without payments, and marks that one. */
  lemma CancelExactly(shop: Shop, i: nat)
    ensures Cancel(shop, i).Ok? <==> i < |shop.invoices| && shop.invoices[i].payments == []
    ensures Cancel(shop, i).Ok? ==>
      var now := Cancel(shop, i).shop;
      && now.books == shop.books && |now.invoices| == |shop.invoices|
      && now.invoices[i] == shop.invoices[i].(status := Cancelled)
      && forall k :: 0 <= k < |shop.invoices| && k != i ==> now.invoices[k] == shop.invoices[k]
  {
  }

  lemma TotalGrows(subtotal: real, more: real, taxRate: real, discount: real)
    ensures InvoiceTotal(subtotal + more, taxRate, discount) ==
      InvoiceTotal(subtotal, taxRate, discount) + more * (1.0 + taxRate / 100.0)
    ensures InvoiceTotal(subtotal, taxRate, discount) == subtotal * (1.0 + taxRate / 100.0) - discount
  {
    var rate := taxRate / 100.0;
    assert (subtotal + more) * taxRate / 100.0 == (subtotal + more) * rate;
    assert (subtotal + more) * rate == subtotal * rate + more * rate;
    assert subtotal * taxRate / 100.0 == subtotal * rate;
    assert more * (1.0 + rate) == more + more * rate;
    assert subtotal * (1.0 + rate) == subtotal + subtotal * rate;
  }

  /** An invoice is generated exactly for a ticket found ready and not invoiced, at a tax rate and a
      discount of zero or more: one pending invoice without payments, and nothing else. Of a ticket with
      neither services nor parts it bills the labor of the template. */
  lemma GenerateExactly(shop: Shop, ticket: nat, read: Option<Ticket>, taxRate: real, discount: real)
    ensures Generate(shop, ticket, read, taxRate, discount).Ok? <==>
      && taxRate >= 0.0 && discount >= 0.0 && read.Some? && read.value.status == Ready
      && forall i :: 0 <= i < |shop.invoices| ==> shop.invoices[i].ticket != ticket
    ensures Generate(shop, ticket, read, taxRate, discount).Ok? ==>
      var now, n := Generate(shop, ticket, read, taxRate, discount).shop, |shop.invoices|;
      && now.books == shop.books && |now.invoices| == n + 1 && now.invoices[..n] == shop.invoices
      && now.invoices[n].ticket == ticket && now.invoices[n].status == Pending && now.invoices[n].payments == []
      && (read.value.services == [] && read.value.parts == [] ==>
          var labor := if read.value.templateLabor.Some? then read.value.templateLabor.value else 0.0;
          && now.invoices[n].laborCost == labor
          && now.invoices[n].partsCost == 0.0 && now.invoices[n].partsMarkup == 0.0
          && now.invoices[n].total == labor * (1.0 + taxRate / 100.0) - discount)
  {
    if Generate(shop, ticket, read, taxRate, discount).Ok? {
      TotalGrows(Labor(read.value), 0.0, taxRate, discount);
    }
  }

  /** Ticket `more` comes to that much more labor, parts at price and parts at cost than `t`. */
  predicate ComesToMore(t: Ticket, more: Ticket, labor: real, price: real, cost: real)
  {
    && more.status == t.status && Labor(more) == Labor(t) + labor
    && SumReal(more.parts, PriceOf()) == SumReal(t.parts, PriceOf()) + price
    && SumReal(more.parts, CostOf()) == SumReal(t.parts, CostOf()) + cost
  }

  /** The invoice generated for the ticket. */
  function Bill(shop: Shop, ticket: nat, t: Ticket, taxRate: real, discount: real): Invoice
    requires Generate(shop, ticket, Some(t), taxRate, discount).Ok?
  {
    Generate(shop, ticket, Some(t), taxRate, discount).shop.invoices[|shop.invoices|]
  }

  lemma PartAdded(t: Ticket, u: UsedPart)
    ensures ComesToMore(t, t.(parts := t.parts + [u]), 0.0, PriceOf()(u), CostOf()(u))
  {
    SumRealAppend(t.parts, u, PriceOf());
    SumRealAppend(t.parts, u, CostOf());
  }

  lemma ServiceAdded(t: Ticket, labor: real)
    ensures
      var more := t.(services := t.services + [labor]);
      && Labor(more) == (if t.services == [] then labor else Labor(t) + labor)
      && ComesToMore(t, more, Labor(more) - Labor(t), 0.0, 0.0)
  {
    SumRealAppend(t.services, labor, Self());
  }

  lemma BillsTotal(shop: Shop, ticket: nat, t: Ticket, more: Ticket, labor: real, price: real, cost: real,
                   taxRate: real, discount: real)
    requires Generate(shop, ticket, Some(t), taxRate, discount).Ok? && ComesToMore(t, more, labor, price, cost)
    ensures Generate(shop, ticket, Some(more), taxRate, discount).Ok?
    ensures Bill(shop, ticket, more, taxRate, discount).total ==
      Bill(shop, ticket, t, taxRate, discount).total + (labor + price) * (1.0 + taxRate / 100.0)
  {
    var subtotal := Labor(t) + SumReal(t.parts, PriceOf());
    assert Labor(more) + SumReal(more.parts, PriceOf()) == subtotal + (labor + price);
    TotalGrows(subtotal, labor + price, taxRate, discount);
  }

  lemma BillsMore(shop: Shop, ticket: nat, t: Ticket, more: Ticket, labor: real, price: real, cost: real,
                  taxRate: real, discount: real)
    requires Generate(shop, ticket, Some(t), taxRate, discount).Ok? && ComesToMore(t, more, labor, price, cost)
    ensures Generate(shop, ticket, Some(more), taxRate, discount).Ok?
    ensures
      var v := Bill(shop, ticket, t, taxRate, discount);
      Bill(shop, ticket, more, taxRate, discount) == v.(
        laborCost := v.laborCost + labor, partsCost := v.partsCost + price,
        partsMarkup := v.partsMarkup + price - cost,
        total := v.total + (labor + price) * (1.0 + taxRate / 100.0))
  {
    BillsTotal(shop, ticket, t, more, labor, price, cost, taxRate, discount);
  }

  /** One more part on the ticket: not approved it changes nothing, approved it adds its quantity at
      price, its quantity at price less cost to the markup, and the taxed price to the total. */
  lemma OnePartMore(shop: Shop, ticket: nat, t: Ticket, u: UsedPart, taxRate: real, discount: real)
    requires Generate(shop, ticket, Some(t), taxRate, discount).Ok?
    ensures
      var more := t.(parts := t.parts + [u]);
      var price := if u.approved then u.price * u.qty as real else 0.0;
      var cost := if u.approved then u.cost * u.qty as real else 0.0;
      && Generate(shop, ticket, Some(more), taxRate, discount).Ok?
      && var v := Bill(shop, ticket, t, taxRate, discount);
      && Bill(shop, ticket, more, taxRate, discount) == v.(
        partsCost := v.partsCost + price, partsMarkup := v.partsMarkup + price - cost,
        total := v.total + price * (1.0 + taxRate / 100.0))
  {
    var more := t.(parts := t.parts + [u]);
    PartAdded(t, u);
    BillsMore(shop, ticket, t, more, 0.0, PriceOf()(u), CostOf()(u), taxRate, discount);
  }

  /** One more service: the first replaces the labor of the template, any further one adds its own. */
  lemma OneServiceMore(shop: Shop, ticket: nat, t: Ticket, labor: real, taxRate: real, discount: real)
    requires Generate(shop, ticket, Some(t), taxRate, discount).Ok?
    ensures
      var more := t.(services := t.services + [labor]);
      && Generate(shop, ticket, Some(more), taxRate, discount).Ok?
      && var v := Bill(shop, ticket, t, taxRate, discount);
      && var gain := if t.services == [] then labor - v.laborCost else labor;
      && Bill(shop, ticket, more, taxRate, discount) == v.(
        laborCost := v.laborCost + gain, total := v.total + gain * (1.0 + taxRate / 100.0))
  {
    var more := t.(services := t.services + [labor]);
    var gain := if t.services == [] then labor - Bill(shop, ticket, t, taxRate, discount).laborCost else labor;
    ServiceAdded(t, labor);
    BillsMore(shop, ticket, t, more, gain, 0.0, 0.0, taxRate, discount);
  }

  /** One more invoice in the statistics: cancelled it counts for nothing, otherwise each of its amounts
      for the figure it belongs to. */
  lemma OneInvoiceMore(invoices: seq<Invoice>, v: Invoice)
    ensures
      var counts := if v.status == Cancelled then 0.0 else 1.0;
      && SumReal(invoices + [v], TotalOf()) == SumReal(invoices, TotalOf()) + counts * v.total
      && SumReal(invoices + [v], PaidOf()) == SumReal(invoices, PaidOf()) + counts * PaidSum(v)
      && SumReal(invoices + [v], LaborOf()) == SumReal(invoices, LaborOf()) + counts * v.laborCost
      && SumReal(invoices + [v], PartsOf()) == SumReal(invoices, PartsOf()) + counts * v.partsCost
      && SumReal(invoices + [v], MarkupOf()) == SumReal(invoices, MarkupOf()) + counts * v.partsMarkup
    ensures forall status ::
      SumInt(invoices + [v], IsStatus(status)) ==
        SumInt(invoices, IsStatus(status)) + if v.status == status then 1 else 0
  {
    SumRealAppend(invoices, v, TotalOf());
    SumRealAppend(invoices, v, PaidOf());
    SumRealAppend(invoices, v, LaborOf());
    SumRealAppend(invoices, v, PartsOf());
    SumRealAppend(invoices, v, MarkupOf());
    forall status
      ensures SumInt(invoices + [v], IsStatus(status)) == SumInt(invoices, IsStatus(status)) + IsStatus(status)(v)
    {
      SumIntAppend(invoices, v, IsStatus(status));
    }
  }

  // ---------------------------------------------------------------- what an invoice bills

  /** The invoice bills the ticket as it was read: its labor, its approved parts at price, their
      markup over cost, and tax and discount on top. */
  predicate BilledBy(v: Invoice, a: Action)
  {
    && a.DoGenerate? && a.read.Some? && v.ticket == a.ticket && v.laborCost == Labor(a.read.value)
    && v.partsCost == SumReal(a.read.value.parts, PriceOf())
    && v.partsCost - v.partsMarkup == SumReal(a.read.value.parts, CostOf())
    && v.total + a.discount == (v.laborCost + v.partsCost) * (1.0 + a.taxRate / 100.0)
  }

  predicate Billed(v: Invoice, actions: seq<Action>)
  {
    exists k :: 0 <= k < |actions| && BilledBy(v, actions[k])
  }

  predicate OnePerTicket(invoices: seq<Invoice>)
  {
    forall i, j :: 0 <= i < j < |invoices| ==> invoices[i].ticket != invoices[j].ticket
  }

  lemma GeneratedIsBilled(shop: Shop, a: Action)
    requires a.DoGenerate? && Step(shop, a).Ok?
    ensures
      var now := Step(shop, a).shop.invoices;
      |now| == |shop.invoices| + 1 && BilledBy(now[|shop.invoices|], a)
  {
    var t := a.read.value;
    var subtotal := Labor(t) + SumReal(t.parts, PriceOf());
    assert subtotal * (1.0 + a.taxRate / 100.0) == subtotal + subtotal * a.taxRate / 100.0;
  }

  predicate AllBilled(invoices: seq<Invoice>, actions: seq<Action>)
  {
    forall i :: 0 <= i < |invoices| ==> Billed(invoices[i], actions)
  }

  lemma StillBilled(before: Invoice, now: Invoice, actions: seq<Action>, a: Action)
    requires InvoiceKept(before, now) && Billed(before, actions)
    ensures Billed(now, actions + [a])
  {
    var k :| 0 <= k < |actions| && BilledBy(before, actions[k]);
    assert BilledBy(now, (actions + [a])[k]);
  }

  lemma StepBilled(shop: Shop, actions: seq<Action>, a: Action)
    requires AllSettled(shop.invoices) && AllBilled(shop.invoices, actions) && OnePerTicket(shop.invoices)
    ensures AllBilled(Next(shop, a).invoices, actions + [a]) && OnePerTicket(Next(shop, a).invoices)
  {
    StepSettled(shop, a);
    var now := Next(shop, a).invoices;
    if a.DoGenerate? && Step(shop, a).Ok? {
      GeneratedIsBilled(shop, a);
    }
    forall i | 0 <= i < |now|
      ensures Billed(now[i], actions + [a])
    {
      if i < |shop.invoices| {
        StillBilled(shop.invoices[i], now[i], actions, a);
      } else {
        assert BilledBy(now[i], (actions + [a])[|actions|]);
      }
    }
  }

  /** In every reachable state each invoice bills the ticket as some action of the run read it,
      whatever has happened to the ticket since, and no two invoices bill one ticket. */
  lemma {:induction false} RunBilled(books: L.Db, actions: seq<Action>)
    ensures AllBilled(Run(books, actions).invoices, actions)
    ensures OnePerTicket(Run(books, actions).invoices)
  {
    if actions == [] {
    } else {
      var init, last := actions[..|actions| - 1], actions[|actions| - 1];
      RunBilled(books, init);
      RunSettled(books, init);
      StepBilled(Run(books, init), init, last);
      assert init + [last] == actions;
    }
  }

  // ---------------------------------------------------------------- invoices and registers

  /** The signed cash entered for invoice `i`. */
  function OfInvoice(i: nat): L.CashTx -> real
  {
    (tx: L.CashTx) => if tx.reference == L.InvoicePayment(i) then L.SignedAmount(tx) else 0.0
  }

  lemma {:induction false} SalePaymentsAside(d: L.Db, register: nat, s: nat, payments: seq<L.Payment>, i: nat)
    requires register < |d.registers|
    ensures SumReal(L.PostPayments(d, register, s, payments).cash, OfInvoice(i)) == SumReal(d.cash, OfInvoice(i))
  {
    if payments == [] {
    } else {
      var init, last := payments[..|payments| - 1], payments[|payments| - 1];
      SalePaymentsAside(d, register, s, init, i);
      var now := L.PostPayments(d, register, s, init);
      if last.via == L.Cash {
        SumRealAppend(now.cash, L.CashTx(register, L.Income, last.amount, L.SalePayment(s)), OfInvoice(i));
      }
    }
  }

  lemma CreateSaleAside(d: L.Db, cart: seq<L.CartItem>, payments: seq<L.Payment>, discount: real, taxRate: real,
                        open: Option<nat>, i: nat)
    requires L.CreateSale(d, cart, payments, discount, taxRate, open).Ok?
    ensures SumReal(L.CreateSale(d, cart, payments, discount, taxRate, open).db.cash, OfInvoice(i)) ==
      SumReal(d.cash, OfInvoice(i))
  {
    var now := L.CreateSale(d, cart, payments, discount, taxRate, open).db;
    if L.HasCash(payments) {
      SalePaymentsAside(d.(parts := now.parts, sales := now.sales), open.value, |d.sales|, payments, i);
    }
  }

  lemma VoidSaleAside(d: L.Db, s: nat, open: Option<nat>, i: nat)
    requires L.VoidSale(d, s, open).Ok?
    ensures SumReal(L.VoidSale(d, s, open).db.cash, OfInvoice(i)) == SumReal(d.cash, OfInvoice(i))
  {
    var refund := L.CashPaid(d.sales[s].payments);
    if L.HasCash(d.sales[s].payments) && refund > 0.0 {
      SumRealAppend(d.cash, L.CashTx(open.value, L.Expense, refund, L.SaleVoid(s)), OfInvoice(i));
    }
  }

  /** Every other action of the ledger leaves the cash of invoices as it is. */
  lemma OtherActionAside(d: L.Db, a: L.Action, i: nat)
    requires LedgerStock.Consistent(d) && !a.DoInvoiceCash?
    ensures SumReal(L.Next(d, a).cash, OfInvoice(i)) == SumReal(d.cash, OfInvoice(i))
  {
    if L.Step(d, a).Fail? {
    } else if a.DoCreateSale? {
      CreateSaleAside(d, a.cart, a.payments, a.discount, a.taxRate, a.open, i);
    } else if a.DoVoidSale? {
      VoidSaleAside(d, a.sale, a.open, i);
    } else if a.DoMoveCash? {
      SumRealAppend(d.cash, L.CashTx(a.register, a.kind, a.amount, L.Free(a.text)), OfInvoice(i));
    } else if !LedgerCash.CashAction(a) {
      LedgerCash.OtherStepUntouched(d, a);
    }
  }

  /** What an action enters for invoice `i` without a payment: the cash entry called on its own. */
  function EnteredAlone(shop: Shop, a: Action, i: nat): real
  {
    if a.DoBooks? && a.action.DoInvoiceCash? && a.action.invoice == i && Step(shop, a).Ok? then a.action.amount
    else 0.0
  }

  function EnteredAloneInRun(books: L.Db, actions: seq<Action>, i: nat): real
  {
    if actions == [] then 0.0
    else
      var init := actions[..|actions| - 1];
      EnteredAloneInRun(books, init, i) + EnteredAlone(Run(books, init), actions[|actions| - 1], i)
  }

  function CashPayments(shop: Shop, i: nat): real
  {
    if i < |shop.invoices| then SumReal(shop.invoices[i].payments, CashOf()) else 0.0
  }

  lemma PaymentCounts(shop: Shop, now: Shop, k: nat, x: Received, i: nat)
    requires k < |shop.invoices| && |now.invoices| == |shop.invoices|
    requires now.invoices == shop.invoices[k := now.invoices[k]]
    requires now.invoices[k].payments == shop.invoices[k].payments + [x]
    ensures CashPayments(now, i) == CashPayments(shop, i) + if k == i && x.cash then x.amount else 0.0
  {
    SumRealAppend(shop.invoices[k].payments, x, CashOf());
  }

  lemma PaymentEntersCash(shop: Shop, a: Action, i: nat)
    requires a.DoPay? && Step(shop, a).Ok?
    ensures SumReal(Next(shop, a).books.cash, OfInvoice(i)) ==
      SumReal(shop.books.cash, OfInvoice(i)) + if a.invoice == i && a.cash then a.amount else 0.0
  {
    if a.cash {
      CashEntered(shop.books, a.invoice, a.amount, a.open, i);
    }
  }

  lemma CashEntered(d: L.Db, invoice: nat, amount: real, open: Option<nat>, i: nat)
    requires L.InvoiceCash(d, invoice, amount, open).Ok?
    ensures SumReal(L.InvoiceCash(d, invoice, amount, open).db.cash, OfInvoice(i)) ==
      SumReal(d.cash, OfInvoice(i)) + if invoice == i then amount else 0.0
  {
    SumRealAppend(d.cash, L.CashTx(open.value, L.Income, amount, L.InvoicePayment(invoice)), OfInvoice(i));
  }

  lemma BooksMatchCash(shop: Shop, a: L.Action, i: nat)
    requires LedgerStock.Consistent(shop.books) && KeepBooks(shop, a).Ok?
    ensures
      var now := KeepBooks(shop, a).shop;
      && now.invoices == shop.invoices
      && SumReal(now.books.cash, OfInvoice(i)) ==
         SumReal(shop.books.cash, OfInvoice(i)) + if a.DoInvoiceCash? && a.invoice == i then a.amount else 0.0
  {
    if a.DoInvoiceCash? {
      CashEntered(shop.books, a.invoice, a.amount, a.open, i);
    } else {
      OtherActionAside(shop.books, a, i);
    }
  }

  lemma StepMatchesCash(shop: Shop, a: Action, i: nat)
    requires LedgerStock.Consistent(shop.books)
    ensures
      var now := Next(shop, a);
      SumReal(now.books.cash, OfInvoice(i)) - CashPayments(now, i) ==
        SumReal(shop.books.cash, OfInvoice(i)) - CashPayments(shop, i) + EnteredAlone(shop, a, i)
  {
    if Step(shop, a).Fail? {
    } else if a.DoPay? {
      PaymentEntersCash(shop, a, i);
      PaymentCounts(shop, Next(shop, a), a.invoice, Received(a.amount, a.cash), i);
    } else if a.DoBooks? {
      BooksMatchCash(shop, a.action, i);
    }
  }

  /** The actions of the ledger behind a step: its own, or the cash entry of a payment. */
  function Posted(shop: Shop, a: Action): seq<L.Action>
  {
    if Step(shop, a).Fail? then []
    else if a.DoBooks? then [a.action]
    else if a.DoPay? && a.cash then [L.DoInvoiceCash(a.invoice, a.amount, a.open)]
    else []
  }

  function PostedInRun(books: L.Db, actions: seq<Action>): seq<L.Action>
  {
    if actions == [] then []
    else
      var init := actions[..|actions| - 1];
      PostedInRun(books, init) + Posted(Run(books, init), actions[|actions| - 1])
  }

  lemma StepPosted(shop: Shop, a: Action)
    ensures |Posted(shop, a)| <= 1
    ensures Next(shop, a).books ==
      if Posted(shop, a) == [] then shop.books else L.Next(shop.books, Posted(shop, a)[0])
  {
  }

  lemma PostedOnce(d: L.Db, before: seq<L.Action>, now: seq<L.Action>)
    requires |now| <= 1
    ensures L.Run(d, before + now) == if now == [] then L.Run(d, before) else L.Next(L.Run(d, before), now[0])
  {
    if now == [] {
      assert before + now == before;
    } else {
      assert (before + now)[..|before|] == before;
    }
  }

  /** The books of every run are those of a run of the ledger alone, so whatever holds of every run of
      the ledger holds of them. */
  lemma {:induction false} BooksAreALedgerRun(books: L.Db, actions: seq<Action>)
    ensures Run(books, actions).books == L.Run(books, PostedInRun(books, actions))
  {
    if actions == [] {
    } else {
      var init, last := actions[..|actions| - 1], actions[|actions| - 1];
      var before, posted := Run(books, init), Posted(Run(books, init), last);
      BooksAreALedgerRun(books, init);
      StepPosted(before, last);
      PostedOnce(books, PostedInRun(books, init), posted);
      assert PostedInRun(books, actions) == PostedInRun(books, init) + posted;
    }
  }

  /** In every reachable state the income entered in registers for an invoice is the sum of its CASH
      payments, plus what was entered for it on its own; without such entries the two are equal. */
  lemma {:induction false} CashMatchesPayments(books: L.Db, actions: seq<Action>, i: nat)
    requires L.Fresh(books)
    ensures
      var now := Run(books, actions);
      SumReal(now.books.cash, OfInvoice(i)) == CashPayments(now, i) + EnteredAloneInRun(books, actions, i)
    ensures (forall k :: 0 <= k < |actions| ==> !(actions[k].DoBooks? && actions[k].action.DoInvoiceCash?)) ==>
      EnteredAloneInRun(books, actions, i) == 0.0
  {
    if actions == [] {
    } else {
      var init := actions[..|actions| - 1];
      CashMatchesPayments(books, init, i);
      assert forall k :: 0 <= k < |init| ==> init[k] == actions[k];
      BooksAreALedgerRun(books, init);
      LedgerStock.RunConsistent(books, PostedInRun(books, init));
      StepMatchesCash(Run(books, init), actions[|actions| - 1], i);
    }
  }

  // ---------------------------------------------------------------- the pending total

  lemma {:induction false} PendingIsRemainder(invoices: seq<Invoice>)
    ensures SumReal(invoices, TotalOf()) - SumReal(invoices, PaidOf()) == SumReal(invoices, RemainderOf())
  {
    if invoices == [] {
    } else {
      PendingIsRemainder(invoices[..|invoices| - 1]);
    }
  }

  /** The pending total of the statistics is the sum of what is left of each invoice; it is not
      negative when no invoice total is. */
  lemma PendingTotal(books: L.Db, actions: seq<Action>)
    ensures
      var now := Run(books, actions).invoices;
      var pending := SumReal(now, TotalOf()) - SumReal(now, PaidOf());
      && pending == SumReal(now, RemainderOf())
      && ((forall i :: 0 <= i < |now| ==> now[i].total >= 0.0) ==> pending >= 0.0)
  {
    var now := Run(books, actions).invoices;
    RunSettled(books, actions);
    PendingIsRemainder(now);
    if forall i :: 0 <= i < |now| ==> now[i].total >= 0.0 {
      forall i | 0 <= i < |now|
        ensures RemainderOf()(now[i]) >= 0.0
      {
        assert Settled(now[i]);
      }
      SumRealNonNegative(now, RemainderOf());
    }
  }
}
