/** The commerce ledger: the rows that the sale, return, quotation, purchase, ticket-part
    and cash-register actions touch, and each action as one atomic step on them.
    Every step either fails and leaves the rows as they were or yields the new rows. */
module Ledger {
  import opened Sums
  import opened Inventory

  // ---------------------------------------------------------------- rows

  datatype Method = Cash | Card | Transfer | Check | Other

  datatype Payment = Payment(via: Method, amount: real)

  datatype Totals = Totals(subtotal: real, discount: real, tax: real, total: real)

  datatype SaleStatus = Completed | Voided | PartiallyRefunded | FullyRefunded

  datatype Sale = Sale(
    lines: seq<Line>, payments: seq<Payment>, totals: Totals, taxRate: real, change: real,
    status: SaleStatus, quotation: Option<nat>)

  datatype NoteStatus = Pending | Processed | NoteCancelled

  datatype Note = Note(sale: nat, lines: seq<Line>, total: real, status: NoteStatus)

  datatype QuotationStatus = Draft | Sent | Accepted | Rejected | Expired | Converted | Cancelled

  datatype Quotation = Quotation(
    lines: seq<Line>, totals: Totals, taxRate: real, validUntil: int, status: QuotationStatus)

  datatype Order = Order(lines: seq<Line>, received: bool)

  datatype Usage = Usage(ticket: nat, part: PartId, qty: int, approved: bool)

  datatype Register = Register(
    name: string, isOpen: bool, opening: real, closing: real, expected: real, difference: real)

  datatype CashKind = Income | Expense | Withdrawal

  /** What a cash movement refers to: the automatic ones of a sale or an invoice, or a free text. */
  datatype Reference = SalePayment(sale: nat) | SaleVoid(sale: nat) | InvoicePayment(invoice: nat) | Free(text: string)

  datatype CashTx = CashTx(register: nat, kind: CashKind, amount: real, reference: Reference)

  /** The AFTER triggers present on the ticket-part table: the unconditional one and the
      one that looks at the approval flag. Migrating an empty database installs both. */
  datatype Triggers = Triggers(legacy: bool, sync: bool)

  /** Deleted quotations and ticket parts leave a None behind, so ids are never reused. Of the
      status of a ticket only whether it is CANCELLED matters here. */
  datatype Db = Db(
    parts: Parts, sales: seq<Sale>, notes: seq<Note>, quotations: seq<Option<Quotation>>,
    orders: seq<Order>, usages: seq<Option<Usage>>, cancelled: set<nat>, registers: seq<Register>,
    cash: seq<CashTx>, triggers: Triggers)

  datatype Error =
    | InvalidInput | NotFound | PartNotFound | InsufficientStock(part: PartId) | TriggerRaised
    | Underpaid | PaymentMismatch | NoOpenRegister | NotCompleted | HasCreditNotes | SaleIsVoided
    | NotInSale(part: PartId) | ExceedsAvailable(part: PartId) | NotPending | BadTransition
    | NotAccepted | NotDraft | NothingPending | AlreadyCancelled | RegisterClosed | NameInUse | TemplateInactive

  datatype Outcome = Ok(db: Db) | Fail(error: Error)

  // ---------------------------------------------------------------- carts and totals

  datatype CartItem = CartItem(part: PartId, qty: int)

  predicate PositiveCart(cart: seq<CartItem>)
  {
    forall i :: 0 <= i < |cart| ==> cart[i].qty >= 1
  }

  predicate DistinctCart(cart: seq<CartItem>)
  {
    forall i, j :: 0 <= i < j < |cart| ==> cart[i].part != cart[j].part
  }

  function PartIds(lines: seq<Line>): seq<PartId>
  {
    seq(|lines|, i requires 0 <= i < |lines| => lines[i].part)
  }

  function CartIds(cart: seq<CartItem>): seq<PartId>
  {
    seq(|cart|, i requires 0 <= i < |cart| => cart[i].part)
  }

  /** SELECT ... WHERE id IN (ids): each existing part once. */
  function FindParts(parts: Parts, ids: seq<PartId>): set<PartId>
  {
    set p | p in ids && p in parts
  }

  function Priced(parts: Parts, cart: seq<CartItem>): seq<Line>
    requires forall i :: 0 <= i < |cart| ==> cart[i].part in parts
  {
    seq(|cart|, i requires 0 <= i < |cart| => Line(cart[i].part, cart[i].qty, parts[cart[i].part].price, 0.0))
  }

  /** The first cart item whose part has too little stock. */
  function FirstShort(parts: Parts, lines: seq<Line>): Option<PartId>
  {
    if lines == [] then None
    else
      var last := lines[|lines| - 1];
      match FirstShort(parts, lines[..|lines| - 1])
      case Some(p) => Some(p)
      case None =>
        if last.part in parts && parts[last.part].stock < last.qty then Some(last.part) else None
  }

  function Amount(lines: seq<Line>): real
  {
    if lines == [] then 0.0
    else
      var last := lines[|lines| - 1];
      Amount(lines[..|lines| - 1]) + last.price * last.qty as real
  }

  /** As Amount, after the percentage discount of each line. */
  function DiscountedAmount(lines: seq<Line>): real
  {
    if lines == [] then 0.0
    else
      var last := lines[|lines| - 1];
      var gross := last.price * last.qty as real;
      DiscountedAmount(lines[..|lines| - 1]) + (gross - gross * (last.discount / 100.0))
  }

  function SaleTotals(subtotal: real, discount: real, taxRate: real): Totals
  {
    var taxable := subtotal - discount;
    var tax := taxable * taxRate / 100.0;
    Totals(subtotal, discount, tax, taxable + tax)
  }

  function QuotationTotals(subtotal: real, globalDiscount: real, taxRate: real): Totals
  {
    var discount := subtotal * (globalDiscount / 100.0);
    var taxable := subtotal - discount;
    var tax := taxable * (taxRate / 100.0);
    Totals(subtotal, discount, tax, taxable + tax)
  }

  function NoteTotal(subtotal: real, taxRate: real): real
  {
    subtotal + subtotal * (taxRate / 100.0)
  }

  function Abs(x: real): real
  {
    if x < 0.0 then -x else x
  }

  // ---------------------------------------------------------------- payments and cash

  function Amounts(): Payment -> real
  {
    (p: Payment) => p.amount
  }

  function CashAmounts(): Payment -> real
  {
    (p: Payment) => if p.via == Cash then p.amount else 0.0
  }

  function Paid(payments: seq<Payment>): real
  {
    SumReal(payments, Amounts())
  }

  function CashPaid(payments: seq<Payment>): real
  {
    SumReal(payments, CashAmounts())
  }

  predicate HasCash(payments: seq<Payment>)
  {
    exists i :: 0 <= i < |payments| && payments[i].via == Cash
  }

  /** The answer of a search for an open register: one of the open ones, or none. */
  predicate FindsOpen(registers: seq<Register>, answer: Option<nat>)
  {
    match answer
    case Some(r) => r < |registers| && registers[r].isOpen
    case None => forall i :: 0 <= i < |registers| ==> !registers[i].isOpen
  }

  function SignedAmount(tx: CashTx): real
  {
    if tx.kind == Income then tx.amount else -tx.amount
  }

  /** A cash movement, with the trigger that keeps the register's expected balance. */
  function PostCash(d: Db, tx: CashTx): Db
    requires tx.register < |d.registers|
  {
    var r := d.registers[tx.register];
    d.(cash := d.cash + [tx],
       registers := d.registers[tx.register := r.(expected := r.expected + SignedAmount(tx))])
  }

  /** One income movement per cash payment of sale `s`. */
  function PostPayments(d: Db, register: nat, s: nat, payments: seq<Payment>): (now: Db)
    requires register < |d.registers|
    ensures |now.registers| == |d.registers|
    ensures now == d.(cash := now.cash, registers := now.registers)
  {
    if payments == [] then d
    else
      var last := payments[|payments| - 1];
      var now := PostPayments(d, register, s, payments[..|payments| - 1]);
      if last.via == Cash then PostCash(now, CashTx(register, Income, last.amount, SalePayment(s))) else now
  }

  // ---------------------------------------------------------------- sales

  predicate ValidPayments(payments: seq<Payment>)
  {
    payments != [] && forall i :: 0 <= i < |payments| ==> payments[i].amount > 0.0
  }

  /** The bounds of the sale schema. */
  predicate ValidSale(cart: seq<CartItem>, payments: seq<Payment>, discount: real, taxRate: real)
  {
    cart != [] && PositiveCart(cart) && ValidPayments(payments) && discount >= 0.0 && 0.0 <= taxRate <= 100.0
  }

  function CreateSale(d: Db, cart: seq<CartItem>, payments: seq<Payment>, discount: real, taxRate: real,
                      open: Option<nat>): Outcome
  {
    if !ValidSale(cart, payments, discount, taxRate) || !FindsOpen(d.registers, open) then
      Fail(InvalidInput)
    else if |FindParts(d.parts, CartIds(cart))| != |cart| then Fail(PartNotFound)
    else
      CartFound(d.parts, cart);
      var lines := Priced(d.parts, cart);
      var totals := SaleTotals(Amount(lines), discount, taxRate);
      if FirstShort(d.parts, lines).Some? then Fail(InsufficientStock(FirstShort(d.parts, lines).value))
      else if Paid(payments) < totals.total then Fail(Underpaid)
      else if HasCash(payments) && open == None then Fail(NoOpenRegister)
      else
        match SellLines(d.parts, lines)
        case None => Fail(TriggerRaised)
        case Some(parts) =>
          var sale := Sale(lines, payments, totals, taxRate, Paid(payments) - totals.total, Completed, None);
          var sold := d.(parts := parts, sales := d.sales + [sale]);
          Ok(if HasCash(payments) then PostPayments(sold, open.value, |d.sales|, payments) else sold)
  }

  /** The length test on the found parts passes exactly for carts of existing, distinct parts. */
  lemma CartFound(parts: Parts, cart: seq<CartItem>)
    ensures |FindParts(parts, CartIds(cart))| == |cart| <==>
      DistinctCart(cart) && forall i :: 0 <= i < |cart| ==> cart[i].part in parts
  {
    FoundExactly(parts, CartIds(cart));
    var ids := CartIds(cart);
    assert forall i :: 0 <= i < |cart| ==> ids[i] == cart[i].part;
  }

  lemma FoundOneMore(parts: Parts, ids: seq<PartId>, last: PartId)
    ensures
      var found := FindParts(parts, ids);
      |FindParts(parts, ids + [last])| == |found| + if last in parts && last !in ids then 1 else 0
  {
    var found := FindParts(parts, ids);
    if last in parts && last !in ids {
      assert FindParts(parts, ids + [last]) == found + {last} && last !in found;
    } else {
      assert FindParts(parts, ids + [last]) == found;
    }
  }

  predicate AllDistinct(ids: seq<PartId>)
  {
    forall i, j :: 0 <= i < j < |ids| ==> ids[i] != ids[j]
  }

  lemma {:induction false} FoundExactly(parts: Parts, ids: seq<PartId>)
    ensures |FindParts(parts, ids)| <= |ids|
    ensures |FindParts(parts, ids)| == |ids| <==>
      AllDistinct(ids) && forall i :: 0 <= i < |ids| ==> ids[i] in parts
  {
    if ids == [] {
    } else {
      var n := |ids| - 1;
      var init, last := ids[..n], ids[n];
      FoundExactly(parts, init);
      FoundOneMore(parts, init, last);
      assert ids == init + [last];
      assert AllDistinct(ids) <==> AllDistinct(init) && last !in init;
    }
  }

  predicate HasNote(d: Db, s: nat)
  {
    exists i :: 0 <= i < |d.notes| && d.notes[i].sale == s
  }

  function VoidSale(d: Db, s: nat, open: Option<nat>): Outcome
  {
    if !FindsOpen(d.registers, open) then Fail(InvalidInput)
    else if s >= |d.sales| then Fail(NotFound)
    else if d.sales[s].status != Completed then Fail(NotCompleted)
    else if HasNote(d, s) then Fail(HasCreditNotes)
    else
      var sale := d.sales[s];
      if HasCash(sale.payments) && open == None then Fail(NoOpenRegister)
      else
        var voided := d.(parts := MoveLines(d.parts, sale.lines, In),
                         sales := d.sales[s := sale.(status := Voided)]);
        var refund := CashPaid(sale.payments);
        Ok(if HasCash(sale.payments) && refund > 0.0
           then PostCash(voided, CashTx(open.value, Expense, refund, SaleVoid(s)))
           else voided)
  }

  // ---------------------------------------------------------------- credit notes

  /** What non-cancelled notes of sale `s` take back of part `p`. */
  function ReturnedOf(s: nat, p: PartId): Note -> int
  {
    (n: Note) => if n.sale == s && n.status != NoteCancelled then Qty(n.lines, p) else 0
  }

  function NoteAmountOf(s: nat): Note -> real
  {
    (n: Note) => if n.sale == s && n.status != NoteCancelled then n.total else 0.0
  }

  function Returned(d: Db, s: nat, p: PartId): int
  {
    SumInt(d.notes, ReturnedOf(s, p))
  }

  function Refunded(d: Db, s: nat): real
  {
    SumReal(d.notes, NoteAmountOf(s))
  }

  /** The first line of part `p`. */
  function FindLine(lines: seq<Line>, p: PartId): (i: Option<nat>)
    ensures i.Some? ==> i.value < |lines| && lines[i.value].part == p
    ensures i.None? ==> forall j :: 0 <= j < |lines| ==> lines[j].part != p
  {
    if lines == [] then None
    else
      var n := |lines| - 1;
      match FindLine(lines[..n], p)
      case Some(j) => Some(j)
      case None => if lines[n].part == p then Some(n) else None
  }

  /** The first line that the return check refuses. */
  function ReturnError(d: Db, s: nat, lines: seq<Line>): Option<Error>
    requires s < |d.sales|
  {
    if lines == [] then None
    else
      var last := lines[|lines| - 1];
      match ReturnError(d, s, lines[..|lines| - 1])
      case Some(e) => Some(e)
      case None =>
        match FindLine(d.sales[s].lines, last.part)
        case None => Some(NotInSale(last.part))
        case Some(i) =>
          if last.qty > d.sales[s].lines[i].qty - Returned(d, s, last.part)
          then Some(ExceedsAvailable(last.part)) else None
  }

  function StatusAfterReturn(status: SaleStatus, refunded: real, total: real): SaleStatus
  {
    if Abs(refunded - total) < 0.01 then FullyRefunded
    else if refunded > 0.0 then PartiallyRefunded
    else status
  }

  predicate ValidReturn(lines: seq<Line>)
  {
    lines != [] && Positive(lines) && forall i :: 0 <= i < |lines| ==> lines[i].price >= 0.0
  }

  function CreateNote(d: Db, s: nat, lines: seq<Line>): Outcome
  {
    if !ValidReturn(lines) then Fail(InvalidInput)
    else if s >= |d.sales| then Fail(NotFound)
    else if d.sales[s].status == Voided then Fail(SaleIsVoided)
    else
      match ReturnError(d, s, lines)
      case Some(e) => Fail(e)
      case None =>
        var sale := d.sales[s];
        var noted := d.(
          parts := MoveLines(d.parts, lines, In),
          notes := d.notes + [Note(s, lines, NoteTotal(Amount(lines), sale.taxRate), Pending)]);
        var status := StatusAfterReturn(sale.status, Refunded(noted, s), sale.totals.total);
        Ok(noted.(sales := d.sales[s := sale.(status := status)]))
  }

  function CancelNote(d: Db, n: nat): Outcome
  {
    if n >= |d.notes| || d.notes[n].sale >= |d.sales| then Fail(NotFound)
    else if d.notes[n].status != Pending then Fail(NotPending)
    else
      var note := d.notes[n];
      var cancelled := d.(
        parts := MoveLines(d.parts, note.lines, Out),
        notes := d.notes[n := note.(status := NoteCancelled)]);
      var status := if Refunded(cancelled, note.sale) > 0.0 then PartiallyRefunded else Completed;
      Ok(cancelled.(sales := d.sales[note.sale := d.sales[note.sale].(status := status)]))
  }

  function ProcessRefund(d: Db, n: nat): Outcome
  {
    if n >= |d.notes| then Fail(NotFound)
    else if d.notes[n].status != Pending then Fail(NotPending)
    else Ok(d.(notes := d.notes[n := d.notes[n].(status := Processed)]))
  }

  // ---------------------------------------------------------------- quotations

  predicate ValidQuotation(lines: seq<Line>, globalDiscount: real)
  {
    && lines != [] && Positive(lines) && 0.0 <= globalDiscount <= 100.0
    && forall i :: 0 <= i < |lines| ==> lines[i].price >= 0.0 && 0.0 <= lines[i].discount <= 100.0
  }

  function CreateQuotation(d: Db, lines: seq<Line>, globalDiscount: real, taxRate: real, validUntil: int): Outcome
  {
    if !ValidQuotation(lines, globalDiscount) then Fail(InvalidInput)
    else if |FindParts(d.parts, PartIds(lines))| != |lines| then Fail(PartNotFound)
    else
      var totals := QuotationTotals(DiscountedAmount(lines), globalDiscount, taxRate);
      Ok(d.(quotations := d.quotations + [Some(Quotation(lines, totals, taxRate, validUntil, Draft))]))
  }

  predicate Allowed(now: QuotationStatus, next: QuotationStatus)
  {
    match now
    case Draft => next in {Sent, Cancelled}
    case Sent => next in {Accepted, Rejected, Expired, Cancelled}
    case Accepted => next in {Converted, Cancelled}
    case _ => false
  }

  predicate QuotationExists(d: Db, q: nat)
  {
    q < |d.quotations| && d.quotations[q].Some?
  }

  function SetQuotationStatus(d: Db, q: nat, status: QuotationStatus): Outcome
  {
    if !QuotationExists(d, q) then Fail(NotFound)
    else if !Allowed(d.quotations[q].value.status, status) then Fail(BadTransition)
    else Ok(d.(quotations := d.quotations[q := Some(d.quotations[q].value.(status := status))]))
  }

  predicate ValidConversion(payments: seq<Payment>)
  {
    payments != [] && forall i :: 0 <= i < |payments| ==> payments[i].amount >= 0.0
  }

  function ConvertQuotation(d: Db, q: nat, payments: seq<Payment>): Outcome
  {
    if !ValidConversion(payments) then Fail(InvalidInput)
    else if !QuotationExists(d, q) then Fail(NotFound)
    else
      var quotation := d.quotations[q].value;
      if quotation.status != Accepted then Fail(NotAccepted)
      else if FirstShort(d.parts, quotation.lines).Some? then
        Fail(InsufficientStock(FirstShort(d.parts, quotation.lines).value))
      else if Abs(Paid(payments) - quotation.totals.total) > 0.01 then Fail(PaymentMismatch)
      else
        match SellLines(d.parts, quotation.lines)
        case None => Fail(TriggerRaised)
        case Some(parts) =>
          var sale := Sale(quotation.lines, payments, quotation.totals, quotation.taxRate, 0.0, Completed, Some(q));
          Ok(d.(parts := parts, sales := d.sales + [sale],
                quotations := d.quotations[q := Some(quotation.(status := Converted))]))
  }

  function DuplicateQuotation(d: Db, q: nat, validUntil: int): Outcome
  {
    if !QuotationExists(d, q) then Fail(NotFound)
    else
      var copy := d.quotations[q].value.(validUntil := validUntil, status := Draft);
      Ok(d.(quotations := d.quotations + [Some(copy)]))
  }

  function DeleteQuotation(d: Db, q: nat): Outcome
  {
    if !QuotationExists(d, q) then Fail(NotFound)
    else if d.quotations[q].value.status != Draft then Fail(NotDraft)
    else Ok(d.(quotations := d.quotations[q := None]))
  }

  predicate Expires(status: QuotationStatus, validUntil: int, now: int)
  {
    status in {Draft, Sent} && validUntil < now
  }

  function ExpireOne(q: Option<Quotation>, now: int): Option<Quotation>
  {
    if q.Some? && Expires(q.value.status, q.value.validUntil, now) then Some(q.value.(status := Expired)) else q
  }

  function ExpireQuotations(d: Db, now: int): Outcome
  {
    Ok(d.(quotations := seq(|d.quotations|, i requires 0 <= i < |d.quotations| => ExpireOne(d.quotations[i], now))))
  }

  // ---------------------------------------------------------------- purchases

  function CreateOrder(d: Db): Outcome
  {
    Ok(d.(orders := d.orders + [Order([], false)]))
  }

  function AddOrderLine(d: Db, o: nat, line: Line): Outcome
  {
    if line.qty <= 0 || line.price < 0.0 then Fail(InvalidInput)
    else if o >= |d.orders| || d.orders[o].received || line.part !in d.parts then Fail(NotFound)
    else Ok(d.(orders := d.orders[o := d.orders[o].(lines := d.orders[o].lines + [line])]))
  }

  function ReceiveOrder(d: Db, o: nat): Outcome
  {
    if o >= |d.orders| then Fail(NotFound)
    else if d.orders[o].received then Fail(NotPending)
    else Ok(d.(parts := ReceiveLines(d.parts, d.orders[o].lines),
               orders := d.orders[o := d.orders[o].(received := true)]))
  }

  // ---------------------------------------------------------------- parts used on tickets

  /** INSERT of a ticket part: the stock guard, then the approval trigger, then the older one. */
  function InsertUsage(d: Db, u: Usage): Option<Db>
  {
    if u.part !in d.parts || d.parts[u.part].stock - u.qty < 0 then None
    else
      var synced := if d.triggers.sync && u.approved then AddStock(d.parts, u.part, -u.qty) else d.parts;
      var parts := if d.triggers.legacy then AddStock(synced, u.part, -u.qty) else synced;
      Some(d.(parts := parts, usages := d.usages + [Some(u)]))
  }

  /** Each item is checked against the stock at its turn, then inserted. */
  function ConsumeItems(d: Db, ticket: nat, items: seq<CartItem>, approved: bool): (r: Option<Db>)
    ensures r.Some? ==> r.value == d.(parts := r.value.parts, usages := r.value.usages)
  {
    if items == [] then Some(d)
    else
      var last := items[|items| - 1];
      match ConsumeItems(d, ticket, items[..|items| - 1], approved)
      case None => None
      case Some(now) =>
        if last.part !in now.parts || now.parts[last.part].stock < last.qty then None
        else InsertUsage(now, Usage(ticket, last.part, last.qty, approved))
  }

  function ConsumeParts(d: Db, ticket: nat, items: seq<CartItem>, approved: bool): Outcome
  {
    if !PositiveCart(items) then Fail(InvalidInput)
    else
      match ConsumeItems(d, ticket, items, approved)
      case None => Fail(TriggerRaised)
      case Some(now) => Ok(now)
  }

  function ProposePart(d: Db, ticket: nat, item: CartItem): Outcome
  {
    if item.qty <= 0 then Fail(InvalidInput)
    else if item.part !in d.parts then Fail(PartNotFound)
    else
      match InsertUsage(d, Usage(ticket, item.part, item.qty, false))
      case None => Fail(TriggerRaised)
      case Some(now) => Ok(now)
  }

  predicate Selected(u: Option<Usage>, ticket: nat, pendingOnly: bool)
  {
    u.Some? && u.value.ticket == ticket && (pendingOnly ==> !u.value.approved)
  }

  /** UPDATE of the approval flag: only the approval trigger moves stock, and it raises on shortage. */
  function ApproveUsage(d: Db, i: nat): Option<Db>
    requires i < |d.usages| && d.usages[i].Some?
  {
    var u := d.usages[i].value;
    if d.triggers.sync && (u.part !in d.parts || d.parts[u.part].stock < u.qty) then None
    else
      Some(d.(parts := if d.triggers.sync then AddStock(d.parts, u.part, -u.qty) else d.parts,
              usages := d.usages[i := Some(u.(approved := true))]))
  }

  /** Approves the pending ones among the first `n` ticket parts. */
  function ApproveFirst(d: Db, ticket: nat, n: nat): (r: Option<Db>)
    requires n <= |d.usages|
    ensures r.Some? ==> |r.value.usages| == |d.usages|
    ensures r.Some? ==> r.value == d.(parts := r.value.parts, usages := r.value.usages)
  {
    if n == 0 then Some(d)
    else
      match ApproveFirst(d, ticket, n - 1)
      case None => None
      case Some(now) => if Selected(now.usages[n - 1], ticket, true) then ApproveUsage(now, n - 1) else Some(now)
  }

  predicate HasPending(d: Db, ticket: nat)
  {
    exists i :: 0 <= i < |d.usages| && Selected(d.usages[i], ticket, true)
  }

  function ApproveParts(d: Db, ticket: nat): Outcome
  {
    if !HasPending(d, ticket) then Fail(NothingPending)
    else
      match ApproveFirst(d, ticket, |d.usages|)
      case None => Fail(TriggerRaised)
      case Some(now) => Ok(now)
  }

  /** DELETE of a ticket part: each trigger gives back what it took. */
  function DeleteUsage(d: Db, i: nat): Db
    requires i < |d.usages| && d.usages[i].Some?
  {
    var u := d.usages[i].value;
    var synced := if d.triggers.sync && u.approved then AddStock(d.parts, u.part, u.qty) else d.parts;
    var parts := if d.triggers.legacy then AddStock(synced, u.part, u.qty) else synced;
    d.(parts := parts, usages := d.usages[i := None])
  }

  function DeleteFirst(d: Db, ticket: nat, pendingOnly: bool, n: nat): (r: Db)
    requires n <= |d.usages|
    ensures |r.usages| == |d.usages| && r == d.(parts := r.parts, usages := r.usages)
  {
    if n == 0 then d
    else
      var now := DeleteFirst(d, ticket, pendingOnly, n - 1);
      if Selected(now.usages[n - 1], ticket, pendingOnly) then DeleteUsage(now, n - 1) else now
  }

  /** The ticket of rejected parts becomes REJECTED. */
  function RejectParts(d: Db, ticket: nat): Outcome
  {
    if !HasPending(d, ticket) then Fail(NothingPending)
    else Ok(DeleteFirst(d, ticket, true, |d.usages|).(cancelled := d.cancelled - {ticket}))
  }

  /** Cancelling a ticket as a status update: its parts are deleted, unless it is cancelled already. */
  function CancelTicketParts(d: Db, ticket: nat): Outcome
  {
    if ticket in d.cancelled then Ok(d)
    else Ok(DeleteFirst(d, ticket, false, |d.usages|).(cancelled := d.cancelled + {ticket}))
  }

  /** One increment per ticket part among the first `n`, approved or not; the rows stay. */
  function GiveBackFirst(d: Db, ticket: nat, n: nat): Parts
    requires n <= |d.usages|
  {
    if n == 0 then d.parts
    else
      var parts := GiveBackFirst(d, ticket, n - 1);
      if Selected(d.usages[n - 1], ticket, false)
      then AddStock(parts, d.usages[n - 1].value.part, d.usages[n - 1].value.qty) else parts
  }

  /** Cancelling a ticket as a ticket action: stock is given back, but the ticket parts are kept. */
  function CancelByAction(d: Db, ticket: nat): Outcome
  {
    if ticket in d.cancelled then Fail(AlreadyCancelled)
    else Ok(d.(parts := GiveBackFirst(d, ticket, |d.usages|), cancelled := d.cancelled + {ticket}))
  }

  /** Any other change of a ticket's status: reopening, the other ticket actions, bulk updates. */
  function MarkTicket(d: Db, ticket: nat, cancelled: bool): Outcome
  {
    Ok(d.(cancelled := if cancelled then d.cancelled + {ticket} else d.cancelled - {ticket}))
  }

  function RemovePart(d: Db, i: nat): Outcome
  {
    if i >= |d.usages| || d.usages[i].None? then Fail(NotFound) else Ok(DeleteUsage(d, i))
  }

  // ---------------------------------------------------------------- cash registers

  function OpenRegister(d: Db, name: string, opening: real): Outcome
  {
    if name == "" || opening < 0.0 then Fail(InvalidInput)
    else if exists i :: 0 <= i < |d.registers| && d.registers[i].isOpen && d.registers[i].name == name
    then Fail(NameInUse)
    else Ok(d.(registers := d.registers + [Register(name, true, opening, 0.0, 0.0, 0.0)]))
  }

  function MoveCash(d: Db, r: nat, kind: CashKind, amount: real, text: string): Outcome
  {
    if amount <= 0.0 then Fail(InvalidInput)
    else if r >= |d.registers| then Fail(NotFound)
    else if !d.registers[r].isOpen then Fail(RegisterClosed)
    else Ok(PostCash(d, CashTx(r, kind, amount, Free(text))))
  }

  /** The cash entry of an invoice payment, into whichever open register is found. */
  function InvoiceCash(d: Db, invoice: nat, amount: real, open: Option<nat>): Outcome
  {
    if !FindsOpen(d.registers, open) then Fail(InvalidInput)
    else if open == None then Fail(NoOpenRegister)
    else Ok(PostCash(d, CashTx(open.value, Income, amount, InvoicePayment(invoice))))
  }

  function KindOf(r: nat, kind: CashKind): CashTx -> real
  {
    (tx: CashTx) => if tx.register == r && tx.kind == kind then tx.amount else 0.0
  }

  function OutOf(r: nat): CashTx -> real
  {
    (tx: CashTx) => if tx.register == r && tx.kind != Income then tx.amount else 0.0
  }

  /** The balance formula of closing: opening + income - (expenses and withdrawals together). */
  function ClosingBalance(d: Db, r: nat): real
    requires r < |d.registers|
  {
    d.registers[r].opening + SumReal(d.cash, KindOf(r, Income)) - SumReal(d.cash, OutOf(r))
  }

  function CloseRegister(d: Db, r: nat, counted: real): Outcome
  {
    if counted < 0.0 then Fail(InvalidInput)
    else if r >= |d.registers| then Fail(NotFound)
    else if !d.registers[r].isOpen then Fail(RegisterClosed)
    else
      var expected := ClosingBalance(d, r);
      Ok(d.(registers := d.registers[r := d.registers[r].(
              isOpen := false, closing := counted, expected := expected, difference := counted - expected)]))
  }

  // ---------------------------------------------------------------- the machine

  datatype Action =
    | DoCreateSale(cart: seq<CartItem>, payments: seq<Payment>, discount: real, taxRate: real, open: Option<nat>)
    | DoVoidSale(sale: nat, open: Option<nat>)
    | DoCreateNote(sale: nat, lines: seq<Line>)
    | DoCancelNote(note: nat)
    | DoProcessRefund(note: nat)
    | DoCreateQuotation(lines: seq<Line>, globalDiscount: real, taxRate: real, validUntil: int)
    | DoSetQuotationStatus(quotation: nat, status: QuotationStatus)
    | DoConvertQuotation(quotation: nat, payments: seq<Payment>)
    | DoDuplicateQuotation(quotation: nat, validUntil: int)
    | DoDeleteQuotation(quotation: nat)
    | DoExpireQuotations(now: int)
    | DoCreateOrder
    | DoAddOrderLine(order: nat, line: Line)
    | DoReceiveOrder(order: nat)
    | DoConsumeParts(ticket: nat, items: seq<CartItem>, approved: bool)
    | DoProposePart(ticket: nat, item: CartItem)
    | DoApproveParts(ticket: nat)
    | DoRejectParts(ticket: nat)
    | DoCancelTicketParts(ticket: nat)
    | DoCancelByAction(ticket: nat)
    | DoMarkTicket(ticket: nat, cancelled: bool)
    | DoRemovePart(usage: nat)
    | DoOpenRegister(name: string, opening: real)
    | DoMoveCash(register: nat, kind: CashKind, amount: real, text: string)
    | DoInvoiceCash(invoice: nat, amount: real, open: Option<nat>)
    | DoCloseRegister(register: nat, counted: real)

  function Step(d: Db, a: Action): Outcome
  {
    match a
    case DoCreateSale(cart, payments, discount, taxRate, open) => CreateSale(d, cart, payments, discount, taxRate, open)
    case DoVoidSale(s, open) => VoidSale(d, s, open)
    case DoCreateNote(s, lines) => CreateNote(d, s, lines)
    case DoCancelNote(n) => CancelNote(d, n)
    case DoProcessRefund(n) => ProcessRefund(d, n)
    case DoCreateQuotation(lines, globalDiscount, taxRate, validUntil) =>
      CreateQuotation(d, lines, globalDiscount, taxRate, validUntil)
    case DoSetQuotationStatus(q, status) => SetQuotationStatus(d, q, status)
    case DoConvertQuotation(q, payments) => ConvertQuotation(d, q, payments)
    case DoDuplicateQuotation(q, validUntil) => DuplicateQuotation(d, q, validUntil)
    case DoDeleteQuotation(q) => DeleteQuotation(d, q)
    case DoExpireQuotations(now) => ExpireQuotations(d, now)
    case DoCreateOrder => CreateOrder(d)
    case DoAddOrderLine(o, line) => AddOrderLine(d, o, line)
    case DoReceiveOrder(o) => ReceiveOrder(d, o)
    case DoConsumeParts(t, items, approved) => ConsumeParts(d, t, items, approved)
    case DoProposePart(t, item) => ProposePart(d, t, item)
    case DoApproveParts(t) => ApproveParts(d, t)
    case DoRejectParts(t) => RejectParts(d, t)
    case DoCancelTicketParts(t) => CancelTicketParts(d, t)
    case DoCancelByAction(t) => CancelByAction(d, t)
    case DoMarkTicket(t, cancelled) => MarkTicket(d, t, cancelled)
    case DoRemovePart(u) => RemovePart(d, u)
    case DoOpenRegister(name, opening) => OpenRegister(d, name, opening)
    case DoMoveCash(r, kind, amount, text) => MoveCash(d, r, kind, amount, text)
    case DoInvoiceCash(i, amount, open) => InvoiceCash(d, i, amount, open)
    case DoCloseRegister(r, counted) => CloseRegister(d, r, counted)
  }

  /** A failed action leaves every row as it was. */
  function Next(d: Db, a: Action): Db
  {
    match Step(d, a)
    case Ok(now) => now
    case Fail(_) => d
  }

  function Run(d: Db, actions: seq<Action>): Db
  {
    if actions == [] then d else Next(Run(d, actions[..|actions| - 1]), actions[|actions| - 1])
  }

  /** A database in which only parts have been entered. */
  predicate Fresh(d: Db)
  {
    && d.sales == [] && d.notes == [] && d.quotations == [] && d.orders == []
    && d.usages == [] && d.cancelled == {} && d.registers == [] && d.cash == []
  }
}
