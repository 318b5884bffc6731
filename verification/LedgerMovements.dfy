/** Parts used on tickets and cash registers: exactly when each action is accepted and exactly which
    rows, stock and balances it changes. */
module LedgerMovements {
  import opened Sums
  import opened Inventory
  import opened Ledger
  import opened LedgerStock
  import opened LedgerGuards
  import opened LedgerCash
  import opened LedgerEffects

  // ---------------------------------------------------------------- parts used on tickets

  /** What `n` units entered on a ticket take from stock under the given triggers. */
  function Taken(triggers: Triggers, approved: bool, n: int): int
  {
    (if triggers.legacy then n else 0) + if triggers.sync && approved then n else 0
  }

  lemma EntryRecorded(d: Db, u: Usage)
    requires InsertUsage(d, u).Some?
    ensures
      var now := InsertUsage(d, u).value;
      && now == d.(parts := now.parts, usages := d.usages + [Some(u)]) && now.parts.Keys == d.parts.Keys
      && forall p :: p in d.parts ==>
          now.parts[p] == d.parts[p].(stock := d.parts[p].stock -
            if u.part == p then Taken(d.triggers, u.approved, u.qty) else 0)
  {
  }

  /** Entering items adds one ticket part for each, in order, and takes out of stock what the triggers
      installed take for them. */
  lemma {:induction false} ConsumptionRecorded(d: Db, ticket: nat, items: seq<CartItem>, approved: bool)
    requires ConsumeItems(d, ticket, items, approved).Some?
    ensures
      var now := ConsumeItems(d, ticket, items, approved).value;
      && now == d.(parts := now.parts, usages := now.usages) && |now.usages| == |d.usages| + |items|
      && now.usages[..|d.usages|] == d.usages
      && (forall i :: 0 <= i < |items| ==>
          now.usages[|d.usages| + i] == Some(Usage(ticket, items[i].part, items[i].qty, approved)))
      && now.parts.Keys == d.parts.Keys
      && (forall p :: p in d.parts ==>
          now.parts[p] ==
            d.parts[p].(stock := d.parts[p].stock - Taken(d.triggers, approved, CartQty(items, p))))
  {
    if items == [] {
    } else {
      var init, last := items[..|items| - 1], items[|items| - 1];
      ConsumptionRecorded(d, ticket, init, approved);
      var before := ConsumeItems(d, ticket, init, approved).value;
      EntryRecorded(before, Usage(ticket, last.part, last.qty, approved));
    }
  }

  /** Item `i` finds its quantity in stock beside what those before it have taken of its part. */
  predicate FindsRoom(d: Db, items: seq<CartItem>, approved: bool, i: nat)
    requires i < |items|
  {
    && items[i].part in d.parts
    && items[i].qty + Taken(d.triggers, approved, CartQty(items[..i], items[i].part)) <= d.parts[items[i].part].stock
  }

  lemma LastItemAccepted(d: Db, ticket: nat, items: seq<CartItem>, approved: bool)
    requires items != [] && ConsumeItems(d, ticket, items[..|items| - 1], approved).Some?
    ensures ConsumeItems(d, ticket, items, approved).Some? <==> FindsRoom(d, items, approved, |items| - 1)
  {
    ConsumptionRecorded(d, ticket, items[..|items| - 1], approved);
  }

  /** Items are accepted exactly when each finds its room at its turn. */
  lemma {:induction false} ConsumptionAccepted(d: Db, ticket: nat, items: seq<CartItem>, approved: bool)
    ensures ConsumeItems(d, ticket, items, approved).Some? <==>
      forall i :: 0 <= i < |items| ==> FindsRoom(d, items, approved, i)
  {
    if items == [] {
    } else {
      var n := |items| - 1;
      ConsumptionAccepted(d, ticket, items[..n], approved);
      forall i | 0 <= i < n
        ensures FindsRoom(d, items[..n], approved, i) <==> FindsRoom(d, items, approved, i)
      {
        assert items[..n][i] == items[i] && items[..n][..i] == items[..i];
      }
      if ConsumeItems(d, ticket, items[..n], approved).Some? {
        LastItemAccepted(d, ticket, items, approved);
      }
    }
  }

  /** A part is proposed exactly in a positive quantity that is in stock; proposing it is entering it
      without approval. */
  lemma ProposalExactly(d: Db, ticket: nat, item: CartItem)
    ensures ProposePart(d, ticket, item).Ok? <==>
      item.qty >= 1 && item.part in d.parts && item.qty <= d.parts[item.part].stock
    ensures ProposePart(d, ticket, item).Ok? ==>
      ProposePart(d, ticket, item) == ConsumeParts(d, ticket, [item], false)
  {
    assert [item][..0] == [] && ConsumeItems(d, ticket, [], false) == Some(d);
  }

  /** The pending quantity of part `p` on a ticket. */
  function PendingOf(ticket: nat, p: PartId): Option<Usage> -> int
  {
    (u: Option<Usage>) =>
      if u.Some? && u.value.ticket == ticket && u.value.part == p && !u.value.approved then u.value.qty else 0
  }

  predicate IsPending(u: Option<Usage>, ticket: nat)
  {
    u.Some? && u.value.ticket == ticket && !u.value.approved
  }

  /** Of the first `n` ticket parts exactly the pending ones of the ticket are approved. */
  lemma {:induction false} ApprovedRows(d: Db, ticket: nat, n: nat)
    requires n <= |d.usages| && ApproveFirst(d, ticket, n).Some?
    ensures
      var now := ApproveFirst(d, ticket, n).value;
      forall i :: 0 <= i < |d.usages| ==>
        now.usages[i] == if i < n && IsPending(d.usages[i], ticket)
                         then Some(d.usages[i].value.(approved := true)) else d.usages[i]
  {
    if n == 0 {
    } else {
      ApprovedRows(d, ticket, n - 1);
    }
  }

  lemma ApprovedOneStock(d: Db, i: nat, p: PartId)
    requires i < |d.usages| && d.usages[i].Some? && ApproveUsage(d, i).Some? && p in d.parts
    ensures
      var now, u := ApproveUsage(d, i).value, d.usages[i].value;
      && now.parts.Keys == d.parts.Keys
      && now.parts[p] ==
         d.parts[p].(stock := d.parts[p].stock - if d.triggers.sync && u.part == p then u.qty else 0)
  {
  }

  lemma {:induction false} ApprovedStockOf(d: Db, ticket: nat, n: nat, p: PartId)
    requires n <= |d.usages| && p in d.parts && ApproveFirst(d, ticket, n).Some?
    ensures
      var now := ApproveFirst(d, ticket, n).value;
      && now.parts.Keys == d.parts.Keys
      && now.parts[p] == d.parts[p].(stock := d.parts[p].stock -
           if d.triggers.sync then SumInt(d.usages[..n], PendingOf(ticket, p)) else 0)
  {
    if n == 0 {
    } else {
      ApprovedStockOf(d, ticket, n - 1, p);
      ApprovedRows(d, ticket, n - 1);
      assert d.usages[..n][..n - 1] == d.usages[..n - 1];
      if IsPending(d.usages[n - 1], ticket) {
        ApprovedOneStock(ApproveFirst(d, ticket, n - 1).value, n - 1, p);
      }
    }
  }

  lemma {:induction false} ApprovedKeys(d: Db, ticket: nat, n: nat)
    requires n <= |d.usages| && ApproveFirst(d, ticket, n).Some?
    ensures ApproveFirst(d, ticket, n).value.parts.Keys == d.parts.Keys
  {
    if n == 0 {
    } else {
      ApprovedKeys(d, ticket, n - 1);
    }
  }

  lemma ApprovedStock(d: Db, ticket: nat, n: nat)
    requires n <= |d.usages| && ApproveFirst(d, ticket, n).Some?
    ensures
      var now := ApproveFirst(d, ticket, n).value;
      && now.parts.Keys == d.parts.Keys
      && forall p :: p in d.parts ==>
          now.parts[p] == d.parts[p].(stock := d.parts[p].stock -
            if d.triggers.sync then SumInt(d.usages[..n], PendingOf(ticket, p)) else 0)
  {
    ApprovedKeys(d, ticket, n);
    forall p | p in d.parts
      ensures ApproveFirst(d, ticket, n).value.parts[p] == d.parts[p].(stock := d.parts[p].stock -
        if d.triggers.sync then SumInt(d.usages[..n], PendingOf(ticket, p)) else 0)
    {
      ApprovedStockOf(d, ticket, n, p);
    }
  }

  /** The stock of each part covers what is pending of it on the ticket. */
  predicate CoversPending(d: Db, usages: seq<Option<Usage>>, ticket: nat)
  {
    forall p :: p in d.parts && SumInt(usages, PendingOf(ticket, p)) > 0 ==>
      SumInt(usages, PendingOf(ticket, p)) <= d.parts[p].stock
  }

  lemma {:induction false} PendingNonNegative(parts: Parts, usages: seq<Option<Usage>>, ticket: nat, p: PartId)
    requires forall i :: 0 <= i < |usages| ==> UsageConsistent(parts, usages[i])
    ensures SumInt(usages, PendingOf(ticket, p)) >= 0
  {
    if usages == [] {
    } else {
      PendingNonNegative(parts, usages[..|usages| - 1], ticket, p);
      assert UsageConsistent(parts, usages[|usages| - 1]);
    }
  }

  lemma OneMorePending(d: Db, ticket: nat, n: nat)
    requires Consistent(d) && n < |d.usages|
    ensures CoversPending(d, d.usages[..n + 1], ticket) <==>
      && CoversPending(d, d.usages[..n], ticket)
      && (IsPending(d.usages[n], ticket) ==>
          SumInt(d.usages[..n], PendingOf(ticket, d.usages[n].value.part)) + d.usages[n].value.qty
            <= d.parts[d.usages[n].value.part].stock)
  {
    var u := d.usages[n];
    assert UsageConsistent(d.parts, u) && d.usages[..n + 1] == d.usages[..n] + [u];
    forall p | p in d.parts
      ensures SumInt(d.usages[..n], PendingOf(ticket, p)) >= 0
      ensures SumInt(d.usages[..n + 1], PendingOf(ticket, p)) ==
        SumInt(d.usages[..n], PendingOf(ticket, p)) + PendingOf(ticket, p)(u)
    {
      PendingNonNegative(d.parts, d.usages[..n], ticket, p);
      SumIntAppend(d.usages[..n], u, PendingOf(ticket, p));
    }
    if CoversPending(d, d.usages[..n + 1], ticket) && IsPending(u, ticket) {
      assert SumInt(d.usages[..n + 1], PendingOf(ticket, u.value.part)) > 0;
    }
  }

  lemma LastApproved(d: Db, ticket: nat, n: nat)
    requires Consistent(d) && n < |d.usages| && ApproveFirst(d, ticket, n).Some?
    ensures ApproveFirst(d, ticket, n + 1).Some? <==>
      (d.triggers.sync && IsPending(d.usages[n], ticket) ==>
        SumInt(d.usages[..n], PendingOf(ticket, d.usages[n].value.part)) + d.usages[n].value.qty
          <= d.parts[d.usages[n].value.part].stock)
  {
    ApprovedRows(d, ticket, n);
    ApprovedStock(d, ticket, n);
    assert UsageConsistent(d.parts, d.usages[n]);
  }

  lemma {:induction false} ApprovalCovered(d: Db, ticket: nat, n: nat)
    requires Consistent(d) && n <= |d.usages|
    ensures ApproveFirst(d, ticket, n).Some? <==> (d.triggers.sync ==> CoversPending(d, d.usages[..n], ticket))
  {
    if n == 0 {
    } else {
      ApprovalCovered(d, ticket, n - 1);
      OneMorePending(d, ticket, n - 1);
      if ApproveFirst(d, ticket, n - 1).Some? {
        LastApproved(d, ticket, n - 1);
      }
    }
  }

  /** An approval is accepted exactly when the ticket has pending parts and, with the approval-aware
      trigger, the stock covers them part by part, however they are split. It approves exactly these
      rows and takes exactly them out of stock; with the other trigger alone it takes nothing. */
  lemma ApprovalExactly(d: Db, ticket: nat)
    requires Consistent(d)
    ensures ApproveParts(d, ticket).Ok? <==>
      && (exists i :: 0 <= i < |d.usages| && IsPending(d.usages[i], ticket))
      && (d.triggers.sync ==> CoversPending(d, d.usages, ticket))
    ensures ApproveParts(d, ticket).Ok? ==>
      var now := ApproveParts(d, ticket).db;
      && now == d.(parts := now.parts, usages := now.usages) && |now.usages| == |d.usages|
      && forall i :: 0 <= i < |d.usages| ==>
          now.usages[i] == if IsPending(d.usages[i], ticket)
                           then Some(d.usages[i].value.(approved := true)) else d.usages[i]
    ensures ApproveParts(d, ticket).Ok? ==>
      var now := ApproveParts(d, ticket).db;
      && now.parts.Keys == d.parts.Keys
      && forall p :: p in d.parts ==>
          now.parts[p] == d.parts[p].(stock := d.parts[p].stock -
            if d.triggers.sync then SumInt(d.usages, PendingOf(ticket, p)) else 0)
  {
    var n := |d.usages|;
    assert d.usages[..n] == d.usages;
    ApprovalCovered(d, ticket, n);
    assert forall i :: 0 <= i < n ==> (Selected(d.usages[i], ticket, true) <==> IsPending(d.usages[i], ticket));
    if ApproveFirst(d, ticket, n).Some? {
      ApprovedRows(d, ticket, n);
      ApprovedStock(d, ticket, n);
    }
  }

  lemma {:induction false} DeletedRows(d: Db, ticket: nat, pendingOnly: bool, n: nat)
    requires n <= |d.usages|
    ensures
      var now := DeleteFirst(d, ticket, pendingOnly, n);
      forall i :: 0 <= i < |d.usages| ==>
        now.usages[i] == if i < n && Selected(d.usages[i], ticket, pendingOnly) then None else d.usages[i]
  {
    if n == 0 {
    } else {
      DeletedRows(d, ticket, pendingOnly, n - 1);
    }
  }

  /** What deleting gives back of part `p` for one ticket part: what had been taken for it. */
  function GivenBack(triggers: Triggers, ticket: nat, pendingOnly: bool, p: PartId): Option<Usage> -> int
  {
    (u: Option<Usage>) =>
      if Selected(u, ticket, pendingOnly) && u.value.part == p
      then Taken(triggers, u.value.approved, u.value.qty) else 0
  }

  lemma DeletedOneStock(d: Db, i: nat, p: PartId)
    requires i < |d.usages| && d.usages[i].Some? && p in d.parts
    ensures
      var now, u := DeleteUsage(d, i), d.usages[i].value;
      && now.parts.Keys == d.parts.Keys
      && now.parts[p] == d.parts[p].(stock := d.parts[p].stock +
           if u.part == p then Taken(d.triggers, u.approved, u.qty) else 0)
  {
  }

  lemma {:induction false} DeletedStockOf(d: Db, ticket: nat, pendingOnly: bool, n: nat, p: PartId)
    requires n <= |d.usages| && p in d.parts
    ensures
      var now := DeleteFirst(d, ticket, pendingOnly, n);
      && now.parts.Keys == d.parts.Keys
      && now.parts[p] == d.parts[p].(stock := d.parts[p].stock +
           SumInt(d.usages[..n], GivenBack(d.triggers, ticket, pendingOnly, p)))
  {
    if n == 0 {
    } else {
      DeletedStockOf(d, ticket, pendingOnly, n - 1, p);
      DeletedRows(d, ticket, pendingOnly, n - 1);
      assert d.usages[..n][..n - 1] == d.usages[..n - 1];
      if Selected(d.usages[n - 1], ticket, pendingOnly) {
        DeletedOneStock(DeleteFirst(d, ticket, pendingOnly, n - 1), n - 1, p);
      }
    }
  }

  lemma {:induction false} DeletedKeys(d: Db, ticket: nat, pendingOnly: bool, n: nat)
    requires n <= |d.usages|
    ensures DeleteFirst(d, ticket, pendingOnly, n).parts.Keys == d.parts.Keys
  {
    if n == 0 {
    } else {
      DeletedKeys(d, ticket, pendingOnly, n - 1);
    }
  }

  lemma DeletedStock(d: Db, ticket: nat, pendingOnly: bool, n: nat)
    requires n <= |d.usages|
    ensures
      var now := DeleteFirst(d, ticket, pendingOnly, n);
      && now.parts.Keys == d.parts.Keys
      && forall p :: p in d.parts ==>
          now.parts[p] == d.parts[p].(stock := d.parts[p].stock +
            SumInt(d.usages[..n], GivenBack(d.triggers, ticket, pendingOnly, p)))
  {
    DeletedKeys(d, ticket, pendingOnly, n);
    forall p | p in d.parts
      ensures DeleteFirst(d, ticket, pendingOnly, n).parts[p] == d.parts[p].(stock := d.parts[p].stock +
        SumInt(d.usages[..n], GivenBack(d.triggers, ticket, pendingOnly, p)))
    {
      DeletedStockOf(d, ticket, pendingOnly, n, p);
    }
  }

  /** Exactly the ticket's parts, or its pending ones, are gone, each giving back what had been taken
      for it; the mark CANCELLED is all else that differs. */
  predicate Removed(d: Db, now: Db, ticket: nat, pendingOnly: bool)
  {
    && now == d.(parts := now.parts, usages := now.usages, cancelled := now.cancelled)
    && |now.usages| == |d.usages|
    && (forall i :: 0 <= i < |d.usages| ==>
        now.usages[i] == if d.usages[i].Some? && d.usages[i].value.ticket == ticket
                            && (pendingOnly ==> !d.usages[i].value.approved) then None else d.usages[i])
    && now.parts.Keys == d.parts.Keys
    && (forall p :: p in d.parts ==>
        now.parts[p] == d.parts[p].(stock := d.parts[p].stock +
          SumInt(d.usages, GivenBack(d.triggers, ticket, pendingOnly, p))))
  }

  /** A rejection is accepted exactly when the ticket has pending parts, and removes exactly these. */
  lemma RejectionExactly(d: Db, ticket: nat)
    ensures RejectParts(d, ticket).Ok? <==>
      exists i :: 0 <= i < |d.usages| && IsPending(d.usages[i], ticket)
    ensures RejectParts(d, ticket).Ok? ==>
      var now := RejectParts(d, ticket).db;
      Removed(d, now, ticket, true) && now.cancelled == d.cancelled - {ticket}
  {
    var n := |d.usages|;
    assert d.usages[..n] == d.usages;
    DeletedRows(d, ticket, true, n);
    DeletedStock(d, ticket, true, n);
    assert forall i :: 0 <= i < n ==> (Selected(d.usages[i], ticket, true) <==> IsPending(d.usages[i], ticket));
  }

  /** Cancelling a ticket as a status update removes exactly its parts, approved or not, the first time
      and changes nothing the second. */
  lemma TicketCancelledExactly(d: Db, ticket: nat)
    ensures CancelTicketParts(d, ticket).Ok?
    ensures
      var now := CancelTicketParts(d, ticket).db;
      && ticket in now.cancelled && now.cancelled - {ticket} == d.cancelled - {ticket}
      && (if ticket in d.cancelled then now == d else Removed(d, now, ticket, false))
      && CancelTicketParts(now, ticket) == Ok(now)
  {
    var n := |d.usages|;
    assert d.usages[..n] == d.usages;
    DeletedRows(d, ticket, false, n);
    DeletedStock(d, ticket, false, n);
  }

  /** Cancelling a ticket by action is accepted exactly once; it adds the quantity of every ticket part of
      the ticket to stock, approved or not, keeps all of them on record, and marks the ticket. */
  lemma CancelledByActionExactly(d: Db, ticket: nat)
    ensures CancelByAction(d, ticket).Ok? <==> ticket !in d.cancelled
    ensures CancelByAction(d, ticket).Ok? ==>
      var now := CancelByAction(d, ticket).db;
      && now == d.(parts := now.parts, cancelled := d.cancelled + {ticket}) && now.parts.Keys == d.parts.Keys
      && (forall p :: p in d.parts ==>
          now.parts[p] == d.parts[p].(stock := d.parts[p].stock + SumInt(d.usages, OnTicket(ticket, p))))
      && CancelByAction(now, ticket).Fail?
  {
    GiveBackEffect(d, ticket, |d.usages|);
    assert d.usages[..|d.usages|] == d.usages;
  }

  /** Removing a ticket part just entered undoes its entry, whatever triggers are installed, and can
      be done once. */
  lemma RemovalUndoesEntry(d: Db, u: Usage)
    requires InsertUsage(d, u).Some?
    ensures
      var now := InsertUsage(d, u).value;
      var removed := RemovePart(now, |d.usages|);
      && removed == Ok(d.(usages := d.usages + [None])) && RemovePart(removed.db, |d.usages|).Fail?
  {
    var now := InsertUsage(d, u).value;
    var back := DeleteUsage(now, |d.usages|);
    assert back.parts == d.parts;
    assert back.usages == d.usages + [None];
  }

  // ---------------------------------------------------------------- purchases

  /** An item is added exactly to an order not yet received, for an existing part, in a positive quantity
      at a price of zero or more; it comes last. */
  lemma ItemAddedExactly(d: Db, o: nat, line: Line)
    ensures AddOrderLine(d, o, line).Ok? <==>
      && line.qty >= 1 && line.price >= 0.0 && line.part in d.parts
      && o < |d.orders| && !d.orders[o].received
    ensures AddOrderLine(d, o, line).Ok? ==>
      var now := AddOrderLine(d, o, line).db;
      && now == d.(orders := now.orders) && |now.orders| == |d.orders|
      && now.orders[o] == Order(d.orders[o].lines + [line], false)
      && forall k :: 0 <= k < |d.orders| && k != o ==> now.orders[k] == d.orders[k]
  {
  }

  /** An order is received exactly once: each part gains what was ordered of it and has the unit cost of
      the last line that names it, every other part and every other order stay. */
  lemma ReceptionExactly(d: Db, o: nat)
    ensures ReceiveOrder(d, o).Ok? <==> o < |d.orders| && !d.orders[o].received
    ensures ReceiveOrder(d, o).Ok? ==>
      var now, lines := ReceiveOrder(d, o).db, d.orders[o].lines;
      && now == d.(parts := now.parts, orders := now.orders) && |now.orders| == |d.orders|
      && now.orders[o] == Order(lines, true)
      && (forall k :: 0 <= k < |d.orders| && k != o ==> now.orders[k] == d.orders[k])
      && now.parts.Keys == d.parts.Keys
      && (forall p :: p in d.parts ==>
          && now.parts[p] == Part(d.parts[p].stock + Qty(lines, p), d.parts[p].price, now.parts[p].cost)
          && (forall i :: LastOf(lines, i, p) ==> now.parts[p].cost == lines[i].price)
          && ((forall i :: 0 <= i < |lines| ==> lines[i].part != p) ==> now.parts[p] == d.parts[p]))
  {
    if ReceiveOrder(d, o).Ok? {
      ReceiveLinesEffect(d.parts, d.orders[o].lines);
      forall p | p in d.parts && forall i :: 0 <= i < |d.orders[o].lines| ==> d.orders[o].lines[i].part != p
        ensures ReceiveLines(d.parts, d.orders[o].lines)[p] == d.parts[p]
      {
        ReceivedElsewhere(d.parts, d.orders[o].lines, p);
      }
    }
  }

  lemma {:induction false} ReceivedElsewhere(parts: Parts, lines: seq<Line>, p: PartId)
    requires p in parts && forall i :: 0 <= i < |lines| ==> lines[i].part != p
    ensures p in ReceiveLines(parts, lines) && ReceiveLines(parts, lines)[p] == parts[p]
  {
    if lines == [] {
    } else {
      ReceivedElsewhere(parts, lines[..|lines| - 1], p);
    }
  }

  // ---------------------------------------------------------------- cash registers

  /** A register is opened exactly under a name that no open register has. Closed at once it shows no
      movement: the expected balance is the opening one, and the difference what was counted beyond it. */
  lemma OpenedAndClosed(d: Db, name: string, opening: real, counted: real)
    requires Consistent(d) && counted >= 0.0
    ensures OpenRegister(d, name, opening).Ok? <==>
      && name != "" && opening >= 0.0
      && forall r :: 0 <= r < |d.registers| && d.registers[r].isOpen ==> d.registers[r].name != name
    ensures OpenRegister(d, name, opening).Ok? ==>
      var now, r := OpenRegister(d, name, opening).db, |d.registers|;
      && now == d.(registers := now.registers) && |now.registers| == r + 1 && now.registers[..r] == d.registers
      && now.registers[r].name == name && now.registers[r].isOpen && now.registers[r].opening == opening
      && now.registers[r].expected == 0.0
      && CloseRegister(now, r, counted) == Ok(d.(registers :=
           d.registers + [Register(name, false, opening, counted, opening, counted - opening)]))
  {
    if OpenRegister(d, name, opening).Ok? {
      var now, r := OpenRegister(d, name, opening).db, |d.registers|;
      CloseExactly(now, r, counted);
      SumRealZero(d.cash, InRegister(r));
      var closed := CloseRegister(now, r, counted).db;
      assert closed.registers == d.registers + [Register(name, false, opening, counted, opening, counted - opening)];
    }
  }

  /** A register is closed exactly when it is open, with a count of zero or more. The row then holds what
      was counted, opening plus all signed movements as the expected balance, and what was counted beyond
      that as the difference; nothing else changes. */
  lemma CloseExactly(d: Db, r: nat, counted: real)
    ensures CloseRegister(d, r, counted).Ok? <==> counted >= 0.0 && r < |d.registers| && d.registers[r].isOpen
    ensures CloseRegister(d, r, counted).Ok? ==>
      var now, expected := CloseRegister(d, r, counted).db, d.registers[r].opening + SumReal(d.cash, InRegister(r));
      && now == d.(registers := now.registers) && |now.registers| == |d.registers|
      && now.registers[r] == Register(
           d.registers[r].name, false, d.registers[r].opening, counted, expected, counted - expected)
      && forall t :: 0 <= t < |d.registers| && t != r ==> now.registers[t] == d.registers[t]
  {
    SplitByKind(d.cash, r);
  }

  /** One movement of cash, as the registers and their statistics show it: its register's balance moves by
      the signed amount, the total of its kind by the amount, and no other register is touched. */
  predicate Moved(d: Db, now: Db, r: nat, kind: CashKind, amount: real)
    requires r < |d.registers| && d.registers[r].isOpen
  {
    var signed := if kind == Income then amount else -amount;
    && now == d.(cash := now.cash, registers := now.registers) && SameDrawers(d, now)
    && |now.cash| == |d.cash| + 1 && now.cash[..|d.cash|] == d.cash
    && now.registers[r].expected == d.registers[r].expected + signed
    && (forall t: nat :: t < |d.registers| && t != r ==> SameRegister(d, now, t))
    && RegisterStats(now, r) == RegisterStats(d, r).(
         income := RegisterStats(d, r).income + (if kind == Income then amount else 0.0),
         expenses := RegisterStats(d, r).expenses + (if kind == Expense then amount else 0.0),
         withdrawals := RegisterStats(d, r).withdrawals + (if kind == Withdrawal then amount else 0.0),
         current := RegisterStats(d, r).current + signed, expected := RegisterStats(d, r).expected + signed)
  }

  lemma PostedMoves(d: Db, tx: CashTx)
    requires tx.register < |d.registers| && d.registers[tx.register].isOpen
    ensures Moved(d, PostCash(d, tx), tx.register, tx.kind, tx.amount)
  {
    SumRealAppend(d.cash, tx, KindOf(tx.register, Income));
    SumRealAppend(d.cash, tx, KindOf(tx.register, Expense));
    SumRealAppend(d.cash, tx, KindOf(tx.register, Withdrawal));
    forall t: nat | t < |d.registers| && t != tx.register
      ensures SameRegister(d, PostCash(d, tx), t)
    {
      PostElsewhere(d, tx, t);
    }
  }

  /** A manual movement is accepted exactly for a positive amount and an open register, and is entered. */
  lemma MovementExactly(d: Db, r: nat, kind: CashKind, amount: real, text: string)
    ensures MoveCash(d, r, kind, amount, text).Ok? <==> amount > 0.0 && r < |d.registers| && d.registers[r].isOpen
    ensures MoveCash(d, r, kind, amount, text).Ok? ==>
      var now := MoveCash(d, r, kind, amount, text).db;
      Moved(d, now, r, kind, amount) && now.cash[|d.cash|].reference == Free(text)
  {
    if MoveCash(d, r, kind, amount, text).Ok? {
      PostedMoves(d, CashTx(r, kind, amount, Free(text)));
    }
  }

  /** The cash of an invoice is accepted exactly when some register is open, and is income of it. */
  lemma InvoiceCashExactly(d: Db, invoice: nat, amount: real, open: Option<nat>)
    requires FindsOpen(d.registers, open)
    ensures InvoiceCash(d, invoice, amount, open).Ok? <==>
      exists r :: 0 <= r < |d.registers| && d.registers[r].isOpen
    ensures InvoiceCash(d, invoice, amount, open).Ok? ==>
      var now := InvoiceCash(d, invoice, amount, open).db;
      && open.Some? && Moved(d, now, open.value, Income, amount)
      && now.cash[|d.cash|].reference == InvoicePayment(invoice)
  {
    if InvoiceCash(d, invoice, amount, open).Ok? {
      PostedMoves(d, CashTx(open.value, Income, amount, InvoicePayment(invoice)));
    }
  }
}
