/** Conditional stock reservations: one UPDATE that decrements only where enough is left. */
module Reservations {

  datatype PartRow = PartRow(tenant: string, stock: int)

  type Rows = map<string, PartRow>

  datatype Request = Request(tenant: string, part: string, qty: int)

  datatype Answer = Reserved | InvalidQuantity | Insufficient

  /** UPDATE parts SET quantity = quantity - qty WHERE id AND tenantId AND quantity >= qty. */
  function Reserve(rows: Rows, r: Request): (Answer, Rows)
  {
    if r.qty <= 0 then (InvalidQuantity, rows)
    else if r.part in rows && rows[r.part].tenant == r.tenant && rows[r.part].stock >= r.qty then
      (Reserved, rows[r.part := rows[r.part].(stock := rows[r.part].stock - r.qty)])
    else (Insufficient, rows)
  }

  /** The rows after any interleaving of requests, in the order the database takes them. */
  function After(rows: Rows, requests: seq<Request>): Rows
  {
    if requests == [] then rows
    else Reserve(After(rows, requests[..|requests| - 1]), requests[|requests| - 1]).1
  }

  function Granted(rows: Rows, requests: seq<Request>, part: string): int
  {
    if requests == [] then 0
    else
      var last := requests[|requests| - 1];
      Granted(rows, requests[..|requests| - 1], part)
      + if last.part == part && Reserve(After(rows, requests[..|requests| - 1]), last).0 == Reserved
        then last.qty else 0
  }

  function Successes(rows: Rows, requests: seq<Request>, part: string): nat
  {
    if requests == [] then 0
    else
      var last := requests[|requests| - 1];
      Successes(rows, requests[..|requests| - 1], part)
      + if last.part == part && Reserve(After(rows, requests[..|requests| - 1]), last).0 == Reserved then 1 else 0
  }

  function Asked(requests: seq<Request>, part: string): nat
  {
    if requests == [] then 0
    else Asked(requests[..|requests| - 1], part) + if requests[|requests| - 1].part == part then 1 else 0
  }

  /** However requests interleave, stock never goes below zero and exactly the granted
      quantities are gone. */
  lemma {:induction false} NeverOversold(rows: Rows, requests: seq<Request>, part: string)
    requires part in rows && rows[part].stock >= 0
    ensures part in After(rows, requests) && After(rows, requests)[part].tenant == rows[part].tenant
    ensures After(rows, requests)[part].stock == rows[part].stock - Granted(rows, requests, part) >= 0
  {
    if requests == [] {
    } else {
      NeverOversold(rows, requests[..|requests| - 1], part);
    }
  }

  /** A reservation is granted exactly for a positive quantity of an own part that has it in stock; it
      takes exactly that from the one row, and a refusal nothing. */
  lemma GrantedExactly(rows: Rows, r: Request)
    ensures
      var (answer, now) := Reserve(rows, r);
      && (answer == Reserved <==>
          r.qty >= 1 && r.part in rows && rows[r.part].tenant == r.tenant && r.qty <= rows[r.part].stock)
      && (answer == InvalidQuantity <==> r.qty <= 0)
      && now.Keys == rows.Keys
      && forall p :: p in rows ==>
          now[p] == rows[p].(stock := rows[p].stock - if answer == Reserved && p == r.part then r.qty else 0)
  {
  }

  /** The requests that name the part as its own tenant. */
  function OwnRequests(requests: seq<Request>, part: string, tenant: string): seq<Request>
  {
    if requests == [] then []
    else
      var last := requests[|requests| - 1];
      OwnRequests(requests[..|requests| - 1], part, tenant)
      + if last.part == part && last.tenant == tenant then [last] else []
  }

  lemma SameStockSameAnswer(a: Rows, b: Rows, r: Request)
    requires r.part in a && r.part in b && a[r.part] == b[r.part]
    ensures Reserve(a, r).0 == Reserve(b, r).0 && r.part in Reserve(a, r).1 && r.part in Reserve(b, r).1
    ensures Reserve(a, r).1[r.part] == Reserve(b, r).1[r.part]
    ensures Reserve(a, r).1[r.part].tenant == a[r.part].tenant
  {
  }

  lemma OtherRequestAside(rows: Rows, r: Request, part: string)
    requires part in rows && (r.part != part || r.tenant != rows[part].tenant)
    ensures part in Reserve(rows, r).1 && Reserve(rows, r).1[part] == rows[part]
    ensures r.part == part ==> Reserve(rows, r).0 != Reserved
  {
  }

  /** Requests for other parts and of other tenants make no difference to a part: its row is as after
      the requests of its own tenant alone, and so is the quantity granted of it. */
  lemma {:induction false} OthersMakeNoDifference(rows: Rows, requests: seq<Request>, part: string)
    requires part in rows
    ensures
      var own := OwnRequests(requests, part, rows[part].tenant);
      && part in After(rows, requests) && part in After(rows, own)
      && After(rows, requests)[part] == After(rows, own)[part]
      && After(rows, requests)[part].tenant == rows[part].tenant
      && Granted(rows, requests, part) == Granted(rows, own, part)
  {
    if requests == [] {
    } else {
      var init, last := requests[..|requests| - 1], requests[|requests| - 1];
      OthersMakeNoDifference(rows, init, part);
      var own := OwnRequests(init, part, rows[part].tenant);
      if last.part == part && last.tenant == rows[part].tenant {
        SameStockSameAnswer(After(rows, init), After(rows, own), last);
        OneMore(rows, own, last, part);
      } else {
        OtherRequestAside(After(rows, init), last, part);
        assert OwnRequests(requests, part, rows[part].tenant) == own;
      }
    }
  }

  predicate NonNegative(rows: Rows)
  {
    forall p :: p in rows ==> rows[p].stock >= 0
  }

  /** The stock left after the requests is what was not granted, and never negative. */
  predicate StockExplained(rows: Rows, requests: seq<Request>, p: string)
    requires p in rows
  {
    p in After(rows, requests) && After(rows, requests)[p].stock == rows[p].stock - Granted(rows, requests, p) >= 0
  }

  lemma OneMore(rows: Rows, requests: seq<Request>, r: Request, p: string)
    ensures
      var (answer, now) := Reserve(After(rows, requests), r);
      && After(rows, requests + [r]) == now
      && Granted(rows, requests + [r], p) ==
         Granted(rows, requests, p) + if answer == Reserved && p == r.part then r.qty else 0
  {
    assert (requests + [r])[..|requests|] == requests;
  }

  lemma AllExplained(rows: Rows, requests: seq<Request>)
    requires NonNegative(rows)
    ensures forall p :: p in rows ==> StockExplained(rows, requests, p)
  {
    forall p | p in rows
      ensures StockExplained(rows, requests, p)
    {
      NeverOversold(rows, requests, p);
    }
  }

  /** The parts table, with the requests it has taken so far. */
  class Inventory {
    var rows: Rows
    ghost const initial: Rows
    ghost var requests: seq<Request>

    ghost predicate Valid()
      reads this
    {
      NonNegative(initial) && rows == After(initial, requests)
    }

    constructor (stock: Rows)
      requires NonNegative(stock)
      ensures Valid() && rows == initial == stock && requests == []
    {
      rows, initial, requests := stock, stock, [];
    }

    /** Every stock stays at or above zero and is what all granted requests have left of it. */
    method ReserveForTenant(r: Request) returns (answer: Answer)
      requires Valid()
      modifies this
      ensures Valid() && requests == old(requests) + [r]
      ensures forall p :: p in initial ==> StockExplained(initial, requests, p)
      ensures Granted(initial, requests, r.part) ==
        Granted(initial, old(requests), r.part) + if answer == Reserved then r.qty else 0
      ensures answer == InvalidQuantity <==> r.qty <= 0
    {
      ghost var step := Reserve(rows, r);
      AllExplained(initial, requests + [r]);
      OneMore(initial, requests, r, r.part);
      requests := requests + [r];
      assert step.1 == After(initial, requests);
      if r.qty <= 0 {
        assert rows == step.1;
        return InvalidQuantity;
      }
      var count := 0;
      if r.part in rows && rows[r.part].tenant == r.tenant && rows[r.part].stock >= r.qty {
        rows := rows[r.part := rows[r.part].(stock := rows[r.part].stock - r.qty)];
        count := 1;
      }
      assert rows == step.1;
      return if count == 0 then Insufficient else Reserved;
    }
  }

  lemma Scaled(a: int, b: int, qty: int)
    requires a <= b && qty >= 0
    ensures a * qty <= b * qty
  {
    var gap := b - a;
    assert gap * qty >= 0;
    assert b * qty == (a + gap) * qty == a * qty + gap * qty;
  }

  lemma OneMoreFits(stock: int, qty: int, n: nat)
    requires qty >= 1 && stock >= 0
    ensures stock - n * qty >= qty <==> n < stock / qty
  {
    var whole, rest := stock / qty, stock % qty;
    assert stock == whole * qty + rest;
    if n < whole {
      Scaled(n + 1, whole, qty);
    } else {
      Scaled(whole, n, qty);
    }
  }

  /** One more request: it succeeds exactly while fewer have succeeded than fit. */
  lemma SuccessGrows(stock: int, qty: int, asked: nat, n: nat)
    requires qty >= 1 && stock >= 0 && n == Min(asked, stock / qty)
    ensures Min(asked + 1, stock / qty) == if stock - n * qty >= qty then n + 1 else n
  {
    OneMoreFits(stock, qty, n);
  }

  predicate SameRequests(rows: Rows, requests: seq<Request>, part: string, qty: int)
    requires part in rows
  {
    forall i :: 0 <= i < |requests| && requests[i].part == part ==>
      requests[i].qty == qty && requests[i].tenant == rows[part].tenant
  }

  lemma {:induction false} SuccessesTake(rows: Rows, requests: seq<Request>, part: string, qty: int)
    requires part in rows && qty >= 1 && SameRequests(rows, requests, part, qty)
    ensures part in After(rows, requests)
    ensures After(rows, requests)[part] ==
      rows[part].(stock := rows[part].stock - Successes(rows, requests, part) * qty)
  {
    if requests == [] {
    } else {
      var init := requests[..|requests| - 1];
      SuccessesTake(rows, init, part, qty);
      var n := Successes(rows, init, part);
      assert (n + 1) * qty == n * qty + qty;
    }
  }

  /** Callers who all ask the same quantity of one part: exactly as many succeed as fit. */
  lemma {:induction false} ExactlyAsManyAsFit(rows: Rows, requests: seq<Request>, part: string, qty: int)
    requires part in rows && rows[part].stock >= 0 && qty >= 1 && SameRequests(rows, requests, part, qty)
    ensures Successes(rows, requests, part) == Min(Asked(requests, part), rows[part].stock / qty)
  {
    if requests == [] {
    } else {
      var init := requests[..|requests| - 1];
      ExactlyAsManyAsFit(rows, init, part, qty);
      SuccessesTake(rows, init, part, qty);
      SuccessGrows(rows[part].stock, qty, Asked(init, part), Successes(rows, init, part));
    }
  }

  function Min(a: int, b: int): int
  {
    if a <= b then a else b
  }
}
