/** Parts, document lines, and the row-by-row stock movements that the server
    actions and the database triggers perform. */
module Inventory {
  import opened Sums

  type PartId = string

  datatype Part = Part(stock: int, price: real, cost: real)

  type Parts = map<PartId, Part>

  /** A line of a sale, credit note, quotation or purchase order.
      `discount` is the percentage of a quotation line and 0 elsewhere; the
      price of a purchase line is its unit cost. */
  datatype Line = Line(part: PartId, qty: int, price: real, discount: real)

  /** The quantity of part `p` over all lines. */
  function Qty(lines: seq<Line>, p: PartId): int
  {
    if lines == [] then 0
    else
      var last := lines[|lines| - 1];
      Qty(lines[..|lines| - 1], p) + (if last.part == p then last.qty else 0)
  }

  predicate Distinct(lines: seq<Line>)
  {
    forall i, j :: 0 <= i < j < |lines| ==> lines[i].part != lines[j].part
  }

  predicate Positive(lines: seq<Line>)
  {
    forall i :: 0 <= i < |lines| ==> lines[i].qty >= 1
  }

  /** Every line names an existing part: the foreign key of the line tables. */
  predicate Known(parts: Parts, lines: seq<Line>)
  {
    forall i :: 0 <= i < |lines| ==> lines[i].part in parts
  }

  /** UPDATE parts SET quantity = quantity + n WHERE id = p. */
  function AddStock(parts: Parts, p: PartId, n: int): Parts
  {
    if p in parts then parts[p := parts[p].(stock := parts[p].stock + n)] else parts
  }

  datatype Direction = In | Out

  function Signed(way: Direction, n: int): int
  {
    if way == In then n else -n
  }

  /** One increment or decrement of stock per line, in order. */
  function MoveLines(parts: Parts, lines: seq<Line>, way: Direction): Parts
  {
    if lines == [] then parts
    else
      var last := lines[|lines| - 1];
      AddStock(MoveLines(parts, lines[..|lines| - 1], way), last.part, Signed(way, last.qty))
  }

  /** Moving lines changes nothing but stock, and that by the total quantity of the part. */
  lemma {:induction false} MoveLinesEffect(parts: Parts, lines: seq<Line>, way: Direction)
    ensures MoveLines(parts, lines, way).Keys == parts.Keys
    ensures forall p :: p in parts ==>
      MoveLines(parts, lines, way)[p] == parts[p].(stock := parts[p].stock + Signed(way, Qty(lines, p)))
  {
    if lines == [] {
    } else {
      MoveLinesEffect(parts, lines[..|lines| - 1], way);
    }
  }

  /** The rows of a sale as the triggers see them: the BEFORE INSERT trigger raises when
      stock minus quantity is negative, the AFTER INSERT trigger then decrements. */
  function SellLines(parts: Parts, lines: seq<Line>): Option<Parts>
  {
    if lines == [] then Some(parts)
    else
      var last := lines[|lines| - 1];
      match SellLines(parts, lines[..|lines| - 1])
      case None => None
      case Some(now) =>
        if last.part in now && now[last.part].stock - last.qty < 0 then None
        else Some(AddStock(now, last.part, -last.qty))
  }

  lemma {:induction false} SellLinesMoves(parts: Parts, lines: seq<Line>)
    requires SellLines(parts, lines).Some?
    ensures SellLines(parts, lines).value == MoveLines(parts, lines, Out)
  {
    if lines == [] {
    } else {
      SellLinesMoves(parts, lines[..|lines| - 1]);
    }
  }

  lemma {:induction false} QtyNonNegative(lines: seq<Line>, p: PartId)
    requires Positive(lines)
    ensures Qty(lines, p) >= 0
    ensures Qty(lines, p) > 0 <==> exists i :: 0 <= i < |lines| && lines[i].part == p
  {
    if lines == [] {
    } else {
      var n := |lines| - 1;
      QtyNonNegative(lines[..n], p);
      assert forall i :: 0 <= i < n ==> lines[..n][i] == lines[i];
      if exists i :: 0 <= i < |lines| && lines[i].part == p {
        var i :| 0 <= i < |lines| && lines[i].part == p;
        assert i < n ==> lines[..n][i].part == p;
      }
    }
  }

  /** With distinct parts a line holds the whole quantity of its part. */
  lemma {:induction false} QtyOfDistinct(lines: seq<Line>, i: nat)
    requires Distinct(lines) && i < |lines|
    ensures Qty(lines, lines[i].part) == lines[i].qty
  {
    var n := |lines| - 1;
    if i < n {
      QtyOfDistinct(lines[..n], i);
    } else {
      QtyOfAbsent(lines[..n], lines[i].part);
    }
  }

  lemma {:induction false} QtyOfAbsent(lines: seq<Line>, p: PartId)
    requires forall i :: 0 <= i < |lines| ==> lines[i].part != p
    ensures Qty(lines, p) == 0
  {
    if lines == [] {
    } else {
      QtyOfAbsent(lines[..|lines| - 1], p);
    }
  }

  lemma {:induction false} QtyOfPrefix(lines: seq<Line>, n: nat, p: PartId)
    requires Positive(lines) && n <= |lines|
    ensures Qty(lines[..n], p) <= Qty(lines, p)
  {
    if n == |lines| {
      assert lines[..n] == lines;
    } else {
      assert lines[..|lines| - 1][..n] == lines[..n];
      QtyOfPrefix(lines[..|lines| - 1], n, p);
    }
  }

  /** The row triggers accept a document exactly when each of its parts has stock for
      the whole quantity of that part, however the quantity is split over lines. */
  lemma {:induction false} SellLinesAccepts(parts: Parts, lines: seq<Line>)
    requires Positive(lines) && Known(parts, lines)
    ensures SellLines(parts, lines).Some? <==>
      forall i :: 0 <= i < |lines| ==> Qty(lines, lines[i].part) <= parts[lines[i].part].stock
  {
    if lines == [] {
    } else {
      var n := |lines| - 1;
      var init, last := lines[..n], lines[n];
      SellLinesAccepts(parts, init);
      forall i | 0 <= i < n
        ensures Qty(init, lines[i].part) <= Qty(lines, lines[i].part)
        ensures init[i] == lines[i]
      {
        QtyOfPrefix(lines, n, lines[i].part);
      }
      if SellLines(parts, init).Some? {
        SellLinesMoves(parts, init);
        MoveLinesEffect(parts, init, Out);
        assert parts[last.part].stock - Qty(init, last.part) == SellLines(parts, init).value[last.part].stock;
        if SellLines(parts, lines).Some? {
          forall i | 0 <= i < |lines|
            ensures Qty(lines, lines[i].part) <= parts[lines[i].part].stock
          {
            if lines[i].part != last.part {
              assert Qty(lines, lines[i].part) == Qty(init, init[i].part);
            }
          }
        }
      }
    }
  }

  /** Receiving a purchase: stock goes up and the cost becomes the latest unit cost. */
  function ReceiveLines(parts: Parts, lines: seq<Line>): Parts
  {
    if lines == [] then parts
    else
      var last := lines[|lines| - 1];
      var now := ReceiveLines(parts, lines[..|lines| - 1]);
      if last.part in now
      then now[last.part := now[last.part].(stock := now[last.part].stock + last.qty, cost := last.price)]
      else now
  }

  /** Line `i` is the last one of part `p`. */
  predicate LastOf(lines: seq<Line>, i: int, p: PartId)
  {
    0 <= i < |lines| && lines[i].part == p && forall j :: i < j < |lines| ==> lines[j].part != p
  }

  lemma {:induction false} ReceiveLinesEffect(parts: Parts, lines: seq<Line>)
    ensures ReceiveLines(parts, lines).Keys == parts.Keys
    ensures forall p :: p in parts ==>
      var now := ReceiveLines(parts, lines)[p];
      && now.stock == parts[p].stock + Qty(lines, p)
      && now.price == parts[p].price
      && (forall i :: LastOf(lines, i, p) ==> now.cost == lines[i].price)
  {
    if lines == [] {
    } else {
      var n := |lines| - 1;
      ReceiveLinesEffect(parts, lines[..n]);
      assert forall i :: 0 <= i < n ==> lines[..n][i] == lines[i];
    }
  }
}
