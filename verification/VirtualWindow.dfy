/** The visible slice of a long list: which items a scroll position renders. Heights are exact reals. */
module VirtualWindow {

  datatype Window = Window(start: int, end: int, paddingTop: real, paddingBottom: real, total: real)

  function Ceiling(x: real): int
  {
    if x.Floor as real == x then x.Floor else x.Floor + 1
  }

  function Max(a: int, b: int): int
  {
    if a < b then b else a
  }

  function Min(a: int, b: int): int
  {
    if a < b then a else b
  }

  /** The window over `n` items of height `height`. */
  function Visible(n: nat, height: real, overscan: int, enabled: bool, scrollTop: real, viewport: real): Window
    requires height > 0.0
  {
    var total := n as real * height;
    if !enabled || n == 0 then Window(0, n, 0.0, 0.0, total)
    else
      var count := Max(1, Ceiling(viewport / height));
      var start := Max(0, (scrollTop / height).Floor - overscan);
      var end := Min(n, start + count + overscan * 2);
      var below := (n - end) as real * height;
      Window(start, end, start as real * height, if below < 0.0 then 0.0 else below, total)
  }

  /** Item `i` shares some height with the viewport. */
  predicate Intersects(i: nat, height: real, scrollTop: real, viewport: real)
  {
    i as real * height < scrollTop + viewport && (i + 1) as real * height > scrollTop
  }

  /** The items that slice(start, end) renders. */
  function Rendered(w: Window): nat
  {
    if w.start < w.end then w.end - w.start else 0
  }

  lemma ScaledOrder(a: real, b: real, height: real)
    requires height > 0.0
    ensures a * height < b * height <==> a < b
    ensures a * height <= b * height <==> a <= b
  {
    var gap := b - a;
    assert b * height == a * height + gap * height;
    if gap > 0.0 {
      assert gap * height > 0.0;
    } else if gap < 0.0 {
      assert (-gap) * height > 0.0;
      assert gap * height == -((-gap) * height);
    }
  }

  /** Every item that intersects the viewport is rendered, given an overscan of at least one. */
  lemma NothingMissing(n: nat, height: real, overscan: int, enabled: bool, scrollTop: real, viewport: real, i: nat)
    requires height > 0.0 && overscan >= 1 && i < n && Intersects(i, height, scrollTop, viewport)
    ensures
      var w := Visible(n, height, overscan, enabled, scrollTop, viewport);
      w.start <= i < w.end
  {
    var top, rows := scrollTop / height, viewport / height;
    assert top * height == scrollTop && rows * height == viewport;
    assert (top + rows) * height == top * height + rows * height;
    ScaledOrder(i as real, top + rows, height);
    ScaledOrder(top, (i + 1) as real, height);
    assert i as real < top + rows && top < (i + 1) as real;
    assert top.Floor <= i <= top.Floor + Ceiling(rows);
  }

  lemma CeilingBounds(x: real)
    ensures (Ceiling(x) - 1) as real < x <= Ceiling(x) as real
  {
  }

  lemma FewRows(count: int, height: real, viewport: real)
    requires height > 0.0 && viewport > 0.0 && count <= Max(1, Ceiling(viewport / height))
    ensures (count - 1) as real * height < viewport
  {
    var rows := viewport / height;
    assert rows * height == viewport;
    ScaledOrder(0.0, rows, height);
    CeilingBounds(rows);
    ScaledOrder((count - 1) as real, rows, height);
  }

  lemma NotFarAbove(i: int, overscan: int, height: real, scrollTop: real)
    requires height > 0.0 && i >= (scrollTop / height).Floor - overscan
    ensures (i + 1 + overscan) as real * height > scrollTop
  {
    var top := scrollTop / height;
    assert top * height == scrollTop;
    ScaledOrder(top, (i + 1 + overscan) as real, height);
  }

  /** Little else is rendered: fewer items than the viewport holds plus one, beside twice the overscan,
      and none further above the viewport than the overscan. */
  lemma LittleElse(n: nat, height: real, overscan: int, scrollTop: real, viewport: real, i: nat)
    requires height > 0.0 && overscan >= 0 && viewport > 0.0 && i < n
    ensures
      var w := Visible(n, height, overscan, true, scrollTop, viewport);
      && (Rendered(w) > 0 ==> (Rendered(w) - 2 * overscan - 1) as real * height < viewport)
      && (w.start <= i < w.end ==> (i + 1 + overscan) as real * height > scrollTop)
  {
    var w := Visible(n, height, overscan, true, scrollTop, viewport);
    if Rendered(w) > 0 {
      FewRows(Rendered(w) - 2 * overscan, height, viewport);
    }
    if w.start <= i < w.end {
      NotFarAbove(i, overscan, height, scrollTop);
    }
  }

  /** Without overscan an item can be cut off: two items of height 10, scrolled by 5 in a viewport of 10. */
  lemma OverscanNeeded()
    ensures Intersects(1, 10.0, 5.0, 10.0)
    ensures Visible(2, 10.0, 0, true, 5.0, 10.0).end == 1
  {
    assert (5.0 / 10.0) == 0.5 && (10.0 / 10.0) == 1.0;
  }

  lemma SplitHeight(a: int, b: int, c: int, height: real)
    ensures a as real * height + (b - a) as real * height + (c - b) as real * height == c as real * height
  {
    var x, y, z := a as real, (b - a) as real, (c - b) as real;
    assert x * height + y * height + z * height == (x + y + z) * height;
  }

  /** What lies below the window is no less than nothing. */
  lemma Below(n: int, end: int, height: real)
    requires height > 0.0 && end <= n
    ensures (n - end) as real * height >= 0.0
    ensures end == n ==> (n - end) as real * height == 0.0
  {
    ScaledOrder(0.0, (n - end) as real, height);
  }

  lemma StartsWithin(n: nat, height: real, overscan: int, scrollTop: real)
    requires height > 0.0 && overscan >= 0 && scrollTop <= n as real * height
    ensures (scrollTop / height).Floor - overscan <= n
  {
    var top := scrollTop / height;
    assert top * height == scrollTop;
    ScaledOrder(n as real, top, height);
  }

  /** The paddings and the rendered items add up to the whole list exactly when the window does
      not start beyond its end, in particular when the scroll position is within the list. */
  lemma HeightsAddUp(n: nat, height: real, overscan: int, enabled: bool, scrollTop: real, viewport: real)
    requires height > 0.0 && overscan >= 0
    ensures
      var w := Visible(n, height, overscan, enabled, scrollTop, viewport);
      && (w.paddingTop + Rendered(w) as real * height + w.paddingBottom == w.total <==> w.start <= n)
      && (scrollTop <= w.total ==> w.start <= n)
  {
    var w := Visible(n, height, overscan, enabled, scrollTop, viewport);
    if enabled && n != 0 {
      Below(n, w.end, height);
      if w.start <= n {
        assert w.start <= w.end;
        SplitHeight(w.start, w.end, n, height);
      } else {
        assert w.end == n;
        ScaledOrder(n as real, w.start as real, height);
      }
      if scrollTop <= w.total {
        StartsWithin(n, height, overscan, scrollTop);
      }
    }
  }
}
