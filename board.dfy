/** The enemies' path: a sequence of cells, and the point at a given progress
    `l` along it (the integer part of `l` is the segment index, the fraction the
    way along that segment). */
module Board {
  import opened MathUtils
  import opened GameTypes

  /** A cell whose coordinates are whole numbers. */
  ghost predicate IntegralCell(cell: Cell) {
    cell.r == cell.r.Floor as real && cell.c == cell.c.Floor as real
  }

  /** getPathPosition: no point when floor(l) indexes no cell; the last cell's
      corner (its column and row, not its centre) on the last cell; otherwise the
      centre of cell floor(l) moved by the rounded fraction of l towards the next
      cell, every step rounded with fixNumber. */
  function PathPosition(path: seq<Cell>, l: real): (p: Option<Point>)
    ensures p.Some? <==> 0 <= l.Floor < |path|
    ensures p.Some? && l.Floor == |path| - 1 ==> p.value == Point(path[|path| - 1].c, path[|path| - 1].r)
  {
    var i := l.Floor;
    if i < 0 || i >= |path| then None
    else if i == |path| - 1 then Some(Point(path[i].c, path[i].r))
    else
      var dl := Fix(l - i as real);
      var dx := Fix(path[i + 1].c - path[i].c);
      var dy := Fix(path[i + 1].r - path[i].r);
      Some(Point(Fix(path[i].c + 0.5 + Mul(dx, dl)), Fix(path[i].r + 0.5 + Mul(dy, dl))))
  }

  lemma IntegerIsFixed(n: int)
    ensures IsFixed(n as real)
  {
    var m := n * 100000;
    assert n as real * 100000.0 == m as real;
    assert (m as real).Floor == m;
  }

  lemma HalfPastIntegerIsFixed(n: int)
    ensures IsFixed(n as real + 0.5)
  {
    var m := n * 100000 + 50000;
    assert (n as real + 0.5) * 100000.0 == m as real;
    assert (m as real).Floor == m;
  }

  /** At a whole progress value short of the last cell an enemy stands on the
      centre of that cell. */
  lemma PathPositionAtCellCentre(path: seq<Cell>, k: int)
    requires 0 <= k < |path| - 1
    requires IntegralCell(path[k]) && IntegralCell(path[k + 1])
    ensures PathPosition(path, k as real) == Some(Point(path[k].c + 0.5, path[k].r + 0.5))
  {
    assert (k as real).Floor == k;
    FixOfFixed(0.0);
    assert Fix(k as real - k as real) == 0.0;
    HalfPastIntegerIsFixed(path[k].c.Floor);
    HalfPastIntegerIsFixed(path[k].r.Floor);
    FixOfFixed(path[k].c + 0.5);
    FixOfFixed(path[k].r + 0.5);
  }
}
