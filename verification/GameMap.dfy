/** The cells of a map and the test whether a player may walk on one. */
module GameMap {
  import opened Wrappers
  import opened TowerGrid

  // One flag per cell, row by row: whether it cannot be walked on.
  datatype Cells = Cells(width: int, height: int, blocked: seq<bool>) {
    predicate Shaped() {
      width > 1 && height > 1 && |blocked| == width * height
    }

    predicate Inside(p: Point) {
      0 <= p.x < width && 0 <= p.y < height
    }

    function Index(p: Point): int {
      p.y * width + p.x
    }
  }

  // What a lookup comes upon: a cell's flag, nothing, or whatever lies in memory before
  // the cells.
  datatype Lookup = Flag(blocked: bool) | Nothing | Memory

  lemma IndexBelowEnd(m: Cells, p: Point)
    requires m.width > 0 && p.x < m.width && p.y < m.height
    ensures m.Index(p) < m.width * m.height
  {
    assert m.width * (m.height - 1 - p.y) >= 0;
    assert m.width * m.height == m.width * (m.height - 1 - p.y) + m.width * p.y + m.width;
    assert p.y * m.width == m.width * p.y;
  }

  /** Only the far sides are checked. */
  function GetGridInfo(m: Cells, p: Point): Lookup
    requires m.Shaped()
  {
    if p.x < m.width && p.y < m.height then
      IndexBelowEnd(m, p);
      if m.Index(p) >= 0 then Flag(m.blocked[m.Index(p)]) else Memory
    else Nothing
  }

  /** A cell that is not found counts as free; `stray` is the bit found in memory before the cells. */
  function IsGridCanWalk(m: Cells, p: Point, stray: bool): bool
    requires m.Shaped()
  {
    match GetGridInfo(m, p)
    case Flag(blocked) => !blocked
    case Nothing => true
    case Memory => !stray
  }

  /** On the map the answer is the cell's own flag, and no two cells share one. */
  lemma CellsHaveTheirOwnFlag(m: Cells, p: Point, q: Point, stray: bool)
    requires m.Shaped() && m.Inside(p) && m.Inside(q)
    ensures 0 <= m.Index(p) < |m.blocked| && IsGridCanWalk(m, p, stray) == !m.blocked[m.Index(p)]
    ensures m.Index(p) == m.Index(q) ==> p == q
  {
    IndexBelowEnd(m, p);
    DivModOf(m.width, p.y, p.x);
    DivModOf(m.width, q.y, q.x);
    assert p.y * m.width >= 0;
  }

  lemma Scaled(w: int, a: int, b: int)
    requires w > 0
    ensures a <= b ==> w * a <= w * b
  {
    assert a <= b ==> w * (b - a) >= 0;
    assert w * b - w * a == w * (b - a);
  }

  lemma Row(w: int, h: int, i: int)
    requires w > 0 && 0 <= i < w * h
    ensures 0 <= i / w < h && (i / w) * w + i % w == i && 0 <= i % w < w
  {
    Scaled(w, h, i / w);
  }

  lemma OtherRow(w: int, y: int, x: int)
    requires w > 0 && y * w + x >= 0 && x < w && (x < 0 || y < 0)
    ensures (y * w + x) / w < y
  {
    Scaled(w, y, (y * w + x) / w);
    Scaled(w, y + 1, 0);
    assert w * (y + 1) == y * w + w;
  }

  /**
    Off the map: beyond the right or the lower side every cell is walkable; left of the map
    or above it the flag is that of another cell, of a row further up, as long as there is
    one, and otherwise whatever the memory before the cells holds.
   */
  lemma OffMapIsWalkableIff(m: Cells, p: Point, stray: bool)
    requires m.Shaped() && !m.Inside(p)
    ensures p.x >= m.width || p.y >= m.height ==> IsGridCanWalk(m, p, stray)
    ensures p.x < m.width && p.y < m.height && m.Index(p) < 0 ==> IsGridCanWalk(m, p, stray) == !stray
    ensures p.x < m.width && p.y < m.height && m.Index(p) >= 0 ==>
              var q := Point(m.Index(p) % m.width, m.Index(p) / m.width);
              && m.Inside(q) && q.y < p.y && IsGridCanWalk(m, p, stray) == IsGridCanWalk(m, q, stray)
  {
    if p.x < m.width && p.y < m.height && m.Index(p) >= 0 {
      IndexBelowEnd(m, p);
      var i := m.Index(p);
      OtherRow(m.width, p.y, p.x);
      Row(m.width, m.height, i);
    }
  }

  /** On the map that ships, a step off the right side is accepted and leads to no tower. */
  lemma ShippedMapLetsPlayersOff(m: Cells, stray: bool)
    requires m.Shaped() && m.width == 100 && m.height == 100
    ensures var g := Grid(100, 100, 5, 5, 20, 20); var p := Point(100, 50);
            && g.Valid() && !g.OnMap(p) && IsGridCanWalk(m, p, stray)
            && !g.IsTower(Point(p.x / g.tw, p.y / g.th))
  {
  }
}
