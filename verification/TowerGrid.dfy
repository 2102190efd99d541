/**
  The geometry of a map divided into towers: which tower a cell belongs to, which towers
  a tower sees, where a tower is stored, and what seeing towers means in cells.
 */
module TowerGrid {
  datatype Point = Point(x: int, y: int)

  // Positions are 16-bit coordinates.
  const COORDINATE_MAX: int := 0x7fff

  function DivUp(a: int, b: int): (q: int)
    requires a >= 0 && b > 0
    ensures q >= 0 && (a > 0 ==> q > 0)
  {
    (a + b - 1) / b
  }

  function AtLeast(v: int, m: int): int { if v < m then m else v }
  function AtMost(v: int, m: int): int { if v > m then m else v }

  lemma DivInRange(a: int, n: int, d: int)
    requires 0 <= a < n && d > 0
    ensures 0 <= a / d < DivUp(n, d)
  {
    var q := (n + d - 1) / d;
    if a / d >= q {
      assert d * (a / d) >= d * q;
    }
  }

  lemma MulSign(n: int, d: int)
    requires n > 0
    ensures d > 0 ==> n * d >= n
    ensures d < 0 ==> n * d <= -n
    ensures d == 0 ==> n * d == 0
    ensures d == 1 ==> n * d == n
  {
  }

  /** Storing (x, y) of an n x m grid at y * m + x. */
  lemma StoredAt(n: int, m: int, x: int, y: int)
    requires (n == m || m == 1) && 0 <= x < n && 0 <= y < m
    ensures 0 <= y * m + x < n * m && (y * m + x) % n == x && (y * m + x) / n == y
  {
    DivModOf(n, y, x);
    MulSign(n, m);
    MulSign(m, y);
    if m == 1 {
      assert y == 0;
      assert y * m == 0 == y * n;
    } else {
      assert n * m - y * m == m * (n - y);
      MulSign(m, n - y);
    }
  }

  /**
    The index multiplies by the number of tower rows where it should multiply by the
    number of columns: it stays inside the table and keeps towers apart exactly on
    square grids and on grids of one row.
   */
  lemma TowerIdsWork(g: Grid)
    requires g.Shaped()
    ensures IdsInRange(g) && IdsDistinct(g) <==> g.XN() == g.YN() || g.YN() == 1
  {
    hide DivUp;
    var xn, yn := g.XN(), g.YN();
    if xn == yn || yn == 1 {
      forall t | g.IsTower(t) ensures 0 <= g.TowerId(t) < g.Towers() {
        StoredAt(xn, yn, t.x, t.y);
      }
      forall t, u | g.IsTower(t) && g.IsTower(u) && g.TowerId(t) == g.TowerId(u) ensures t == u {
        StoredAt(xn, yn, t.x, t.y);
        StoredAt(xn, yn, u.x, u.y);
      }
    } else if xn > yn {
      assert g.IsTower(Point(yn, 0)) && g.IsTower(Point(0, 1));
      assert g.TowerId(Point(yn, 0)) == yn == g.TowerId(Point(0, 1)) by {
        MulSign(yn, 1);
        assert 0 * yn == 0;
      }
    } else {
      var t := Point(xn - 1, yn - 1);
      assert g.IsTower(t);
      assert (yn - 1) * yn + xn - 1 >= xn * yn by {
        assert (yn - 1) * yn - xn * yn == yn * (yn - 1 - xn);
        MulSign(yn, yn - 1 - xn);
      }
      assert g.TowerId(t) >= g.Towers();
    }
  }

  // w x h cells, towers of tw x th cells, players see vw x vh cells.
  datatype Grid = Grid(w: int, h: int, tw: int, th: int, vw: int, vh: int) {
    predicate Shaped() {
      w > 0 && h > 0 && tw > 0 && th > 0 && vw >= 0 && vh >= 0
    }

    function XN(): int requires Shaped() { DivUp(w, tw) }
    function YN(): int requires Shaped() { DivUp(h, th) }
    function ViewX(): int requires Shaped() { DivUp(vw, tw) }
    function ViewY(): int requires Shaped() { DivUp(vh, th) }

    /** The shapes the tower index works for (see TowerIdsWork), in 16-bit range. */
    predicate Valid() {
      && Shaped()
      && (XN() == YN() || YN() == 1)
      && w <= COORDINATE_MAX && h <= COORDINATE_MAX
      && XN() + ViewX() + 1 <= COORDINATE_MAX && YN() + ViewY() + 1 <= COORDINATE_MAX
    }

    predicate OnMap(p: Point) {
      0 <= p.x < w && 0 <= p.y < h
    }

    predicate IsTower(t: Point)
      requires Shaped()
    {
      0 <= t.x < XN() && 0 <= t.y < YN()
    }

    function TowerId(t: Point): int
      requires Shaped()
    {
      t.y * YN() + t.x
    }

    function Towers(): int
      requires Shaped()
    {
      XN() * YN()
    }

    function CellToTower(p: Point): (t: Point)
      requires Shaped() && OnMap(p)
      ensures IsTower(t)
    {
      DivInRange(p.x, w, tw);
      DivInRange(p.y, h, th);
      Point(p.x / tw, p.y / th)
    }

    function LeftUp(t: Point): Point
      requires Shaped()
    {
      Point(AtLeast(t.x - ViewX(), 0), AtLeast(t.y - ViewY(), 0))
    }

    function RightDown(t: Point): Point
      requires Shaped()
    {
      Point(AtMost(t.x + ViewX() + 1, XN()), AtMost(t.y + ViewY() + 1, YN()))
    }

    /** Towers seen from a tower, without clamping. */
    predicate Sees(t: Point, u: Point)
      requires Shaped()
    {
      -ViewX() <= u.x - t.x <= ViewX() && -ViewY() <= u.y - t.y <= ViewY()
    }

    /** The tower stored at index `k`. */
    function TowerAt(k: int): Point
      requires Shaped()
    {
      Point(k % XN(), k / XN())
    }
  }

  // ---------------------------------------------------------------- arithmetic

  lemma DivModOf(n: int, q: int, r: int)
    requires n > 0 && 0 <= r < n
    ensures (q * n + r) / n == q && (q * n + r) % n == r
  {
    var k := q * n + r;
    var d := k / n - q;
    assert n * d == r - k % n;
    MulSign(n, d);
  }

  lemma Stored(n: int, m: int, k: int)
    requires (n == m || m == 1) && n > 0 && 0 <= k < n * m
    ensures 0 <= k % n < n && 0 <= k / n < m && (k / n) * m + k % n == k
  {
    var q := k / n;
    assert k == n * q + k % n;
    assert n * (m - q) == n * m - n * q;
    MulSign(n, m - q);
    MulSign(n, q);
    MulSign(m, 1);
  }

  lemma TowersPositive(g: Grid)
    requires g.Valid()
    ensures g.Towers() > 0
  {
    MulSign(g.XN(), g.YN());
  }

  /** A square grid or a single row stores every tower at its own index. */
  lemma TowerAtId(g: Grid, t: Point)
    requires g.Valid() && g.IsTower(t)
    ensures 0 <= g.TowerId(t) < g.Towers() && g.TowerAt(g.TowerId(t)) == t
  {
    hide DivUp;
    StoredAt(g.XN(), g.YN(), t.x, t.y);
  }

  lemma TowerIdAt(g: Grid, k: int)
    requires g.Valid() && 0 <= k < g.Towers()
    ensures g.IsTower(g.TowerAt(k)) && g.TowerId(g.TowerAt(k)) == k
  {
    hide DivUp;
    Stored(g.XN(), g.YN(), k);
  }

  ghost predicate IdsInRange(g: Grid)
    requires g.Shaped()
  {
    forall t :: g.IsTower(t) ==> 0 <= g.TowerId(t) < g.Towers()
  }

  ghost predicate IdsDistinct(g: Grid)
    requires g.Shaped()
  {
    forall t, u :: g.IsTower(t) && g.IsTower(u) && g.TowerId(t) == g.TowerId(u) ==> t == u
  }

  /** Three towers across and two down: the last of the first row and the first of the second share a number. */
  lemma TowersCollide()
    ensures var g := Grid(3, 2, 1, 1, 0, 0);
            && g.Shaped() && g.IsTower(Point(2, 0)) && g.IsTower(Point(0, 1))
            && g.TowerId(Point(2, 0)) == g.TowerId(Point(0, 1))
  {
  }

  // ---------------------------------------------------------------- seeing

  /** The clamped rectangle of a tower is exactly what it sees; it is never empty. */
  lemma ViewIsRectangle(g: Grid, t: Point, u: Point)
    requires g.Shaped() && g.IsTower(t)
    ensures g.IsTower(u) && g.Sees(t, u) <==>
            g.LeftUp(t).x <= u.x < g.RightDown(t).x && g.LeftUp(t).y <= u.y < g.RightDown(t).y
    ensures g.LeftUp(t).x < g.RightDown(t).x && g.LeftUp(t).y < g.RightDown(t).y
    ensures g.Sees(t, u) <==> g.Sees(u, t)
  {
  }

  lemma DivUpBounds(v: int, d: int)
    requires v >= 0 && d > 0
    ensures v <= d * DivUp(v, d) <= v + d - 1
  {
    var k := v + d - 1;
    assert k == d * (k / d) + k % d;
  }

  lemma SeenOneWay(a: int, b: int, d: int, v: int)
    requires a >= 0 && b >= 0 && d > 0 && v >= 0
    ensures b - a <= v ==> b / d - a / d <= DivUp(v, d)
    ensures b / d - a / d <= DivUp(v, d) ==> b - a <= v + 2 * d - 2
  {
    var q, s := DivUp(v, d), b / d - a / d;
    DivUpBounds(v, d);
    hide DivUp;
    assert d * s == b - a + a % d - b % d;
    assert d * (s - q) == d * s - d * q;
    MulSign(d, s - q);
  }

  /** One axis: cells within `v` lie in towers that see each other, and such towers lie within v + 2d - 2. */
  lemma SeenAxis(a: int, b: int, d: int, v: int)
    requires a >= 0 && b >= 0 && d > 0 && v >= 0
    ensures -v <= b - a <= v ==> -DivUp(v, d) <= b / d - a / d <= DivUp(v, d)
    ensures -DivUp(v, d) <= b / d - a / d <= DivUp(v, d) ==> -(v + 2 * d - 2) <= b - a <= v + 2 * d - 2
  {
    SeenOneWay(a, b, d, v);
    SeenOneWay(b, a, d, v);
  }

  /** Seeing towers in cells: at least the view range, at most two towers less two cells more. */
  lemma SeesBoundsCells(g: Grid, p: Point, o: Point)
    requires g.Shaped() && g.OnMap(p) && g.OnMap(o)
    ensures -g.vw <= o.x - p.x <= g.vw && -g.vh <= o.y - p.y <= g.vh ==>
              g.Sees(g.CellToTower(p), g.CellToTower(o))
    ensures g.Sees(g.CellToTower(p), g.CellToTower(o)) ==>
              && -(g.vw + 2 * g.tw - 2) <= o.x - p.x <= g.vw + 2 * g.tw - 2
              && -(g.vh + 2 * g.th - 2) <= o.y - p.y <= g.vh + 2 * g.th - 2
  {
    SeenAxis(p.x, o.x, g.tw, g.vw);
    SeenAxis(p.y, o.y, g.th, g.vh);
  }

  lemma RoundUp(a: int, b: int)
    requires a > 0 && b > 0
    ensures b * (DivUp(a, b) - 1) < a <= b * DivUp(a, b)
  {
    var q := (a + b - 1) / b;
    assert a + b - 1 == b * q + (a + b - 1) % b;
    assert b * (q - 1) == b * q - b;
  }

  lemma InTile(v: int, d: int)
    requires v >= 0 && d > 0
    ensures d * (v / d) <= v < d * (v / d) + d
  {
    assert v == d * (v / d) + v % d;
  }

  /** There are just as many towers as it takes to hold all cells. */
  lemma TowersCoverTheMap(g: Grid)
    requires g.Shaped()
    ensures g.tw * (g.XN() - 1) < g.w <= g.tw * g.XN()
    ensures g.th * (g.YN() - 1) < g.h <= g.th * g.YN()
  {
    hide DivUp;
    RoundUp(g.w, g.tw);
    RoundUp(g.h, g.th);
  }

  /** A cell lies inside its tower. */
  lemma CellInItsTower(g: Grid, p: Point)
    requires g.Shaped() && g.OnMap(p)
    ensures var t := g.CellToTower(p);
            g.tw * t.x <= p.x < g.tw * t.x + g.tw && g.th * t.y <= p.y < g.th * t.y + g.th
  {
    InTile(p.x, g.tw);
    InTile(p.y, g.th);
  }
}
