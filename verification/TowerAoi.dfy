/**
  The tower index: every tower keeps the objects standing in it and the watchers that
  see it.  TowerTable gives what the operations do to the whole table and proves that the
  table always equals a naive scan of all positions; TowerAoi is the class that updates
  the towers in place.
 */
module TowerTable {
  import opened TowerGrid

  type ObjectId = int

  datatype Tower = Tower(objs: set<ObjectId>, watchers: set<ObjectId>)

  type Table = seq<Tower>

  predicate Fits(g: Grid, ts: Table) {
    g.Valid() && |ts| == g.Towers()
  }

  /** Indices and towers correspond one to one. */
  lemma AllTowers(g: Grid)
    requires g.Valid()
    ensures forall k :: 0 <= k < g.Towers() ==> g.IsTower(g.TowerAt(k)) && g.TowerId(g.TowerAt(k)) == k
    ensures forall t :: g.IsTower(t) ==> 0 <= g.TowerId(t) < g.Towers() && g.TowerAt(g.TowerId(t)) == t
  {
    forall k | 0 <= k < g.Towers() ensures g.IsTower(g.TowerAt(k)) && g.TowerId(g.TowerAt(k)) == k {
      TowerIdAt(g, k);
    }
    forall t | g.IsTower(t) ensures 0 <= g.TowerId(t) < g.Towers() && g.TowerAt(g.TowerId(t)) == t {
      TowerAtId(g, t);
    }
  }

  function Own(g: Grid, ts: Table, t: Point): Tower
    requires Fits(g, ts) && g.IsTower(t)
  {
    TowerAtId(g, t);
    ts[g.TowerId(t)]
  }

  // ---------------------------------------------------------------- whole-table effects

  function AddObj(g: Grid, ts: Table, id: ObjectId, t: Point): (r: Table)
    requires Fits(g, ts)
    ensures Fits(g, r)
  {
    seq(|ts|, k requires 0 <= k < |ts| =>
      if g.TowerAt(k) == t then ts[k].(objs := ts[k].objs + {id}) else ts[k])
  }

  function DelObj(g: Grid, ts: Table, id: ObjectId, t: Point): (r: Table)
    requires Fits(g, ts)
    ensures Fits(g, r)
  {
    seq(|ts|, k requires 0 <= k < |ts| =>
      if g.TowerAt(k) == t then ts[k].(objs := ts[k].objs - {id}) else ts[k])
  }

  datatype Operator = Add | Del

  function Mark(tower: Tower, id: ObjectId, op: Operator): Tower {
    tower.(watchers := if op.Add? then tower.watchers + {id} else tower.watchers - {id})
  }

  /** The watcher is entered in, or erased from, every tower it sees. */
  function MarkSeen(g: Grid, ts: Table, id: ObjectId, t: Point, op: Operator): (r: Table)
    requires Fits(g, ts)
    ensures Fits(g, r)
  {
    seq(|ts|, k requires 0 <= k < |ts| => if g.Sees(t, g.TowerAt(k)) then Mark(ts[k], id, op) else ts[k])
  }

  function Entered(g: Grid, ts: Table, id: ObjectId, t: Point): (r: Table)
    requires Fits(g, ts)
    ensures Fits(g, r)
  {
    AddObj(g, MarkSeen(g, ts, id, t, Add), id, t)
  }

  function Left(g: Grid, ts: Table, id: ObjectId, t: Point): (r: Table)
    requires Fits(g, ts)
    ensures Fits(g, r)
  {
    MarkSeen(g, DelObj(g, ts, id, t), id, t, Del)
  }

  /** The objects standing in the towers seen from `t`. */
  ghost function Seen(g: Grid, ts: Table, t: Point): set<ObjectId>
    requires Fits(g, ts)
  {
    set k, o | 0 <= k < |ts| && g.Sees(t, g.TowerAt(k)) && o in ts[k].objs :: o
  }

  // ---------------------------------------------------------------- the naive scan

  // Where everybody is: watchers are objects too, plain objects only stand somewhere.
  datatype World = World(watchers: map<ObjectId, Point>, objects: map<ObjectId, Point>)

  ghost predicate ValidWorld(g: Grid, w: World) {
    && g.Valid()
    && w.watchers.Keys !! w.objects.Keys
    && (forall id :: id in w.watchers ==> g.OnMap(w.watchers[id]))
    && (forall id :: id in w.objects ==> g.OnMap(w.objects[id]))
  }

  ghost function Standing(g: Grid, ps: map<ObjectId, Point>, t: Point): set<ObjectId>
    requires g.Valid() && forall id :: id in ps ==> g.OnMap(ps[id])
  {
    set id | id in ps && g.CellToTower(ps[id]) == t
  }

  ghost function Watching(g: Grid, ps: map<ObjectId, Point>, t: Point): set<ObjectId>
    requires g.Valid() && forall id :: id in ps ==> g.OnMap(ps[id])
  {
    set id | id in ps && g.Sees(g.CellToTower(ps[id]), t)
  }

  ghost function ScanTower(g: Grid, w: World, t: Point): Tower
    requires ValidWorld(g, w)
  {
    Tower(Standing(g, w.watchers, t) + Standing(g, w.objects, t), Watching(g, w.watchers, t))
  }

  /** The table is what a scan of all positions gives, tower by tower. */
  ghost predicate Agrees(g: Grid, ts: Table, w: World): (b: bool)
    ensures b ==> ValidWorld(g, w) && Fits(g, ts)
  {
    && ValidWorld(g, w) && Fits(g, ts)
    && forall k :: 0 <= k < |ts| ==> ts[k] == ScanTower(g, w, g.TowerAt(k))
  }

  datatype Op =
    | AddWatcher(id: ObjectId, p: Point)
    | DelWatcher(id: ObjectId)
    | MoveWatcher(id: ObjectId, p: Point)
    | AddObject(id: ObjectId, p: Point)
    | DelObject(id: ObjectId)
    | MoveObject(id: ObjectId, p: Point)

  /** What callers owe: positions on the map, true old positions, one role per id. */
  ghost predicate Legal(g: Grid, w: World, op: Op) {
    match op
    case AddWatcher(id, p) => g.OnMap(p) && id !in w.watchers && id !in w.objects
    case DelWatcher(id) => id in w.watchers
    case MoveWatcher(id, p) => g.OnMap(p) && id in w.watchers
    case AddObject(id, p) => g.OnMap(p) && id !in w.watchers && id !in w.objects
    case DelObject(id) => id in w.objects
    case MoveObject(id, p) => g.OnMap(p) && id in w.objects
  }

  ghost function WorldAfter(g: Grid, w: World, op: Op): (r: World)
    requires ValidWorld(g, w) && Legal(g, w, op)
    ensures ValidWorld(g, r)
    ensures forall o :: o != op.id ==> (o in r.watchers <==> o in w.watchers) && (o in r.objects <==> o in w.objects)
    ensures forall o :: o != op.id && o in w.watchers ==> r.watchers[o] == w.watchers[o]
    ensures forall o :: o != op.id && o in w.objects ==> r.objects[o] == w.objects[o]
    ensures if op.AddWatcher? || op.MoveWatcher? then op.id in r.watchers && r.watchers[op.id] == op.p
            else if op.AddObject? || op.MoveObject? then op.id in r.objects && r.objects[op.id] == op.p
            else op.id !in r.watchers && op.id !in r.objects
  {
    match op
    case AddWatcher(id, p) => w.(watchers := w.watchers[id := p])
    case DelWatcher(id) => w.(watchers := w.watchers - {id})
    case MoveWatcher(id, p) => w.(watchers := w.watchers[id := p])
    case AddObject(id, p) => w.(objects := w.objects[id := p])
    case DelObject(id) => w.(objects := w.objects - {id})
    case MoveObject(id, p) => w.(objects := w.objects[id := p])
  }

  /** What the operation does to the table. */
  ghost function Effect(g: Grid, ts: Table, w: World, op: Op): (r: Table)
    requires Fits(g, ts) && ValidWorld(g, w) && Legal(g, w, op)
    ensures Fits(g, r)
  {
    match op
    case AddWatcher(id, p) => Entered(g, ts, id, g.CellToTower(p))
    case DelWatcher(id) => Left(g, ts, id, g.CellToTower(w.watchers[id]))
    case MoveWatcher(id, p) => MovedWatcher(g, ts, id, g.CellToTower(w.watchers[id]), g.CellToTower(p))
    case AddObject(id, p) => AddObj(g, ts, id, g.CellToTower(p))
    case DelObject(id) => DelObj(g, ts, id, g.CellToTower(w.objects[id]))
    case MoveObject(id, p) => MovedObject(g, ts, id, g.CellToTower(w.objects[id]), g.CellToTower(p))
  }

  /** Moving across towers is leaving the old place and entering the new one; within a tower it is nothing. */
  function MovedWatcher(g: Grid, ts: Table, id: ObjectId, from: Point, to: Point): (r: Table)
    requires Fits(g, ts)
    ensures Fits(g, r)
  {
    if from == to then ts else Entered(g, Left(g, ts, id, from), id, to)
  }

  function MovedObject(g: Grid, ts: Table, id: ObjectId, from: Point, to: Point): (r: Table)
    requires Fits(g, ts)
    ensures Fits(g, r)
  {
    if from == to then ts else AddObj(g, DelObj(g, ts, id, from), id, to)
  }

  // ---------------------------------------------------------------- one operation

  lemma EnterAgrees(g: Grid, ts: Table, w: World, id: ObjectId, p: Point)
    requires Agrees(g, ts, w) && g.OnMap(p) && id !in w.watchers && id !in w.objects
    ensures Agrees(g, Entered(g, ts, id, g.CellToTower(p)), w.(watchers := w.watchers[id := p]))
  {
    var t, ps := g.CellToTower(p), w.watchers[id := p];
    var r := Entered(g, ts, id, t);
    forall k | 0 <= k < |r| ensures r[k] == ScanTower(g, w.(watchers := ps), g.TowerAt(k)) {
      var u := g.TowerAt(k);
      assert Standing(g, ps, u) == Standing(g, w.watchers, u) + (if u == t then {id} else {});
      assert Watching(g, ps, u) == Watching(g, w.watchers, u) + (if g.Sees(t, u) then {id} else {});
    }
  }

  lemma LeaveAgrees(g: Grid, ts: Table, w: World, id: ObjectId)
    requires Agrees(g, ts, w) && id in w.watchers
    ensures Agrees(g, Left(g, ts, id, g.CellToTower(w.watchers[id])), w.(watchers := w.watchers - {id}))
  {
    var t, ps := g.CellToTower(w.watchers[id]), w.watchers - {id};
    var r := Left(g, ts, id, t);
    forall k | 0 <= k < |r| ensures r[k] == ScanTower(g, w.(watchers := ps), g.TowerAt(k)) {
      var u := g.TowerAt(k);
      assert Standing(g, ps, u) == Standing(g, w.watchers, u) - (if u == t then {id} else {});
      assert Watching(g, ps, u) == Watching(g, w.watchers, u) - (if g.Sees(t, u) then {id} else {});
    }
  }

  lemma AddObjAgrees(g: Grid, ts: Table, w: World, id: ObjectId, p: Point)
    requires Agrees(g, ts, w) && g.OnMap(p) && id !in w.watchers && id !in w.objects
    ensures Agrees(g, AddObj(g, ts, id, g.CellToTower(p)), w.(objects := w.objects[id := p]))
  {
    var t, ps := g.CellToTower(p), w.objects[id := p];
    var r := AddObj(g, ts, id, t);
    forall k | 0 <= k < |r| ensures r[k] == ScanTower(g, w.(objects := ps), g.TowerAt(k)) {
      var u := g.TowerAt(k);
      assert Standing(g, ps, u) == Standing(g, w.objects, u) + (if u == t then {id} else {});
    }
  }

  lemma DelObjAgrees(g: Grid, ts: Table, w: World, id: ObjectId)
    requires Agrees(g, ts, w) && id in w.objects
    ensures Agrees(g, DelObj(g, ts, id, g.CellToTower(w.objects[id])), w.(objects := w.objects - {id}))
  {
    var t, ps := g.CellToTower(w.objects[id]), w.objects - {id};
    var r := DelObj(g, ts, id, t);
    forall k | 0 <= k < |r| ensures r[k] == ScanTower(g, w.(objects := ps), g.TowerAt(k)) {
      var u := g.TowerAt(k);
      assert Standing(g, ps, u) == Standing(g, w.objects, u) - (if u == t then {id} else {});
    }
  }

  lemma SameTowers(g: Grid, ps: map<ObjectId, Point>, qs: map<ObjectId, Point>, t: Point)
    requires g.Valid() && ps.Keys == qs.Keys
    requires forall id :: id in ps ==>
               g.OnMap(ps[id]) && g.OnMap(qs[id]) && g.CellToTower(ps[id]) == g.CellToTower(qs[id])
    ensures Standing(g, ps, t) == Standing(g, qs, t) && Watching(g, ps, t) == Watching(g, qs, t)
  {
    forall id
      ensures id in Standing(g, ps, t) <==> id in Standing(g, qs, t)
      ensures id in Watching(g, ps, t) <==> id in Watching(g, qs, t)
    {
      assert id in ps <==> id in qs.Keys;
    }
  }

  /** Two worlds whose players stand in the same towers scan the same. */
  lemma SameTowersAgree(g: Grid, ts: Table, w: World, v: World)
    requires Agrees(g, ts, w) && ValidWorld(g, v)
    requires v.watchers.Keys == w.watchers.Keys && v.objects.Keys == w.objects.Keys
    requires forall id :: id in w.watchers ==> g.CellToTower(v.watchers[id]) == g.CellToTower(w.watchers[id])
    requires forall id :: id in w.objects ==> g.CellToTower(v.objects[id]) == g.CellToTower(w.objects[id])
    ensures Agrees(g, ts, v)
  {
    forall k | 0 <= k < |ts| ensures ts[k] == ScanTower(g, v, g.TowerAt(k)) {
      SameTowers(g, w.watchers, v.watchers, g.TowerAt(k));
      SameTowers(g, w.objects, v.objects, g.TowerAt(k));
    }
  }

  lemma MoveWatcherAgrees(g: Grid, ts: Table, w: World, id: ObjectId, p: Point)
    requires Agrees(g, ts, w) && g.OnMap(p) && id in w.watchers
    ensures Agrees(g, MovedWatcher(g, ts, id, g.CellToTower(w.watchers[id]), g.CellToTower(p)),
                   w.(watchers := w.watchers[id := p]))
  {
    hide Agrees, Entered, Left;
    var from := g.CellToTower(w.watchers[id]);
    if from == g.CellToTower(p) {
      SameTowersAgree(g, ts, w, w.(watchers := w.watchers[id := p]));
    } else {
      LeaveAgrees(g, ts, w, id);
      EnterAgrees(g, Left(g, ts, id, from), w.(watchers := w.watchers - {id}), id, p);
      assert (w.watchers - {id})[id := p] == w.watchers[id := p];
    }
  }

  lemma MoveObjectAgrees(g: Grid, ts: Table, w: World, id: ObjectId, p: Point)
    requires Agrees(g, ts, w) && g.OnMap(p) && id in w.objects
    ensures Agrees(g, MovedObject(g, ts, id, g.CellToTower(w.objects[id]), g.CellToTower(p)),
                   w.(objects := w.objects[id := p]))
  {
    hide Agrees, AddObj, DelObj;
    var from := g.CellToTower(w.objects[id]);
    if from == g.CellToTower(p) {
      SameTowersAgree(g, ts, w, w.(objects := w.objects[id := p]));
    } else {
      DelObjAgrees(g, ts, w, id);
      AddObjAgrees(g, DelObj(g, ts, id, from), w.(objects := w.objects - {id}), id, p);
      assert (w.objects - {id})[id := p] == w.objects[id := p];
    }
  }

  lemma EffectAgrees(g: Grid, ts: Table, w: World, op: Op)
    requires Agrees(g, ts, w) && Legal(g, w, op)
    ensures Agrees(g, Effect(g, ts, w, op), WorldAfter(g, w, op))
  {
    hide Agrees, Entered, Left, AddObj, DelObj;
    match op
    case AddWatcher(id, p) => EnterAgrees(g, ts, w, id, p);
    case DelWatcher(id) => LeaveAgrees(g, ts, w, id);
    case MoveWatcher(id, p) => MoveWatcherAgrees(g, ts, w, id, p);
    case AddObject(id, p) => AddObjAgrees(g, ts, w, id, p);
    case DelObject(id) => DelObjAgrees(g, ts, w, id);
    case MoveObject(id, p) => MoveObjectAgrees(g, ts, w, id, p);
  }

  // ---------------------------------------------------------------- whole runs

  function NoTowers(g: Grid): (ts: Table)
    requires g.Valid()
    ensures Fits(g, ts)
  {
    seq(g.Towers(), k => Tower({}, {}))
  }

  const NOBODY: World := World(map[], map[])

  ghost predicate LegalRun(g: Grid, w: World, ops: seq<Op>)
    requires ValidWorld(g, w)
    decreases |ops|
  {
    |ops| == 0 || (Legal(g, w, ops[0]) && LegalRun(g, WorldAfter(g, w, ops[0]), ops[1..]))
  }

  ghost function RunTable(g: Grid, ts: Table, w: World, ops: seq<Op>): (r: (Table, World))
    requires Fits(g, ts) && ValidWorld(g, w) && LegalRun(g, w, ops)
    decreases |ops|
  {
    if |ops| == 0 then (ts, w)
    else RunTable(g, Effect(g, ts, w, ops[0]), WorldAfter(g, w, ops[0]), ops[1..])
  }

  lemma {:induction false} RunAgrees(g: Grid, ts: Table, w: World, ops: seq<Op>)
    requires Agrees(g, ts, w) && LegalRun(g, w, ops)
    ensures var r := RunTable(g, ts, w, ops); Agrees(g, r.0, r.1)
    decreases |ops|
  {
    hide Agrees, Effect, WorldAfter;
    if |ops| > 0 {
      EffectAgrees(g, ts, w, ops[0]);
      RunAgrees(g, Effect(g, ts, w, ops[0]), WorldAfter(g, w, ops[0]), ops[1..]);
    }
  }

  /**
    Main result: after any sequence of additions, removals and moves at true positions,
    the objects of every tower are exactly those standing in it and its watchers exactly
    those that see it.
   */
  lemma IndexAgreesWithScan(g: Grid, ops: seq<Op>)
    requires g.Valid() && LegalRun(g, NOBODY, ops)
    ensures var r := RunTable(g, NoTowers(g), NOBODY, ops); Agrees(g, r.0, r.1)
  {
    forall k | 0 <= k < g.Towers() ensures NoTowers(g)[k] == ScanTower(g, NOBODY, g.TowerAt(k)) {
    }
    RunAgrees(g, NoTowers(g), NOBODY, ops);
  }

  // ---------------------------------------------------------------- answers

  lemma SeenIsStanding(g: Grid, ts: Table, w: World, t: Point, id: ObjectId)
    requires Agrees(g, ts, w) && (id in w.watchers || id in w.objects)
    ensures var o := if id in w.watchers then w.watchers[id] else w.objects[id];
            id in Seen(g, ts, t) <==> g.Sees(t, g.CellToTower(o))
  {
    var o := if id in w.watchers then w.watchers[id] else w.objects[id];
    var u := g.CellToTower(o);
    TowerAtId(g, u);
    hide DivUp;
    assert ts[g.TowerId(u)] == ScanTower(g, w, u);
    assert id in ts[g.TowerId(u)].objs;
    forall k | 0 <= k < |ts| && id in ts[k].objs ensures g.TowerAt(k) == u {
      assert ts[k] == ScanTower(g, w, g.TowerAt(k));
    }
  }

  /** What a watcher sees, against cells: nobody within view range is missed, nobody far away is reported. */
  lemma SeenMeansNear(g: Grid, ts: Table, w: World, p: Point, id: ObjectId)
    requires Agrees(g, ts, w) && g.OnMap(p) && (id in w.watchers || id in w.objects)
    ensures var o := if id in w.watchers then w.watchers[id] else w.objects[id];
            var answer := Seen(g, ts, g.CellToTower(p));
            && (-g.vw <= o.x - p.x <= g.vw && -g.vh <= o.y - p.y <= g.vh ==> id in answer)
            && (id in answer ==>
                  && -(g.vw + 2 * g.tw - 2) <= o.x - p.x <= g.vw + 2 * g.tw - 2
                  && -(g.vh + 2 * g.th - 2) <= o.y - p.y <= g.vh + 2 * g.th - 2)
  {
    var o := if id in w.watchers then w.watchers[id] else w.objects[id];
    SeenIsStanding(g, ts, w, g.CellToTower(p), id);
    SeesBoundsCells(g, p, o);
  }

  /** After leaving, the old place answers about everybody else. */
  lemma LeftAnswers(g: Grid, ts: Table, w: World, id: ObjectId, t: Point)
    requires Agrees(g, ts, w) && id in w.watchers && g.IsTower(t)
    ensures Own(g, Left(g, ts, id, g.CellToTower(w.watchers[id])), t).watchers == Watching(g, w.watchers, t) - {id}
  {
    LeaveAgrees(g, ts, w, id);
    TowerAtId(g, t);
    assert Watching(g, w.watchers - {id}, t) == Watching(g, w.watchers, t) - {id};
  }
}

/** The index as the server keeps it: a table of towers updated in place. */
module TowerAoi {
  import opened TowerGrid
  import opened TowerTable
  import SortedSets

  class TowerAoi {
    const g: Grid
    const towers: array<Tower>

    ghost predicate Valid()
      reads this, towers
    {
      Fits(g, towers[..])
    }

    constructor (grid: Grid)
      requires grid.Valid()
      ensures Valid() && g == grid && fresh(towers) && towers[..] == NoTowers(g)
    {
      g := grid;
      TowersPositive(grid);
      towers := new Tower[grid.Towers()](_ => Tower({}, {}));
    }

    /** Rows and columns of the clamped rectangle around `t` that come before (x, y). */
    ghost predicate Before(t: Point, x: int, y: int, u: Point)
      requires g.Valid()
    {
      g.Sees(t, u) && (u.y < y || (u.y == y && u.x < x))
    }

    /** The table when the rectangle around `t` is done up to (x, y). */
    ghost function Partly(ts: Table, id: ObjectId, t: Point, op: Operator, x: int, y: int): (r: Table)
      requires Fits(g, ts)
    {
      seq(|ts|, k requires 0 <= k < |ts| => if Before(t, x, y, g.TowerAt(k)) then Mark(ts[k], id, op) else ts[k])
    }

    ghost function PartlySeen(ts: Table, t: Point, x: int, y: int): set<ObjectId>
      requires Fits(g, ts)
    {
      set k, o | 0 <= k < |ts| && Before(t, x, y, g.TowerAt(k)) && o in ts[k].objs :: o
    }

    lemma PartlyStart(ts: Table, id: ObjectId, t: Point, op: Operator)
      requires Fits(g, ts) && g.IsTower(t)
      ensures Partly(ts, id, t, op, g.LeftUp(t).x, g.LeftUp(t).y) == ts
      ensures PartlySeen(ts, t, g.LeftUp(t).x, g.LeftUp(t).y) == {}
    {
      AllTowers(g);
      forall k | 0 <= k < |ts| ensures !Before(t, g.LeftUp(t).x, g.LeftUp(t).y, g.TowerAt(k)) {
        ViewIsRectangle(g, t, g.TowerAt(k));
      }
    }

    /** The end of a row is the start of the next one. */
    lemma PartlyRow(ts: Table, id: ObjectId, t: Point, op: Operator, y: int)
      requires Fits(g, ts) && g.IsTower(t)
      ensures Partly(ts, id, t, op, g.RightDown(t).x, y) == Partly(ts, id, t, op, g.LeftUp(t).x, y + 1)
      ensures PartlySeen(ts, t, g.RightDown(t).x, y) == PartlySeen(ts, t, g.LeftUp(t).x, y + 1)
    {
      AllTowers(g);
      forall k | 0 <= k < |ts|
        ensures Before(t, g.RightDown(t).x, y, g.TowerAt(k)) <==> Before(t, g.LeftUp(t).x, y + 1, g.TowerAt(k))
      {
        ViewIsRectangle(g, t, g.TowerAt(k));
      }
    }

    lemma PartlyEnd(ts: Table, id: ObjectId, t: Point, op: Operator)
      requires Fits(g, ts) && g.IsTower(t)
      ensures Partly(ts, id, t, op, g.LeftUp(t).x, g.RightDown(t).y) == MarkSeen(g, ts, id, t, op)
      ensures PartlySeen(ts, t, g.LeftUp(t).x, g.RightDown(t).y) == Seen(g, ts, t)
    {
      AllTowers(g);
      forall k | 0 <= k < |ts|
        ensures Before(t, g.LeftUp(t).x, g.RightDown(t).y, g.TowerAt(k)) <==> g.Sees(t, g.TowerAt(k))
      {
        ViewIsRectangle(g, t, g.TowerAt(k));
      }
    }

    lemma BeforeStep(t: Point, x: int, y: int)
      requires g.Valid() && g.IsTower(t)
      requires g.LeftUp(t).x <= x < g.RightDown(t).x && g.LeftUp(t).y <= y < g.RightDown(t).y
      ensures var k := g.TowerId(Point(x, y));
              && 0 <= k < g.Towers()
              && forall j :: 0 <= j < g.Towers() ==>
                   && (Before(t, x + 1, y, g.TowerAt(j)) <==> Before(t, x, y, g.TowerAt(j)) || j == k)
                   && (Before(t, x, y, g.TowerAt(j)) ==> j != k)
    {
      var here := Point(x, y);
      ViewIsRectangle(g, t, here);
      hide DivUp;
      TowerAtId(g, here);
      forall j | 0 <= j < g.Towers()
        ensures Before(t, x + 1, y, g.TowerAt(j)) <==> Before(t, x, y, g.TowerAt(j)) || j == g.TowerId(here)
        ensures Before(t, x, y, g.TowerAt(j)) ==> j != g.TowerId(here)
      {
        TowerIdAt(g, j);
      }
    }

    /** One cell of the rectangle. */
    lemma PartlyStep(ts: Table, id: ObjectId, t: Point, op: Operator, x: int, y: int)
      requires Fits(g, ts) && g.IsTower(t)
      requires g.LeftUp(t).x <= x < g.RightDown(t).x && g.LeftUp(t).y <= y < g.RightDown(t).y
      ensures var k, before := g.TowerId(Point(x, y)), Partly(ts, id, t, op, x, y);
              && 0 <= k < |ts| && before[k] == ts[k]
              && Partly(ts, id, t, op, x + 1, y) == before[k := Mark(ts[k], id, op)]
              && PartlySeen(ts, t, x + 1, y) == PartlySeen(ts, t, x, y) + ts[k].objs
    {
      PartlySeenStep(ts, t, x, y);
      BeforeStep(t, x, y);
      hide Before, DivUp, PartlySeen;
    }

    lemma PartlySeenStep(ts: Table, t: Point, x: int, y: int)
      requires Fits(g, ts) && g.IsTower(t)
      requires g.LeftUp(t).x <= x < g.RightDown(t).x && g.LeftUp(t).y <= y < g.RightDown(t).y
      ensures var k := g.TowerId(Point(x, y));
              0 <= k < |ts| && PartlySeen(ts, t, x + 1, y) == PartlySeen(ts, t, x, y) + ts[k].objs
    {
      BeforeStep(t, x, y);
      hide Before, DivUp, Grid.TowerAt, Grid.TowerId, Grid.Towers;
      var k := g.TowerId(Point(x, y));
      var more, less := PartlySeen(ts, t, x + 1, y), PartlySeen(ts, t, x, y);
      forall o | o in more ensures o in less + ts[k].objs {
        var j :| 0 <= j < |ts| && Before(t, x + 1, y, g.TowerAt(j)) && o in ts[j].objs;
        assert j == k || Before(t, x, y, g.TowerAt(j));
      }
      forall o | o in less ensures o in more {
        var j :| 0 <= j < |ts| && Before(t, x, y, g.TowerAt(j)) && o in ts[j].objs;
        assert Before(t, x + 1, y, g.TowerAt(j));
      }
      forall o | o in ts[k].objs ensures o in more {
        assert Before(t, x + 1, y, g.TowerAt(k));
      }
    }

    /** The nested loops over the rectangle: collect the objects, mark the watcher. */
    method SweepView(id: ObjectId, t: Point, op: Operator, objs0: set<ObjectId>) returns (objs: set<ObjectId>)
      requires Valid() && g.IsTower(t)
      modifies towers
      ensures Valid() && towers[..] == MarkSeen(g, old(towers[..]), id, t, op)
      ensures objs == objs0 + Seen(g, old(towers[..]), t)
    {
      hide Partly, PartlySeen, DivUp;
      ghost var ts := towers[..];
      objs := objs0;
      var y := g.LeftUp(t).y;
      ViewIsRectangle(g, t, t);
      PartlyStart(ts, id, t, op);
      while y != g.RightDown(t).y
        invariant g.LeftUp(t).y <= y <= g.RightDown(t).y
        invariant towers[..] == Partly(ts, id, t, op, g.LeftUp(t).x, y)
        invariant objs == objs0 + PartlySeen(ts, t, g.LeftUp(t).x, y)
        decreases g.RightDown(t).y - y
      {
        var x := g.LeftUp(t).x;
        while x != g.RightDown(t).x
          invariant g.LeftUp(t).x <= x <= g.RightDown(t).x
          invariant towers[..] == Partly(ts, id, t, op, x, y)
          invariant objs == objs0 + PartlySeen(ts, t, x, y)
          decreases g.RightDown(t).x - x
        {
          PartlyStep(ts, id, t, op, x, y);
          var k := g.TowerId(Point(x, y));
          ghost var before := towers[..];
          assert towers[k] == before[k];
          objs := objs + towers[k].objs;
          towers[k] := Mark(towers[k], id, op);
          assert towers[..] == before[k := Mark(ts[k], id, op)];
          x := x + 1;
        }
        PartlyRow(ts, id, t, op, y);
        y := y + 1;
      }
      PartlyEnd(ts, id, t, op);
    }

    method InsertObj(id: ObjectId, t: Point)
      requires Valid() && g.IsTower(t)
      modifies towers
      ensures Valid() && towers[..] == AddObj(g, old(towers[..]), id, t)
    {
      AllTowers(g);
      var k := g.TowerId(t);
      towers[k] := towers[k].(objs := towers[k].objs + {id});
    }

    method EraseObj(id: ObjectId, t: Point)
      requires Valid() && g.IsTower(t)
      modifies towers
      ensures Valid() && towers[..] == DelObj(g, old(towers[..]), id, t)
    {
      AllTowers(g);
      var k := g.TowerId(t);
      towers[k] := towers[k].(objs := towers[k].objs - {id});
    }

    method Watchers(t: Point) returns (ws: set<ObjectId>)
      requires Valid() && g.IsTower(t)
      ensures ws == Own(g, towers[..], t).watchers
    {
      TowerAtId(g, t);
      ws := towers[g.TowerId(t)].watchers;
    }

    method AddOrDeleteWatcher(id: ObjectId, p: Point, watcher0: set<ObjectId>, objs0: set<ObjectId>, op: Operator)
      returns (watcher: set<ObjectId>, objs: set<ObjectId>)
      requires Valid() && g.OnMap(p)
      modifies towers
      ensures Valid()
      ensures var t, ts := g.CellToTower(p), old(towers[..]);
              match op
              case Add =>
                && towers[..] == Entered(g, ts, id, t)
                && watcher == watcher0 + Own(g, ts, t).watchers
                && objs == objs0 + Seen(g, ts, t)
              case Del =>
                && towers[..] == Left(g, ts, id, t)
                && watcher == watcher0 + Own(g, ts, t).watchers - {id}
                && objs == objs0 + Seen(g, DelObj(g, ts, id, t), t)
    {
      hide DivUp;
      var t := g.CellToTower(p);
      var ws := Watchers(t);
      watcher := watcher0 + ws;
      if op.Del? {
        EraseObj(id, t);
        watcher := watcher - {id};
      }
      objs := SweepView(id, t, op, objs0);
      if op.Add? {
        InsertObj(id, t);
      }
    }

    method AddOrDeleteObject(id: ObjectId, p: Point, watcher0: set<ObjectId>, op: Operator)
      returns (watcher: set<ObjectId>)
      requires Valid() && g.OnMap(p)
      modifies towers
      ensures Valid()
      ensures var t, ts := g.CellToTower(p), old(towers[..]);
              && watcher == watcher0 + Own(g, ts, t).watchers
              && towers[..] == if op.Add? then AddObj(g, ts, id, t) else DelObj(g, ts, id, t)
    {
      var t := g.CellToTower(p);
      var ws := Watchers(t);
      watcher := watcher0 + ws;
      if op.Add? {
        InsertObj(id, t);
      } else {
        EraseObj(id, t);
      }
    }

    method MoveWatcher(id: ObjectId, op: Point, np: Point,
                       winsert0: set<ObjectId>, wsame0: set<ObjectId>, wremove0: set<ObjectId>,
                       addobjs0: set<ObjectId>, sameobjs0: set<ObjectId>, rmobjs0: set<ObjectId>)
      returns (winsert: set<ObjectId>, wsame: set<ObjectId>, wremove: set<ObjectId>,
               addobjs: set<ObjectId>, sameobjs: set<ObjectId>, rmobjs: set<ObjectId>)
      requires Valid() && g.OnMap(op) && g.OnMap(np)
      modifies towers
      ensures Valid()
      ensures var from, to, ts := g.CellToTower(op), g.CellToTower(np), old(towers[..]);
              towers[..] == MovedWatcher(g, ts, id, from, to)
      ensures var from, ts := g.CellToTower(op), old(towers[..]);
              from == g.CellToTower(np) ==>
                && wsame == wsame0 + Own(g, ts, from).watchers
                && winsert == winsert0 && wremove == wremove0
                && addobjs == addobjs0 && sameobjs == sameobjs0 && rmobjs == rmobjs0
      ensures var from, to := g.CellToTower(op), g.CellToTower(np);
              from != to ==>
                var gone := Left(g, old(towers[..]), id, from);
                var ow, nw := Own(g, gone, from).watchers, Own(g, gone, to).watchers;
                var oo, no := Seen(g, gone, from), Seen(g, gone, to);
                && winsert == winsert0 + (nw - ow)
                && wsame == wsame0 + ow * nw + {id} && wremove == wremove0 + (ow - nw)
                && addobjs == addobjs0 + (no - oo) && sameobjs == sameobjs0 + oo * no && rmobjs == rmobjs0 + (oo - no)
    {
      hide DivUp, Seen, AddObj, DelObj;
      winsert, wsame, wremove := winsert0, wsame0, wremove0;
      addobjs, sameobjs, rmobjs := addobjs0, sameobjs0, rmobjs0;
      var oldt, newt := g.CellToTower(op), g.CellToTower(np);
      if oldt == newt {
        var ws := Watchers(oldt);
        wsame := wsame + ws;
        return;
      }
      ghost var ts := towers[..];
      EraseObj(id, oldt);
      var oldobjs := SweepView(id, oldt, Del, {});
      ghost var gone := towers[..];
      SeenIgnoresMarks(DelObj(g, ts, id, oldt), id, oldt, Del);
      var ow := Watchers(oldt);
      var nw := Watchers(newt);
      winsert, wsame, wremove := SortedSets.MoveOject(ow, nw, winsert, wsame, wremove);
      wsame := wsame + {id};
      var newobjs := SweepView(id, newt, Add, {});
      addobjs, sameobjs, rmobjs := SortedSets.MoveOject(oldobjs, newobjs, addobjs, sameobjs, rmobjs);
      InsertObj(id, newt);
    }

    /** Marking watchers moves no objects. */
    lemma SeenIgnoresMarks(ts: Table, id: ObjectId, t: Point, op: Operator)
      requires Fits(g, ts)
      ensures Seen(g, MarkSeen(g, ts, id, t, op), t) == Seen(g, ts, t)
    {
      var r := MarkSeen(g, ts, id, t, op);
      assert forall k :: 0 <= k < |ts| ==> r[k].objs == ts[k].objs;
    }

    method MoveObject(id: ObjectId, op: Point, np: Point,
                      winsert0: set<ObjectId>, wsame0: set<ObjectId>, wremove0: set<ObjectId>)
      returns (moved: bool, winsert: set<ObjectId>, wsame: set<ObjectId>, wremove: set<ObjectId>)
      requires Valid() && g.OnMap(op) && g.OnMap(np)
      modifies towers
      ensures Valid() && moved == (g.CellToTower(op) != g.CellToTower(np))
      ensures towers[..] == MovedObject(g, old(towers[..]), id, g.CellToTower(op), g.CellToTower(np))
      ensures !moved ==> winsert == winsert0 && wsame == wsame0 && wremove == wremove0
      ensures moved ==>
                var ow := Own(g, old(towers[..]), g.CellToTower(op)).watchers;
                var nw := Own(g, old(towers[..]), g.CellToTower(np)).watchers;
                winsert == winsert0 + (nw - ow) && wsame == wsame0 + ow * nw && wremove == wremove0 + (ow - nw)
    {
      hide DivUp;
      winsert, wsame, wremove := winsert0, wsame0, wremove0;
      var oldt, newt := g.CellToTower(op), g.CellToTower(np);
      if oldt == newt {
        return false, winsert, wsame, wremove;
      }
      ghost var ts := towers[..];
      EraseObj(id, oldt);
      OwnIgnoresObjects(ts, id, oldt);
      hide AddObj, DelObj, Own;
      var ow := Watchers(oldt);
      var nw := Watchers(newt);
      winsert, wsame, wremove := SortedSets.MoveOject(ow, nw, winsert, wsame, wremove);
      InsertObj(id, newt);
      moved := true;
    }

    /** Erasing an object changes no watchers. */
    lemma OwnIgnoresObjects(ts: Table, id: ObjectId, t: Point)
      requires Fits(g, ts)
      ensures forall u :: g.IsTower(u) ==> Own(g, DelObj(g, ts, id, t), u).watchers == Own(g, ts, u).watchers
    {
      hide DivUp;
      AllTowers(g);
    }
  }
}
