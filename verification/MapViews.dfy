/**
  Who sees whom: every live player keeps a set of the players it sees, maintained from the
  answers of the tower index.  ViewLists gives the steps on values and proves what every
  run keeps; MapModule is the module that updates its tables in place.
 */
module ViewLists {
  import opened TowerGrid
  import opened TowerTable
  import opened SortedSets

  const MAX_VIEW_COUNT: nat := 100

  datatype Player = Player(location: Point, view: set<ObjectId>)

  // The table of live players.
  type Players = map<ObjectId, Player>

  // New players start here, with nobody in view.
  const BIRTH: Player := Player(Point(1, 1), {})

  function See(ps: Players, a: ObjectId, b: ObjectId): Players
    requires a in ps
  {
    ps[a := ps[a].(view := ps[a].view + {b})]
  }

  function Forget(ps: Players, a: ObjectId, b: ObjectId): Players {
    if a in ps then ps[a := ps[a].(view := ps[a].view - {b})] else ps
  }

  /** `me` and `b` enter each other's view, if both have room and `me` does not see itself. */
  function AddOne(ps: Players, me: ObjectId, b: ObjectId): (r: Players)
    requires me in ps
    ensures r.Keys == ps.Keys
  {
    var my := ps[me].view;
    if |my| < MAX_VIEW_COUNT && b !in my && b in ps && |ps[b].view| < MAX_VIEW_COUNT && me !in my
    then See(See(ps, me, b), b, me)
    else ps
  }

  function DelOne(ps: Players, me: ObjectId, b: ObjectId): (r: Players)
    requires me in ps
    ensures r.Keys == ps.Keys
  {
    if b in ps[me].view then Forget(Forget(ps, me, b), b, me) else ps
  }

  function AddViews(ps: Players, me: ObjectId, list: seq<ObjectId>): (r: Players)
    requires me in ps
    ensures r.Keys == ps.Keys
  {
    if |list| == 0 then ps else AddViews(AddOne(ps, me, list[0]), me, list[1..])
  }

  function DelViews(ps: Players, me: ObjectId, list: seq<ObjectId>): (r: Players)
    requires me in ps
    ensures r.Keys == ps.Keys
  {
    if |list| == 0 then ps else DelViews(DelOne(ps, me, list[0]), me, list[1..])
  }

  // ---------------------------------------------------------------- what views keep

  /** Views hold live players only, and seeing is mutual. */
  ghost predicate Symmetric(ps: Players) {
    forall a, b :: a in ps && b in ps[a].view ==> b in ps && a in ps[b].view
  }

  ghost predicate Capped(ps: Players) {
    forall a :: a in ps ==> |ps[a].view| <= MAX_VIEW_COUNT
  }

  /** Taking `gone` out of the view of `me`, and `me` out of theirs. */
  function Detached(ps: Players, me: ObjectId, gone: set<ObjectId>): Players {
    map p | p in ps :: ps[p].(view := if p == me then ps[p].view - gone
                                      else if p in gone then ps[p].view - {me}
                                      else ps[p].view)
  }

  lemma {:induction false} SubsetSize(a: set<ObjectId>, b: set<ObjectId>)
    requires a <= b
    ensures |a| <= |b|
  {
    assert b == a + (b - a);
  }

  lemma DetachedKeeps(ps: Players, me: ObjectId, gone: set<ObjectId>)
    requires Symmetric(ps) && Capped(ps)
    ensures var r := Detached(ps, me, gone); Symmetric(r) && Capped(r)
  {
    var r := Detached(ps, me, gone);
    forall p | p in r ensures |r[p].view| <= MAX_VIEW_COUNT {
      SubsetSize(r[p].view, ps[p].view);
    }
  }

  lemma SamePlayers(ps: Players, qs: Players)
    requires ps.Keys == qs.Keys
    requires forall p :: p in ps ==> ps[p].location == qs[p].location && ps[p].view == qs[p].view
    ensures ps == qs
  {
    forall p | p in ps ensures p in qs && ps[p] == qs[p] {
    }
  }

  lemma DelOneDetaches(ps: Players, me: ObjectId, b: ObjectId)
    requires me in ps && Symmetric(ps)
    ensures DelOne(ps, me, b) == Detached(ps, me, {b})
  {
    SamePlayers(DelOne(ps, me, b), Detached(ps, me, {b}));
  }

  lemma ElementsFirst(list: seq<ObjectId>)
    requires |list| > 0
    ensures Elements(list) == {list[0]} + Elements(list[1..])
  {
    assert list == [list[0]] + list[1..];
  }

  lemma DetachedTwice(ps: Players, me: ObjectId, a: set<ObjectId>, b: set<ObjectId>)
    ensures Detached(Detached(ps, me, a), me, b) == Detached(ps, me, a + b)
  {
    SamePlayers(Detached(Detached(ps, me, a), me, b), Detached(ps, me, a + b));
  }

  /** Erasing one by one is erasing all at once. */
  lemma {:induction false} DelViewsDetaches(ps: Players, me: ObjectId, list: seq<ObjectId>)
    requires me in ps && Symmetric(ps) && Capped(ps)
    ensures DelViews(ps, me, list) == Detached(ps, me, Elements(list))
    decreases |list|
  {
    hide DelOne, Symmetric, Capped;
    if |list| == 0 {
      assert Elements(list) == {};
      SamePlayers(Detached(ps, me, {}), ps);
    } else {
      var b := list[0];
      DelOneDetaches(ps, me, b);
      DetachedKeeps(ps, me, {b});
      DelViewsDetaches(Detached(ps, me, {b}), me, list[1..]);
      DetachedTwice(ps, me, {b}, Elements(list[1..]));
      ElementsFirst(list);
    }
  }

  /** How additions may change views: only pairs with `me`, only with players of the list. */
  ghost predicate Grown(ps: Players, r: Players, me: ObjectId, list: set<ObjectId>)
    requires me in ps
  {
    && r.Keys == ps.Keys
    && (forall p :: p in ps ==> r[p].location == ps[p].location)
    && ps[me].view <= r[me].view <= ps[me].view + list
    && forall p :: p in ps && p != me ==>
         r[p].view == if p in r[me].view - ps[me].view then ps[p].view + {me} else ps[p].view
  }

  lemma AddOneKeeps(ps: Players, me: ObjectId, b: ObjectId)
    requires me in ps && Symmetric(ps) && Capped(ps)
    ensures var r := AddOne(ps, me, b); Symmetric(r) && Capped(r) && Grown(ps, r, me, {b})
  {
  }

  lemma GrownTwice(ps: Players, q: Players, r: Players, me: ObjectId, a: set<ObjectId>, b: set<ObjectId>)
    requires me in ps && Grown(ps, q, me, a) && Grown(q, r, me, b) && Symmetric(ps)
    ensures Grown(ps, r, me, a + b)
  {
  }

  /** Additions keep views mutual and capped, and change nothing else. */
  lemma {:induction false} AddViewsKeeps(ps: Players, me: ObjectId, list: seq<ObjectId>)
    requires me in ps && Symmetric(ps) && Capped(ps)
    ensures var r := AddViews(ps, me, list);
            Symmetric(r) && Capped(r) && Grown(ps, r, me, Elements(list))
    decreases |list|
  {
    if |list| > 0 {
      var b := list[0];
      AddOneKeeps(ps, me, b);
      AddViewsKeeps(AddOne(ps, me, b), me, list[1..]);
      GrownTwice(ps, AddOne(ps, me, b), AddViews(ps, me, list), me, {b}, Elements(list[1..]));
      ElementsFirst(list);
    }
  }

  /**
    Nobody is passed over without reason: a live player of the list is in view, or somebody
    is full, or `me` sees itself.
   */
  lemma {:induction false} AddViewsComplete(ps: Players, me: ObjectId, list: seq<ObjectId>, b: ObjectId)
    requires me in ps && Symmetric(ps) && Capped(ps) && b in list && b in ps
    ensures var r := AddViews(ps, me, list);
            b in r[me].view || me in r[me].view || |r[me].view| == MAX_VIEW_COUNT || |r[b].view| == MAX_VIEW_COUNT
    decreases |list|
  {
    var q, r := AddOne(ps, me, list[0]), AddViews(ps, me, list);
    AddOneKeeps(ps, me, list[0]);
    AddViewsKeeps(q, me, list[1..]);
    if b == list[0] {
      SubsetSize(q[me].view, r[me].view);
      SubsetSize(q[b].view, r[b].view);
    } else {
      assert b in list[1..];
      AddViewsComplete(q, me, list[1..], b);
    }
  }

  // ---------------------------------------------------------------- the server's steps

  // `ready` are the players that entered the index, by reporting ready or by moving.
  datatype State = State(players: Players, table: Table, ready: set<ObjectId>)

  datatype Event =
    | Login(id: ObjectId)
    | Ready(id: ObjectId)
    | Move(id: ObjectId, to: Point, walkable: bool)
    | Logout(id: ObjectId)

  ghost predicate AllOnMap(g: Grid, ps: Players) {
    g.Valid() && g.w > 1 && g.h > 1 && forall p :: p in ps ==> g.OnMap(ps[p].location)
  }

  function TowerOf(g: Grid, ps: Players, p: ObjectId): (t: Point)
    requires g.Valid() && p in ps && g.OnMap(ps[p].location)
    ensures g.IsTower(t)
  {
    g.CellToTower(ps[p].location)
  }

  ghost predicate NearPair(g: Grid, ps: Players, ready: set<ObjectId>, a: ObjectId, b: ObjectId)
    requires AllOnMap(g, ps) && a in ps && b in ps
  {
    a in ready && b in ready && g.Sees(TowerOf(g, ps, a), TowerOf(g, ps, b))
  }

  /** Players in view have entered the index and stand in a tower the owner sees. */
  ghost predicate Near(g: Grid, ps: Players, ready: set<ObjectId>)
    requires AllOnMap(g, ps)
  {
    forall a, b :: a in ps && b in ps[a].view ==> b in ps && NearPair(g, ps, ready, a, b)
  }

  ghost function WorldOf(s: State): World {
    World(map p | p in s.players && p in s.ready :: s.players[p].location, map[])
  }

  /** What every run keeps. */
  ghost predicate Inv(g: Grid, s: State) {
    && AllOnMap(g, s.players) && s.ready <= s.players.Keys
    && Symmetric(s.players) && Capped(s.players) && Near(g, s.players, s.ready)
    && Agrees(g, s.table, WorldOf(s))
  }

  function LoginStep(s: State, id: ObjectId): State {
    if id in s.players then s else s.(players := s.players[id := BIRTH])
  }

  ghost function ReadyStep(g: Grid, s: State, id: ObjectId): State
    requires Inv(g, s)
  {
    if id !in s.players then s
    else
      var t := TowerOf(g, s.players, id);
      State(AddViews(s.players, id, Ascending(Own(g, s.table, t).watchers)),
            Entered(g, s.table, id, t), s.ready + {id})
  }

  ghost function MoveStep(g: Grid, s: State, id: ObjectId, to: Point): State
    requires Inv(g, s) && g.OnMap(to)
  {
    if id !in s.players then s
    else
      var from, dest := TowerOf(g, s.players, id), g.CellToTower(to);
      if from == dest then s.(players := Relocated(s.players, id, to))
      else
        var gone := Left(g, s.table, id, from);
        var ow, nw := Own(g, gone, from).watchers, Own(g, gone, dest).watchers;
        var ps := SwapViews(s.players, id, ow - nw, nw - ow);
        State(Relocated(ps, id, to), MovedWatcher(g, s.table, id, from, dest), s.ready + {id})
  }

  ghost function LogoutStep(g: Grid, s: State, id: ObjectId): State
    requires Inv(g, s)
  {
    if id !in s.players then s
    else
      var t := TowerOf(g, s.players, id);
      State(DelViews(s.players, id, Ascending(Own(g, s.table, t).watchers - {id})) - {id},
            Left(g, s.table, id, t), s.ready - {id})
  }

  // ---------------------------------------------------------------- each step keeps the invariant

  lemma OwnScan(g: Grid, ts: Table, w: World, t: Point)
    requires Agrees(g, ts, w) && g.IsTower(t)
    ensures Own(g, ts, t).watchers == Watching(g, w.watchers, t)
  {
    TowerAtId(g, t);
  }

  /** Entering twice at the same place changes nothing. */
  lemma EnterAgainAgrees(g: Grid, ts: Table, w: World, id: ObjectId)
    requires Agrees(g, ts, w) && id in w.watchers
    ensures Agrees(g, Entered(g, ts, id, g.CellToTower(w.watchers[id])), w)
  {
    var r := Entered(g, ts, id, g.CellToTower(w.watchers[id]));
    forall k | 0 <= k < |ts| ensures r[k] == ts[k] {
      assert ts[k] == ScanTower(g, w, g.TowerAt(k));
    }
  }

  /** Leaving without having entered changes nothing. */
  lemma LeaveNothingAgrees(g: Grid, ts: Table, w: World, id: ObjectId, t: Point)
    requires Agrees(g, ts, w) && id !in w.watchers && id !in w.objects
    ensures Agrees(g, Left(g, ts, id, t), w)
  {
    var r := Left(g, ts, id, t);
    forall k | 0 <= k < |ts| ensures r[k] == ts[k] {
      assert ts[k] == ScanTower(g, w, g.TowerAt(k));
    }
  }

  /** The index after a live player left, whether or not it had entered. */
  lemma LeaveIndex(g: Grid, s: State, id: ObjectId)
    requires Inv(g, s) && id in s.players
    ensures Agrees(g, Left(g, s.table, id, TowerOf(g, s.players, id)), WorldOf(s.(ready := s.ready - {id})))
  {
    hide Symmetric, Capped, Near;
    var w, v := WorldOf(s), WorldOf(s.(ready := s.ready - {id}));
    if id in s.ready {
      LeaveAgrees(g, s.table, w, id);
      assert w.watchers - {id} == v.watchers;
    } else {
      LeaveNothingAgrees(g, s.table, w, id, TowerOf(g, s.players, id));
      assert w == v;
    }
  }

  lemma LoginViews(g: Grid, ps: Players, ready: set<ObjectId>, id: ObjectId)
    requires AllOnMap(g, ps) && Symmetric(ps) && Capped(ps) && Near(g, ps, ready) && id !in ps
    ensures var r := ps[id := BIRTH]; AllOnMap(g, r) && Symmetric(r) && Capped(r) && Near(g, r, ready)
  {
    hide Grid.CellToTower;
    var r := ps[id := BIRTH];
    forall a, b | a in r && b in r[a].view
      ensures b in r && NearPair(g, r, ready, a, b)
    {
      assert a in ps && b in ps[a].view && NearPair(g, ps, ready, a, b);
    }
  }

  lemma LoginKeeps(g: Grid, s: State, id: ObjectId)
    requires Inv(g, s)
    ensures Inv(g, LoginStep(s, id))
  {
    assert WorldOf(LoginStep(s, id)) == WorldOf(s);
    if id !in s.players {
      LoginViews(g, s.players, s.ready, id);
      hide Agrees, Near, Symmetric, Capped;
    }
  }

  lemma SeesBothWays(g: Grid, t: Point, u: Point)
    requires g.Shaped()
    ensures g.Sees(t, u) <==> g.Sees(u, t)
    ensures g.Sees(t, t)
  {
  }

  /** New views are near when the listed players see the tower of `me`. */
  lemma ReadyViews(g: Grid, ps: Players, me: ObjectId, list: set<ObjectId>, r: Players,
                   ready: set<ObjectId>)
    requires me in ps && AllOnMap(g, ps) && Symmetric(ps) && Near(g, ps, ready)
    requires Grown(ps, r, me, list) && Symmetric(r)
    requires forall b :: b in list ==> b in ps && b in ready && g.Sees(TowerOf(g, ps, b), TowerOf(g, ps, me))
    ensures AllOnMap(g, r) && Near(g, r, ready + {me})
  {
    hide Grid.CellToTower;
    assert AllOnMap(g, r);
    forall a, b | a in r && b in r[a].view
      ensures b in r && NearPair(g, r, ready + {me}, a, b)
    {
      assert b in r && a in r[b].view;
      assert TowerOf(g, r, a) == TowerOf(g, ps, a) && TowerOf(g, r, b) == TowerOf(g, ps, b);
      SeesBothWays(g, TowerOf(g, ps, a), TowerOf(g, ps, b));
      if b !in ps[a].view {
        assert a == me || b == me;
        assert a == me ==> b in list;
        assert b == me ==> a in list;
      }
    }
  }

  /** The watchers of a tower are live players that entered and see it. */
  lemma ListedIsNear(g: Grid, s: State, t: Point)
    requires Inv(g, s) && g.IsTower(t)
    ensures forall b :: b in Own(g, s.table, t).watchers <==>
              b in s.players && b in s.ready && g.Sees(TowerOf(g, s.players, b), t)
  {
    OwnScan(g, s.table, WorldOf(s), t);
  }

  lemma ReadyViewsKeep(g: Grid, s: State, id: ObjectId)
    requires Inv(g, s) && id in s.players
    ensures var r := ReadyStep(g, s, id).players;
            AllOnMap(g, r) && Symmetric(r) && Capped(r) && Near(g, r, s.ready + {id})
            && Grown(s.players, r, id, Own(g, s.table, TowerOf(g, s.players, id)).watchers)
  {
    var t := TowerOf(g, s.players, id);
    var ws := Own(g, s.table, t).watchers;
    ListedIsNear(g, s, t);
    hide Agrees, Near, Symmetric, Capped, AddViews, Entered, Own, Grid.CellToTower, Grid.Sees, Grown, WorldOf;
    AddViewsKeeps(s.players, id, Ascending(ws));
    ReadyViews(g, s.players, id, ws, ReadyStep(g, s, id).players, s.ready);
  }

  /** The index only knows who entered and where they stand. */
  lemma IndexFollows(g: Grid, ts: Table, s: State, r: State)
    requires AllOnMap(g, s.players) && Agrees(g, ts, WorldOf(s))
    requires forall p :: p in r.players && p in r.ready <==> p in s.players && p in s.ready
    requires forall p :: p in r.players && p in r.ready ==> r.players[p].location == s.players[p].location
    ensures Agrees(g, ts, WorldOf(r))
  {
    var v, w := WorldOf(r), WorldOf(s);
    forall p ensures p in v.watchers <==> p in w.watchers {
    }
    assert v.watchers.Keys == w.watchers.Keys;
    hide Grid.CellToTower;
    SameTowersAgree(g, ts, w, v);
  }

  /** The index after a live player reported ready, whether or not it had entered. */
  lemma EnterIndex(g: Grid, s: State, id: ObjectId)
    requires Inv(g, s) && id in s.players
    ensures Agrees(g, Entered(g, s.table, id, TowerOf(g, s.players, id)), WorldOf(s.(ready := s.ready + {id})))
  {
    hide Symmetric, Capped, Near;
    var w, v := WorldOf(s), WorldOf(s.(ready := s.ready + {id}));
    if id in s.ready {
      EnterAgainAgrees(g, s.table, w, id);
      assert v == w;
    } else {
      EnterAgrees(g, s.table, w, id, s.players[id].location);
      assert v.watchers == w.watchers[id := s.players[id].location];
    }
  }

  lemma ReadyKeeps(g: Grid, s: State, id: ObjectId)
    requires Inv(g, s)
    ensures Inv(g, ReadyStep(g, s, id))
  {
    if id in s.players {
      var r := ReadyStep(g, s, id);
      ReadyViewsKeep(g, s, id);
      EnterIndex(g, s, id);
      IndexFollows(g, r.table, s.(ready := s.ready + {id}), r);
      hide Agrees, Near, Symmetric, Capped, AddViews, Entered, Own, Grid.CellToTower, Grid.Sees, Grown, WorldOf;
    }
  }

  function Relocated(ps: Players, id: ObjectId, to: Point): Players
    requires id in ps
  {
    ps[id := ps[id].(location := to)]
  }

  lemma RelocatedViews(ps: Players, id: ObjectId, to: Point)
    requires id in ps && Symmetric(ps) && Capped(ps)
    ensures Symmetric(Relocated(ps, id, to)) && Capped(Relocated(ps, id, to))
  {
  }

  /** Views after a move, when those kept and those added see the new tower. */
  lemma MoveViews(g: Grid, ps: Players, me: ObjectId, to: Point, gone: set<ObjectId>, list: set<ObjectId>,
                  r: Players, ready: set<ObjectId>)
    requires me in ps && AllOnMap(g, ps) && g.OnMap(to) && Symmetric(ps) && Near(g, ps, ready)
    requires Grown(Detached(ps, me, gone), r, me, list) && Symmetric(r)
    requires forall b :: b in ps[me].view - gone && b != me ==> b in ps && g.Sees(TowerOf(g, ps, b), g.CellToTower(to))
    requires forall b :: b in list ==> b in ps && b in ready && g.Sees(TowerOf(g, ps, b), g.CellToTower(to))
    requires Symmetric(Relocated(r, me, to))
    ensures AllOnMap(g, Relocated(r, me, to)) && Near(g, Relocated(r, me, to), ready + {me})
  {
    hide Grid.CellToTower, Grid.Sees;
    var q := Relocated(r, me, to);
    forall a, b | a in q && b in q[a].view
      ensures b in q && NearPair(g, q, ready + {me}, a, b)
    {
      assert b in r && b in r[a].view && a in r[b].view;
      SeesBothWays(g, TowerOf(g, q, a), TowerOf(g, q, b));
      if a != me && b != me {
        assert b in ps[a].view;
      } else if a != b {
        var o := if a == me then b else a;
        assert o in r[me].view && TowerOf(g, q, o) == TowerOf(g, ps, o);
        assert o in list || o in ps[me].view - gone;
      }
    }
  }

  /** Who is told to leave and who to enter when a live player changes towers. */
  lemma MoveLists(g: Grid, s: State, id: ObjectId, dest: Point)
    requires Inv(g, s) && id in s.players && g.IsTower(dest)
    ensures var from := TowerOf(g, s.players, id);
            var gone := Left(g, s.table, id, from);
            var ow, nw := Own(g, gone, from).watchers, Own(g, gone, dest).watchers;
            && (forall b :: b in nw <==>
                  b != id && b in s.players && b in s.ready && g.Sees(TowerOf(g, s.players, b), dest))
            && (forall b :: b in s.players[id].view && b != id ==> b in ow)
  {
    var from := TowerOf(g, s.players, id);
    var gone, v := Left(g, s.table, id, from), s.(ready := s.ready - {id});
    LeaveIndex(g, s, id);
    OwnScan(g, gone, WorldOf(v), from);
    OwnScan(g, gone, WorldOf(v), dest);
    forall b | b in s.players[id].view && b != id ensures b in Own(g, gone, from).watchers {
      SeesBothWays(g, from, TowerOf(g, s.players, b));
      assert b in WorldOf(v).watchers;
    }
  }

  lemma SwapViewsKeep(ps: Players, id: ObjectId, gone: set<ObjectId>, come: set<ObjectId>)
    requires id in ps && Symmetric(ps) && Capped(ps)
    ensures var r := SwapViews(ps, id, gone, come);
            && Symmetric(r) && Capped(r) && Grown(Detached(ps, id, gone), r, id, come)
            && forall p :: p in ps ==> r[p].location == ps[p].location
  {
    DelViewsDetaches(ps, id, Ascending(gone));
    DetachedKeeps(ps, id, gone);
    AddViewsKeeps(Detached(ps, id, gone), id, Ascending(come));
  }

  lemma ViewsArePlayers(ps: Players, id: ObjectId)
    requires Symmetric(ps) && id in ps
    ensures forall b :: b in ps[id].view ==> b in ps
  {
  }

  lemma MoveViewsKeep(g: Grid, s: State, id: ObjectId, to: Point)
    requires Inv(g, s) && id in s.players && g.OnMap(to) && TowerOf(g, s.players, id) != g.CellToTower(to)
    ensures var r := MoveStep(g, s, id, to).players;
            && AllOnMap(g, r) && Symmetric(r) && Capped(r) && Near(g, r, s.ready + {id})
            && r.Keys == s.players.Keys
            && forall p :: p in r ==> r[p].location == if p == id then to else s.players[p].location
  {
    var from, dest, ps := TowerOf(g, s.players, id), g.CellToTower(to), s.players;
    var left := Left(g, s.table, id, from);
    var ow, nw := Own(g, left, from).watchers, Own(g, left, dest).watchers;
    MoveLists(g, s, id, dest);
    hide Agrees, AddViews, DelViews, Entered, Left, Own, Grid.CellToTower, Grid.Sees, WorldOf, Near, Symmetric, Capped;
    var r := SwapViews(ps, id, ow - nw, nw - ow);
    SwapViewsKeep(ps, id, ow - nw, nw - ow);
    hide Grown, SwapViews;
    ViewsArePlayers(ps, id);
    RelocatedViews(r, id, to);
    MoveViews(g, ps, id, to, ow - nw, nw - ow, r, s.ready);
  }

  /** Out of view with some, into view with others. */
  function SwapViews(ps: Players, id: ObjectId, gone: set<ObjectId>, come: set<ObjectId>): (r: Players)
    requires id in ps
    ensures r.Keys == ps.Keys
  {
    AddViews(DelViews(ps, id, Ascending(gone)), id, Ascending(come))
  }

  /** A step inside a tower changes a location and nothing else. */
  lemma MoveWithin(g: Grid, s: State, id: ObjectId, to: Point)
    requires Inv(g, s) && id in s.players && g.OnMap(to) && TowerOf(g, s.players, id) == g.CellToTower(to)
    ensures Inv(g, s.(players := Relocated(s.players, id, to)))
  {
    var r := s.(players := Relocated(s.players, id, to));
    RelocatedViews(s.players, id, to);
    hide Grid.CellToTower, Agrees, Capped;
    SameTowersAgree(g, s.table, WorldOf(s), WorldOf(r));
    forall a, b | a in r.players && b in r.players[a].view
      ensures b in r.players && NearPair(g, r.players, r.ready, a, b)
    {
      assert b in s.players[a].view && NearPair(g, s.players, s.ready, a, b);
    }
  }

  lemma MoveIndex(g: Grid, s: State, id: ObjectId, to: Point)
    requires Inv(g, s) && id in s.players && g.OnMap(to)
    requires TowerOf(g, s.players, id) != g.CellToTower(to)
    ensures Agrees(g, MovedWatcher(g, s.table, id, TowerOf(g, s.players, id), g.CellToTower(to)),
                   WorldOf(State(Relocated(s.players, id, to), s.table, s.ready + {id})))
  {
    LeaveIndex(g, s, id);
    hide Symmetric, Capped, Near, Agrees, Entered, Left;
    var v := WorldOf(s.(ready := s.ready - {id}));
    EnterAgrees(g, Left(g, s.table, id, TowerOf(g, s.players, id)), v, id, to);
    assert v.watchers[id := to] == WorldOf(State(Relocated(s.players, id, to), s.table, s.ready + {id})).watchers;
  }

  lemma MoveKeeps(g: Grid, s: State, id: ObjectId, to: Point)
    requires Inv(g, s) && g.OnMap(to)
    ensures Inv(g, MoveStep(g, s, id, to))
  {
    if id in s.players {
      var r := MoveStep(g, s, id, to);
      if TowerOf(g, s.players, id) == g.CellToTower(to) {
        MoveWithin(g, s, id, to);
      } else {
        MoveViewsKeep(g, s, id, to);
        MoveIndex(g, s, id, to);
        IndexFollows(g, r.table, State(Relocated(s.players, id, to), s.table, s.ready + {id}), r);
        hide Agrees, Near, Symmetric, Capped, AddViews, DelViews, Entered, Left, Own, Grid.CellToTower, WorldOf;
      }
    }
  }

  lemma ViewsLive(ps: Players)
    requires Symmetric(ps)
    ensures forall a, b :: a in ps && b in ps[a].view ==> b in ps
  {
  }

  /** A player nobody else sees can be removed. */
  lemma RemoveUnseen(d: Players, id: ObjectId)
    requires Symmetric(d) && Capped(d) && forall a :: a in d && a != id ==> id !in d[a].view
    ensures Symmetric(d - {id}) && Capped(d - {id})
  {
  }

  lemma NoTrace(ps: Players, id: ObjectId, gone: set<ObjectId>)
    requires Symmetric(ps) && Capped(ps) && id in ps
    requires forall b :: b in ps[id].view && b != id ==> b in gone
    ensures var r := Detached(ps, id, gone) - {id};
            && Symmetric(r) && Capped(r)
            && r.Keys == ps.Keys - {id}
            && forall a :: a in r ==>
                 a != id && r[a].location == ps[a].location && r[a].view <= ps[a].view && id !in r[a].view
  {
    DetachedKeeps(ps, id, gone);
    var d := Detached(ps, id, gone);
    forall a | a in d && a != id ensures id !in d[a].view {
      if id in ps[a].view {
        assert a in ps[id].view;
      }
    }
    hide Detached;
    RemoveUnseen(d, id);
  }

  /** Once everybody in view is detached, a player can go without leaving a trace. */
  lemma WithoutViews(g: Grid, ps: Players, id: ObjectId, gone: set<ObjectId>, ready: set<ObjectId>)
    requires AllOnMap(g, ps) && Symmetric(ps) && Capped(ps) && Near(g, ps, ready) && id in ps
    requires forall b :: b in ps[id].view && b != id ==> b in gone
    ensures var r := Detached(ps, id, gone) - {id};
            && AllOnMap(g, r) && Symmetric(r) && Capped(r) && Near(g, r, ready - {id})
            && r.Keys == ps.Keys - {id} && forall p :: p in r ==> r[p].location == ps[p].location
  {
    hide Grid.CellToTower, Grid.Sees;
    NoTrace(ps, id, gone);
    var r := Detached(ps, id, gone) - {id};
    hide Capped, Detached, Symmetric;
    assert AllOnMap(g, r);
    ViewsLive(r);
    forall a, b | a in r && b in r[a].view
      ensures b in r && NearPair(g, r, ready - {id}, a, b)
    {
      assert a in ps && b in ps[a].view && NearPair(g, ps, ready, a, b);
    }
  }

  lemma LogoutViewsKeep(g: Grid, s: State, id: ObjectId)
    requires Inv(g, s) && id in s.players
    ensures var r := LogoutStep(g, s, id).players;
            && AllOnMap(g, r) && Symmetric(r) && Capped(r) && Near(g, r, s.ready - {id})
            && r.Keys == s.players.Keys - {id}
            && forall p :: p in r ==> r[p].location == s.players[p].location
  {
    var t, ps := TowerOf(g, s.players, id), s.players;
    var ws := Own(g, s.table, t).watchers - {id};
    ListedIsNear(g, s, t);
    hide Agrees, DelViews, Left, Own, WorldOf;
    DelViewsDetaches(ps, id, Ascending(ws));
    DetachedKeeps(ps, id, ws);
    forall b | b in ps[id].view && b != id ensures b in ws {
      SeesBothWays(g, t, TowerOf(g, ps, b));
    }
    WithoutViews(g, ps, id, ws, s.ready);
  }

  lemma LogoutKeeps(g: Grid, s: State, id: ObjectId)
    requires Inv(g, s)
    ensures Inv(g, LogoutStep(g, s, id)) && id !in LogoutStep(g, s, id).players
  {
    if id in s.players {
      var r := LogoutStep(g, s, id);
      LogoutViewsKeep(g, s, id);
      LeaveIndex(g, s, id);
      IndexFollows(g, r.table, s.(ready := s.ready - {id}), r);
      hide Agrees, Near, Symmetric, Capped, DelViews, Left, Own, Grid.CellToTower, WorldOf;
    }
  }

  // ---------------------------------------------------------------- whole runs

  /** Callers owe moves inside the map; whether the cell can be walked on is looked up. */
  ghost predicate InBounds(g: Grid, e: Event) {
    e.Move? ==> g.OnMap(e.to)
  }

  ghost function Step(g: Grid, s: State, e: Event): State
    requires Inv(g, s) && InBounds(g, e)
  {
    match e
    case Login(id) => LoginStep(s, id)
    case Ready(id) => ReadyStep(g, s, id)
    case Move(id, to, walkable) => if walkable then MoveStep(g, s, id, to) else s
    case Logout(id) => LogoutStep(g, s, id)
  }

  lemma StepKeeps(g: Grid, s: State, e: Event)
    requires Inv(g, s) && InBounds(g, e)
    ensures Inv(g, Step(g, s, e))
  {
    hide Inv;
    match e
    case Login(id) => LoginKeeps(g, s, id);
    case Ready(id) => ReadyKeeps(g, s, id);
    case Move(id, to, walkable) => if walkable { MoveKeeps(g, s, id, to); }
    case Logout(id) => LogoutKeeps(g, s, id);
  }

  ghost function Run(g: Grid, s: State, events: seq<Event>): (r: State)
    requires Inv(g, s) && forall e :: e in events ==> InBounds(g, e)
    ensures Inv(g, r)
    decreases |events|
  {
    if |events| == 0 then s
    else
      StepKeeps(g, s, events[0]);
      Run(g, Step(g, s, events[0]), events[1..])
  }

  function Start(g: Grid): State
    requires g.Valid()
  {
    State(map[], NoTowers(g), {})
  }

  lemma StartKeeps(g: Grid)
    requires g.Valid() && g.w > 1 && g.h > 1
    ensures Inv(g, Start(g))
  {
    assert WorldOf(Start(g)).watchers == map[];
    IndexAgreesWithScan(g, []);
  }

  /**
    Main result: after any run of logins, readies, moves and logouts, seeing is mutual,
    no view is over the cap, views hold live players only, and every other player in a
    view is registered as a watcher of its owner's tower.
   */
  lemma EveryRunKeepsViews(g: Grid, events: seq<Event>)
    requires g.Valid() && g.w > 1 && g.h > 1 && forall e :: e in events ==> InBounds(g, e)
    ensures Inv(g, Start(g))
    ensures var s := Run(g, Start(g), events);
            && (forall a, b :: a in s.players && b in s.players ==>
                  (b in s.players[a].view <==> a in s.players[b].view))
            && (forall a :: a in s.players ==> |s.players[a].view| <= MAX_VIEW_COUNT)
            && (forall a, b :: a in s.players && b in s.players[a].view ==> b in s.players)
            && (forall a, b :: a in s.players && b in s.players[a].view ==>
                  AllOnMap(g, s.players) && b in Own(g, s.table, TowerOf(g, s.players, a)).watchers)
  {
    StartKeeps(g);
    var s := Run(g, Start(g), events);
    forall a, b | a in s.players && b in s.players[a].view
      ensures b in Own(g, s.table, TowerOf(g, s.players, a)).watchers
    {
      ListedIsNear(g, s, TowerOf(g, s.players, a));
      assert NearPair(g, s.players, s.ready, a, b);
      SeesBothWays(g, TowerOf(g, s.players, a), TowerOf(g, s.players, b));
    }
  }

  /** After a logout nobody sees the departed player. */
  lemma LogoutLeavesNoTrace(g: Grid, s: State, id: ObjectId)
    requires Inv(g, s)
    ensures var r := LogoutStep(g, s, id).players;
            id !in r && forall a :: a in r ==> id !in r[a].view
  {
    LogoutKeeps(g, s, id);
  }

  // ---------------------------------------------------------------- seeing oneself

  ghost predicate Irreflexive(ps: Players) {
    forall a :: a in ps ==> a !in ps[a].view
  }

  lemma {:induction false} AddViewsApart(ps: Players, me: ObjectId, list: seq<ObjectId>)
    requires me in ps && Symmetric(ps) && Capped(ps) && Irreflexive(ps) && me !in list
    ensures Irreflexive(AddViews(ps, me, list))
    decreases |list|
  {
    if |list| > 0 {
      AddOneKeeps(ps, me, list[0]);
      AddViewsApart(AddOne(ps, me, list[0]), me, list[1..]);
    }
  }

  lemma {:induction false} AddViewsConcat(ps: Players, me: ObjectId, a: seq<ObjectId>, b: seq<ObjectId>)
    requires me in ps
    ensures AddViews(ps, me, a + b) == AddViews(AddViews(ps, me, a), me, b)
    decreases |a|
  {
    if |a| == 0 {
      assert a + b == b;
    } else {
      var all := a + b;
      assert all[0] == a[0] && all[1..] == a[1..] + b;
      AddViewsConcat(AddOne(ps, me, a[0]), me, a[1..], b);
    }
  }

  /** The players of a list that would enter a view if there were no end to the room in it. */
  function Entrants(ps: Players, me: ObjectId, list: set<ObjectId>): set<ObjectId>
    requires me in ps
  {
    set b | b in list && b in ps && b !in ps[me].view && |ps[b].view| < MAX_VIEW_COUNT
  }

  predicate Full(ps: Players, me: ObjectId, list: set<ObjectId>)
    requires me in ps
  {
    |ps[me].view| + |Entrants(ps, me, list)| >= MAX_VIEW_COUNT
  }

  /** A listed player with room enters the view when there is room in it, and nobody else does. */
  lemma AddOneEnters(ps: Players, me: ObjectId, b: ObjectId)
    requires me in ps && me !in ps[me].view && me != b
    ensures var q := AddOne(ps, me, b);
            if b in Entrants(ps, me, {b}) && |ps[me].view| < MAX_VIEW_COUNT
            then q[me].view == ps[me].view + {b} && forall p :: p in ps && p != me && p != b ==> q[p] == ps[p]
            else q == ps
  {
  }

  lemma EntrantsNext(ps: Players, me: ObjectId, b: ObjectId, rest: set<ObjectId>)
    requires me in ps && me !in ps[me].view && me != b && me !in rest && b !in rest
    ensures var q, open := AddOne(ps, me, b), Entrants(ps, me, {b} + rest);
            if b in open && |ps[me].view| < MAX_VIEW_COUNT
            then q[me].view == ps[me].view + {b} && open == Entrants(q, me, rest) + {b} && b !in Entrants(q, me, rest)
            else q == ps && open == Entrants(ps, me, rest) + (if b in open then {b} else {})
  {
    AddOneEnters(ps, me, b);
    hide AddOne;
  }

  lemma FullNext(ps: Players, me: ObjectId, b: ObjectId, rest: set<ObjectId>)
    requires me in ps && Symmetric(ps) && Capped(ps) && Irreflexive(ps) && me != b && me !in rest && b !in rest
    ensures Full(AddOne(ps, me, b), me, rest) <==> Full(ps, me, {b} + rest)
  {
    EntrantsNext(ps, me, b, rest);
    var q, open := AddOne(ps, me, b), Entrants(ps, me, {b} + rest);
    assert b in open ==> b !in ps[me].view;
    hide Symmetric, Capped, Irreflexive, Entrants, AddOne;
    if b !in open {
      assert open == Entrants(ps, me, rest);
    }
  }

  lemma AddOneApart(ps: Players, me: ObjectId, b: ObjectId)
    requires me in ps && Symmetric(ps) && Capped(ps) && Irreflexive(ps) && me != b
    ensures Irreflexive(AddOne(ps, me, b))
  {
  }

  /** Whether a view fills up can be counted beforehand. */
  lemma {:induction false} FillsUpIff(ps: Players, me: ObjectId, list: seq<ObjectId>)
    requires me in ps && Symmetric(ps) && Capped(ps) && Irreflexive(ps) && me !in list && Sorted(list)
    ensures |AddViews(ps, me, list)[me].view| == MAX_VIEW_COUNT <==> Full(ps, me, Elements(list))
    decreases |list|
  {
    if |list| == 0 {
      assert Entrants(ps, me, Elements(list)) == {};
      assert |ps[me].view| <= MAX_VIEW_COUNT;
    } else {
      var b, rest := list[0], Elements(list[1..]);
      ElementsFirst(list);
      assert b !in rest;
      FullNext(ps, me, b, rest);
      AddOneKeeps(ps, me, b);
      AddOneApart(ps, me, b);
      hide Symmetric, Capped, Irreflexive, Full, AddOne, Grown;
      FillsUpIff(AddOne(ps, me, b), me, list[1..]);
    }
  }

  lemma AddSelfThen(q: Players, me: ObjectId, after: seq<ObjectId>)
    requires me in q && Symmetric(q) && Capped(q) && Irreflexive(q) && me !in after
    ensures Irreflexive(AddViews(q, me, [me] + after)) <==> |q[me].view| == MAX_VIEW_COUNT
  {
    var list := [me] + after;
    assert list[0] == me && list[1..] == after;
    AddOneKeeps(q, me, me);
    AddViewsKeeps(AddOne(q, me, me), me, after);
    if |q[me].view| == MAX_VIEW_COUNT {
      AddViewsApart(q, me, after);
    }
  }

  /** With itself on the list, a player stays out of its own view only if the view is full by then. */
  lemma AddViewsSelf(ps: Players, me: ObjectId, before: seq<ObjectId>, after: seq<ObjectId>)
    requires me in ps && Symmetric(ps) && Capped(ps) && Irreflexive(ps) && me !in before && me !in after
    requires Sorted(before)
    ensures Irreflexive(AddViews(ps, me, before + ([me] + after))) <==> Full(ps, me, Elements(before))
  {
    AddViewsConcat(ps, me, before, [me] + after);
    AddViewsKeeps(ps, me, before);
    AddViewsApart(ps, me, before);
    FillsUpIff(ps, me, before);
    AddSelfThen(AddViews(ps, me, before), me, after);
  }

  function LowerIds(ws: set<ObjectId>, id: ObjectId): set<ObjectId> {
    set b | b in ws && b < id
  }

  lemma SortedPrefix(q: seq<ObjectId>, k: nat)
    requires Sorted(q) && k < |q|
    ensures q == q[..k] + ([q[k]] + q[k + 1..]) && q[k] !in q[..k] && q[k] !in q[k + 1..]
    ensures Sorted(q[..k]) && Elements(q[..k]) == LowerIds(Elements(q), q[k])
  {
    forall b ensures b in Elements(q[..k]) <==> b in LowerIds(Elements(q), q[k]) {
      if b in LowerIds(Elements(q), q[k]) {
        var i :| 0 <= i < |q| && q[i] == b;
        assert q[..k][i] == b;
      }
    }
  }

  /** An ascending list falls into what is below an element, the element, and the rest. */
  lemma SplitAscending(ws: set<ObjectId>, id: ObjectId) returns (before: seq<ObjectId>, after: seq<ObjectId>)
    requires id in ws
    ensures Ascending(ws) == before + ([id] + after) && id !in before && id !in after
    ensures Sorted(before) && Elements(before) == LowerIds(ws, id)
  {
    var q := Ascending(ws);
    hide Ascending;
    assert id in Elements(q);
    var k :| 0 <= k < |q| && q[k] == id;
    before, after := q[..k], q[k + 1..];
    SortedPrefix(q, k);
  }

  /** Whether the view of a player fills up before its own turn comes in a ready. */
  ghost predicate NoRoom(g: Grid, s: State, id: ObjectId)
    requires Inv(g, s) && id in s.players
  {
    Full(s.players, id, LowerIds(Own(g, s.table, TowerOf(g, s.players, id)).watchers, id))
  }

  lemma ListElements(ws: set<ObjectId>, id: ObjectId)
    ensures id in Ascending(ws) <==> id in ws
  {
    assert id in Elements(Ascending(ws)) <==> id in ws;
  }

  /** A player is among the watchers of its own tower when the index knows it, by a ready or by a move. */
  lemma ReadyListsSelf(g: Grid, s: State, id: ObjectId)
    requires Inv(g, s) && id in s.players
    ensures id in Own(g, s.table, TowerOf(g, s.players, id)).watchers <==> id in s.ready
  {
    ListedIsNear(g, s, TowerOf(g, s.players, id));
    SeesBothWays(g, TowerOf(g, s.players, id), TowerOf(g, s.players, id));
  }

  lemma InvViews(g: Grid, s: State)
    requires Inv(g, s)
    ensures Symmetric(s.players) && Capped(s.players)
  {
  }

  /**
    A player comes to see itself exactly when it reports ready although the index already
    knows it, and there is room left in its view: what it holds and the players watching
    its tower whose id is lower, who are not in view yet and who have room themselves, are
    together fewer than a view holds.
   */
  lemma ReadyKeepsApartIff(g: Grid, s: State, id: ObjectId)
    requires Inv(g, s) && Irreflexive(s.players) && id in s.players
    ensures Irreflexive(ReadyStep(g, s, id).players) <==> id !in s.ready || NoRoom(g, s, id)
  {
    InvViews(g, s);
    ReadyListsSelf(g, s, id);
    hide Inv, Own, Grid.CellToTower, Entered, AddViews, Full, Irreflexive, Symmetric, Capped;
    var ws := Own(g, s.table, TowerOf(g, s.players, id)).watchers;
    if id in s.ready {
      var before, after := SplitAscending(ws, id);
      AddViewsSelf(s.players, id, before, after);
    } else {
      ListElements(ws, id);
      AddViewsApart(s.players, id, Ascending(ws));
    }
  }

  lemma SwapViewsApart(ps: Players, id: ObjectId, gone: set<ObjectId>, come: set<ObjectId>)
    requires id in ps && Symmetric(ps) && Capped(ps) && Irreflexive(ps) && id !in come
    ensures Irreflexive(SwapViews(ps, id, gone, come))
  {
    hide Symmetric, Capped, DelViews, AddViews;
    DelViewsDetaches(ps, id, Ascending(gone));
    DetachedKeeps(ps, id, gone);
    ListElements(come, id);
    AddViewsApart(Detached(ps, id, gone), id, Ascending(come));
  }

  lemma MoveKeepsApart(g: Grid, s: State, id: ObjectId, to: Point)
    requires Inv(g, s) && Irreflexive(s.players) && g.OnMap(to)
    ensures Irreflexive(MoveStep(g, s, id, to).players)
  {
    if id in s.players && TowerOf(g, s.players, id) != g.CellToTower(to) {
      InvViews(g, s);
      MoveLists(g, s, id, g.CellToTower(to));
      hide Inv, Own, Grid.CellToTower, Left, MovedWatcher, AddViews, DelViews, Symmetric, Capped;
      var gone := Left(g, s.table, id, TowerOf(g, s.players, id));
      var ow := Own(g, gone, TowerOf(g, s.players, id)).watchers;
      var nw := Own(g, gone, g.CellToTower(to)).watchers;
      SwapViewsApart(s.players, id, ow - nw, nw - ow);
    }
  }

  lemma LogoutKeepsApart(g: Grid, s: State, id: ObjectId)
    requires Inv(g, s) && Irreflexive(s.players)
    ensures Irreflexive(LogoutStep(g, s, id).players)
  {
    if id in s.players {
      InvViews(g, s);
      hide Inv, Own, Grid.CellToTower, Left, DelViews, Symmetric, Capped;
      var ws := Own(g, s.table, TowerOf(g, s.players, id)).watchers - {id};
      DelViewsDetaches(s.players, id, Ascending(ws));
    }
  }

  /** A ready of a player the index does not know yet, or one that finds no room in its view. */
  ghost predicate ReadyFits(g: Grid, s: State, e: Event)
    requires Inv(g, s)
  {
    e.Ready? && e.id in s.players && e.id in s.ready ==> NoRoom(g, s, e.id)
  }

  lemma ReadyStranger(g: Grid, s: State, id: ObjectId)
    requires Inv(g, s) && id !in s.players
    ensures ReadyStep(g, s, id) == s
  {
  }

  /** Logins, moves and logouts never put a player into its own view. */
  lemma StepKeepsApartIff(g: Grid, s: State, e: Event)
    requires Inv(g, s) && InBounds(g, e) && Irreflexive(s.players)
    ensures Irreflexive(Step(g, s, e).players) <==> ReadyFits(g, s, e)
  {
    hide Inv, ReadyStep, MoveStep, LogoutStep, NoRoom;
    match e
    case Login(id) =>
    case Ready(id) => if id in s.players { ReadyKeepsApartIff(g, s, id); } else { ReadyStranger(g, s, id); }
    case Move(id, to, walkable) => if walkable { MoveKeepsApart(g, s, id, to); }
    case Logout(id) => LogoutKeepsApart(g, s, id);
  }

  /** Nobody is in its own view, now and after each of the events. */
  ghost predicate AlwaysApart(g: Grid, s: State, events: seq<Event>)
    requires Inv(g, s) && forall e :: e in events ==> InBounds(g, e)
    decreases |events|
  {
    Irreflexive(s.players)
    && (|events| > 0 ==> (StepKeeps(g, s, events[0]); AlwaysApart(g, Step(g, s, events[0]), events[1..])))
  }

  ghost predicate ReadiesFit(g: Grid, s: State, events: seq<Event>)
    requires Inv(g, s) && forall e :: e in events ==> InBounds(g, e)
    decreases |events|
  {
    |events| > 0 ==>
      ReadyFits(g, s, events[0]) && (StepKeeps(g, s, events[0]); ReadiesFit(g, Step(g, s, events[0]), events[1..]))
  }

  lemma NotApart(g: Grid, s: State, events: seq<Event>)
    requires Inv(g, s) && !Irreflexive(s.players) && forall e :: e in events ==> InBounds(g, e)
    ensures !AlwaysApart(g, s, events)
  {
  }

  /** Over whole runs: nobody ever sees itself exactly when every ready on the way fits. */
  lemma {:induction false} RunKeepsApartIff(g: Grid, s: State, events: seq<Event>)
    requires Inv(g, s) && Irreflexive(s.players) && forall e :: e in events ==> InBounds(g, e)
    ensures AlwaysApart(g, s, events) <==> ReadiesFit(g, s, events)
    decreases |events|
  {
    if |events| > 0 {
      StepKeeps(g, s, events[0]);
      StepKeepsApartIff(g, s, events[0]);
      hide Inv, Step, Irreflexive, ReadyFits;
      if Irreflexive(Step(g, s, events[0]).players) {
        RunKeepsApartIff(g, Step(g, s, events[0]), events[1..]);
      } else {
        NotApart(g, Step(g, s, events[0]), events[1..]);
      }
    }
  }

  // What can be told from the events alone: where a player stands, and whether the index
  // knows it.
  datatype Whereabouts = Whereabouts(location: Point, known: bool)

  type Journal = map<ObjectId, Whereabouts>

  /** A player becomes known by reporting ready or by moving to another tower, until it logs out. */
  function Noted(g: Grid, j: Journal, e: Event): Journal
    requires g.Valid() && InBounds(g, e) && forall id :: id in j ==> g.OnMap(j[id].location)
  {
    match e
    case Login(id) => if id in j then j else j[id := Whereabouts(Point(1, 1), false)]
    case Ready(id) => if id in j then j[id := j[id].(known := true)] else j
    case Move(id, to, walkable) =>
      if id in j && walkable
      then j[id := Whereabouts(to, j[id].known || g.CellToTower(j[id].location) != g.CellToTower(to))]
      else j
    case Logout(id) => j - {id}
  }

  ghost predicate Follows(g: Grid, j: Journal, s: State) {
    && j.Keys == s.players.Keys
    && (forall id :: id in j ==> j[id].location == s.players[id].location && (j[id].known <==> id in s.ready))
  }

  lemma ReadyPlaces(g: Grid, s: State, id: ObjectId)
    requires Inv(g, s) && id in s.players
    ensures var r := ReadyStep(g, s, id);
            && r.ready == s.ready + {id} && r.players.Keys == s.players.Keys
            && forall p :: p in r.players ==> r.players[p].location == s.players[p].location
  {
    ReadyViewsKeep(g, s, id);
  }

  lemma MovePlaces(g: Grid, s: State, id: ObjectId, to: Point)
    requires Inv(g, s) && id in s.players && g.OnMap(to) && TowerOf(g, s.players, id) != g.CellToTower(to)
    ensures var r := MoveStep(g, s, id, to);
            && r.ready == s.ready + {id} && r.players.Keys == s.players.Keys
            && forall p :: p in r.players ==> r.players[p].location == if p == id then to else s.players[p].location
  {
    MoveViewsKeep(g, s, id, to);
  }

  lemma LogoutPlaces(g: Grid, s: State, id: ObjectId)
    requires Inv(g, s) && id in s.players
    ensures var r := LogoutStep(g, s, id);
            && r.ready == s.ready - {id} && r.players.Keys == s.players.Keys - {id}
            && forall p :: p in r.players ==> r.players[p].location == s.players[p].location
  {
    LogoutViewsKeep(g, s, id);
  }

  lemma NotedFollows(g: Grid, j: Journal, s: State, e: Event)
    requires Inv(g, s) && InBounds(g, e) && Follows(g, j, s)
    ensures Follows(g, Noted(g, j, e), Step(g, s, e))
  {
    hide Agrees, Near, Symmetric, Capped, Own, Grid.CellToTower, Left, MovedWatcher, AddViews, DelViews;
    match e
    case Login(id) =>
    case Ready(id) =>
      if id in s.players {
        ReadyPlaces(g, s, id);
      }
    case Move(id, to, walkable) =>
      if walkable && id in s.players && TowerOf(g, s.players, id) != g.CellToTower(to) {
        MovePlaces(g, s, id, to);
      }
    case Logout(id) =>
      if id in s.players {
        LogoutPlaces(g, s, id);
      }
  }

  /** No player reports ready while the index knows it. */
  ghost predicate NoLateReady(g: Grid, j: Journal, events: seq<Event>)
    requires g.Valid() && g.w > 1 && g.h > 1
    requires forall e :: e in events ==> InBounds(g, e)
    requires forall id :: id in j ==> g.OnMap(j[id].location)
    decreases |events|
  {
    |events| > 0 ==>
      && (events[0].Ready? && events[0].id in j ==> !j[events[0].id].known)
      && NoLateReady(g, Noted(g, j, events[0]), events[1..])
  }

  lemma {:induction false} NoLateReadyKeepsApart(g: Grid, j: Journal, s: State, events: seq<Event>)
    requires Inv(g, s) && Follows(g, j, s) && Irreflexive(s.players)
    requires forall e :: e in events ==> InBounds(g, e)
    requires (forall id :: id in j ==> g.OnMap(j[id].location)) && NoLateReady(g, j, events)
    ensures Irreflexive(Run(g, s, events).players)
    decreases |events|
  {
    if |events| > 0 {
      StepKeeps(g, s, events[0]);
      StepKeepsApartIff(g, s, events[0]);
      NotedFollows(g, j, s, events[0]);
      hide Inv, Step, Irreflexive, Noted;
      NoLateReadyKeepsApart(g, Noted(g, j, events[0]), Step(g, s, events[0]), events[1..]);
    }
  }

  /**
    From an empty server, whatever the players do, nobody ends in its own view as long as
    no player reports ready after an earlier ready or a move across towers since it
    logged in.
   */
  lemma NobodySeesItself(g: Grid, events: seq<Event>)
    requires g.Valid() && g.w > 1 && g.h > 1 && forall e :: e in events ==> InBounds(g, e)
    requires NoLateReady(g, map[], events)
    ensures Inv(g, Start(g)) && Irreflexive(Run(g, Start(g), events).players)
  {
    StartKeeps(g);
    NoLateReadyKeepsApart(g, map[], Start(g), events);
  }

  lemma OnlyOne(id: ObjectId)
    ensures Ascending({id}) == [id]
  {
    assert Min({id}) == id;
    assert {id} - {id} == {};
  }

  /** The only player there is: a first ready finds nobody, a second one finds itself. */
  lemma ReadyAlone(g: Grid, s: State, id: ObjectId)
    requires Inv(g, s) && s.players.Keys == {id} && s.players[id].view == {} && s.ready <= {id}
    ensures var r := ReadyStep(g, s, id);
            r.players.Keys == {id} && r.ready == {id} && r.players[id].view == s.ready
  {
    var t := TowerOf(g, s.players, id);
    ListedIsNear(g, s, t);
    SeesBothWays(g, t, t);
    hide Inv, Entered, Own, Grid.CellToTower;
    var ws := Own(g, s.table, t).watchers;
    assert forall b :: b in ws <==> b == id && id in s.ready;
    if id in s.ready {
      assert ws == {id};
      OnlyOne(id);
      assert [id][1..] == [];
      assert AddViews(s.players, id, [id]) == AddOne(s.players, id, id);
    } else {
      assert ws == {};
      assert Ascending(ws) == [];
    }
  }

  lemma RunOfThree(g: Grid, s: State, a: Event, b: Event, c: Event)
    requires Inv(g, s) && InBounds(g, a) && InBounds(g, b) && InBounds(g, c)
    requires Inv(g, Step(g, s, a)) && Inv(g, Step(g, Step(g, s, a), b))
    ensures Run(g, s, [a, b, c]) == Step(g, Step(g, Step(g, s, a), b), c)
  {
    hide Inv, Step;
    StepKeeps(g, Step(g, Step(g, s, a), b), c);
    assert [a, b, c][1..] == [b, c] && [b, c][1..] == [c] && [c][1..] == [];
    assert Run(g, Step(g, Step(g, s, a), b), [c]) == Run(g, Step(g, Step(g, Step(g, s, a), b), c), []);
    assert Run(g, Step(g, s, a), [b, c]) == Run(g, Step(g, Step(g, s, a), b), [c]);
  }

  /** The first player to report ready twice sees itself. */
  lemma DoubleReadySeesItself(g: Grid, id: ObjectId)
    requires g.Valid() && g.w > 1 && g.h > 1
    ensures Inv(g, Start(g))
    ensures var s := Run(g, Start(g), [Login(id), Ready(id), Ready(id)]);
            id in s.players && id in s.players[id].view
  {
    StartKeeps(g);
    var s0 := Start(g);
    var s1 := LoginStep(s0, id);
    LoginKeeps(g, s0, id);
    ReadyAlone(g, s1, id);
    var s2 := ReadyStep(g, s1, id);
    ReadyKeeps(g, s1, id);
    ReadyAlone(g, s2, id);
    ReadyKeeps(g, s2, id);
    hide Inv, ReadyStep;
    RunOfThree(g, s0, Login(id), Ready(id), Ready(id));
  }

  /** A move across towers by the only player there is registers it, and nobody comes into view. */
  lemma MoveAlone(g: Grid, s: State, id: ObjectId, to: Point)
    requires Inv(g, s) && s.players.Keys == {id} && s.players[id].view == {} && g.OnMap(to)
    requires TowerOf(g, s.players, id) != g.CellToTower(to)
    ensures var r := MoveStep(g, s, id, to);
            r.players.Keys == {id} && r.ready == s.ready + {id} && r.players[id].view == {}
  {
    MovePlaces(g, s, id, to);
    MoveLists(g, s, id, g.CellToTower(to));
    var from, dest := TowerOf(g, s.players, id), g.CellToTower(to);
    var gone := Left(g, s.table, id, from);
    var ow, nw := Own(g, gone, from).watchers, Own(g, gone, dest).watchers;
    InvViews(g, s);
    hide Inv, Own, Grid.CellToTower, Left, MovedWatcher;
    assert forall b :: b in nw ==> b in s.players;
    assert nw == {};
    SwapViewsKeep(s.players, id, ow - nw, nw - ow);
  }

  /** So does one that moves to another tower and then reports ready for the first time. */
  lemma MoveThenReadySeesItself(g: Grid, id: ObjectId, to: Point)
    requires g.Valid() && g.w > 1 && g.h > 1 && g.OnMap(to)
    requires g.CellToTower(to) != g.CellToTower(BIRTH.location)
    ensures Inv(g, Start(g))
    ensures var s := Run(g, Start(g), [Login(id), Move(id, to, true), Ready(id)]);
            id in s.players && id in s.players[id].view
  {
    StartKeeps(g);
    var s0 := Start(g);
    var s1 := LoginStep(s0, id);
    LoginKeeps(g, s0, id);
    MoveAlone(g, s1, id, to);
    var s2 := MoveStep(g, s1, id, to);
    MoveKeeps(g, s1, id, to);
    ReadyAlone(g, s2, id);
    ReadyKeeps(g, s2, id);
    hide Inv, ReadyStep, MoveStep;
    RunOfThree(g, s0, Login(id), Move(id, to, true), Ready(id));
  }
}

/** The map module as the server keeps it: the player table and the index are updated in place. */
module MapModule {
  import opened TowerGrid
  import opened TowerTable
  import opened SortedSets
  import opened ViewLists
  import opened GameMap
  import TowerAoi

  class MapModule {
    var players: Players
    const aoi: TowerAoi.TowerAoi
    const cells: Cells
    ghost var ready: set<ObjectId>

    ghost function Abs(): State
      reads this, aoi, aoi.towers
    {
      State(players, aoi.towers[..], ready)
    }

    ghost predicate Valid()
      reads this, aoi, aoi.towers
    {
      Inv(aoi.g, Abs()) && cells.Shaped() && cells.width == aoi.g.w && cells.height == aoi.g.h
    }

    constructor (g: Grid, cells: Cells)
      requires g.Valid() && cells.Shaped() && cells.width == g.w && cells.height == g.h
      ensures Valid() && fresh(aoi) && fresh(aoi.towers) && aoi.g == g && Abs() == Start(g)
    {
      aoi := new TowerAoi.TowerAoi(g);
      this.cells := cells;
      players := map[];
      ready := {};
      StartKeeps(g);
    }

    method SendDelViewPlayers(me: ObjectId, list: set<ObjectId>)
      requires me in players
      modifies this`players
      ensures players == DelViews(old(players), me, Ascending(list))
    {
      var ids := Ascending(list);
      ghost var start := players;
      assert ids[0..] == ids;
      for i := 0 to |ids|
        invariant me in players
        invariant DelViews(players, me, ids[i..]) == DelViews(start, me, ids)
      {
        if |players[me].view| > 0 {
          var him := ids[i];
          assert ids[i..][0] == him && ids[i..][1..] == ids[i + 1..];
          if him in players[me].view {
            players := Forget(players, me, him);
            if him in players && |players[him].view| > 0 && me in players[him].view {
              players := Forget(players, him, me);
            } else {
              ForgetNothing(players, him, me);
            }
          }
        } else {
          NothingToDelete(players, me, ids[i..]);
          break;
        }
      }
    }

    lemma ForgetNothing(ps: Players, a: ObjectId, b: ObjectId)
      requires a in ps ==> b !in ps[a].view
      ensures Forget(ps, a, b) == ps
    {
      if a in ps {
        assert ps[a].view - {b} == ps[a].view;
        SamePlayers(Forget(ps, a, b), ps);
      }
    }

    lemma {:induction false} NothingToDelete(ps: Players, me: ObjectId, list: seq<ObjectId>)
      requires me in ps && ps[me].view == {}
      ensures DelViews(ps, me, list) == ps
      decreases |list|
    {
      if |list| > 0 {
        NothingToDelete(ps, me, list[1..]);
      }
    }

    method SendAddViewPlayers(me: ObjectId, list: set<ObjectId>)
      requires me in players
      modifies this`players
      ensures players == AddViews(old(players), me, Ascending(list))
    {
      var ids := Ascending(list);
      ghost var start := players;
      assert ids[0..] == ids;
      for i := 0 to |ids|
        invariant me in players
        invariant AddViews(players, me, ids[i..]) == AddViews(start, me, ids)
      {
        var him := ids[i];
        assert ids[i..][0] == him && ids[i..][1..] == ids[i + 1..];
        if |players[me].view| < MAX_VIEW_COUNT {
          if him !in players[me].view && him in players {
            if |players[him].view| < MAX_VIEW_COUNT && me !in players[me].view {
              players := See(players, me, him);
              players := See(players, him, me);
            }
          }
        }
      }
    }

    method AddPlayerData(id: ObjectId) returns (added: bool)
      requires Valid()
      modifies this`players
      ensures Valid() && Abs() == LoginStep(old(Abs()), id) && added == (id !in old(players))
    {
      LoginKeeps(aoi.g, Abs(), id);
      added := id !in players;
      if added {
        players := players[id := BIRTH];
      }
    }

    method AddUserToMap(id: ObjectId)
      requires Valid()
      modifies this, aoi.towers
      ensures Valid() && Abs() == ReadyStep(aoi.g, old(Abs()), id)
    {
      ReadyKeeps(aoi.g, Abs(), id);
      hide Inv, Entered, AddViews, Own, Grid.CellToTower, Seen, Left;
      if id in players {
        assert aoi.Valid() && aoi.g.OnMap(players[id].location) by { InvParts(aoi.g, Abs()); }
        var watchers, objs := aoi.AddOrDeleteWatcher(id, players[id].location, {}, {}, Add);
        assert watchers == Own(aoi.g, old(aoi.towers[..]), TowerOf(aoi.g, players, id)).watchers;
        SendAddViewPlayers(id, watchers);
        ready := ready + {id};
      }
    }

    lemma InvParts(g: Grid, s: State)
      requires Inv(g, s)
      ensures Fits(g, s.table) && AllOnMap(g, s.players)
    {
    }

    method PlayerMove(id: ObjectId, dst: Point)
      requires Valid() && aoi.g.OnMap(dst)
      modifies this, aoi.towers
      ensures Valid() && 0 <= cells.Index(dst) < |cells.blocked|
      ensures Abs() == Step(aoi.g, old(Abs()), Move(id, dst, !cells.blocked[cells.Index(dst)]))
    {
      hide Inv, MovedWatcher, Left, Entered, AddViews, DelViews, Own, Grid.CellToTower, Seen;
      ghost var g, s := aoi.g, Abs();
      MoveKeeps(g, s, id, dst);
      CellsHaveTheirOwnFlag(cells, dst, dst, false);
      if id in players && IsGridCanWalk(cells, dst, false) {
        assert aoi.Valid() && g.OnMap(players[id].location) by { InvParts(g, s); }
        var addW, sameW, delW, addO, sameO, delO :=
          aoi.MoveWatcher(id, players[id].location, dst, {}, {}, {}, {}, {}, {});
        if aoi.g.CellToTower(players[id].location) != aoi.g.CellToTower(dst) {
          ready := ready + {id};
          ghost var gone := Left(g, s.table, id, TowerOf(g, s.players, id));
          ghost var ow := Own(g, gone, TowerOf(g, s.players, id)).watchers;
          ghost var nw := Own(g, gone, g.CellToTower(dst)).watchers;
          assert delW == ow - nw && addW == nw - ow;
        } else {
          NothingToSwap(players, id);
          StaysInTable(g, s.table, id, g.CellToTower(dst));
        }
        SendDelViewPlayers(id, delW);
        SendAddViewPlayers(id, addW);
        assert players == SwapViews(s.players, id, delW, addW);
        players := Relocated(players, id, dst);
      }
    }

    lemma NothingToSwap(ps: Players, id: ObjectId)
      requires id in ps
      ensures SwapViews(ps, id, {}, {}) == ps
    {
    }

    lemma StaysInTable(g: Grid, ts: Table, id: ObjectId, t: Point)
      requires Fits(g, ts)
      ensures MovedWatcher(g, ts, id, t, t) == ts
    {
    }

    method DelUserFromMap(id: ObjectId)
      requires Valid()
      modifies this, aoi.towers
      ensures players.Keys == old(players.Keys)
      ensures Abs().(players := players - {id}) == LogoutStep(aoi.g, old(Abs()), id)
    {
      hide Inv, Left, DelViews, Own, Grid.CellToTower, Entered, Seen;
      ghost var s := Abs();
      if id in players {
        assert aoi.Valid() && aoi.g.OnMap(players[id].location) by { InvParts(aoi.g, s); }
        var watchers, objs := aoi.AddOrDeleteWatcher(id, players[id].location, {}, {}, Del);
        assert watchers == Own(aoi.g, s.table, TowerOf(aoi.g, s.players, id)).watchers - {id};
        SendDelViewPlayers(id, watchers);
        ready := ready - {id};
      } else {
        assert players - {id} == players;
      }
    }

    method LoginOut(id: ObjectId)
      requires Valid()
      modifies this, aoi.towers
      ensures Valid() && Abs() == LogoutStep(aoi.g, old(Abs()), id)
      ensures forall a :: a in players ==> id !in players[a].view
    {
      LogoutKeeps(aoi.g, Abs(), id);
      LogoutLeavesNoTrace(aoi.g, Abs(), id);
      if id in players {
        DelUserFromMap(id);
        players := players - {id};
      }
    }
  }
}
