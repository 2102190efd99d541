/**
  Who is in view after all: the steps of ViewLists leave nobody out.

  As long as no view fills up, two players have each other in view exactly when both have
  entered the index and their towers see each other.  One kind of step breaks this: a move
  to another tower by a player that has not reported ready, when somebody sees both towers.
 */
module ViewLaws {
  import opened TowerGrid
  import opened TowerTable
  import opened SortedSets
  import opened ViewLists

  // ---------------------------------------------------------------- what one step does to views

  /** Nobody's view changes but that of `id`, and others' by `id`. */
  ghost predicate OnlyAbout(ps: Players, r: Players, id: ObjectId) {
    && r.Keys == ps.Keys
    && forall a, c :: a in ps && a != id && c != id ==> (c in r[a].view <==> c in ps[a].view)
  }

  lemma GrownIsAbout(ps: Players, id: ObjectId, gone: set<ObjectId>, r: Players, list: set<ObjectId>)
    requires id in ps && Grown(Detached(ps, id, gone), r, id, list)
    ensures OnlyAbout(ps, r, id)
    ensures forall b :: b in r[id].view ==> (b in ps[id].view && b !in gone) || b in list
    ensures forall b :: b in ps[id].view && b !in gone ==> b in r[id].view
  {
  }

  /** In view, or kept out for a reason. */
  ghost predicate InViewOrFull(r: Players, id: ObjectId, b: ObjectId)
    requires id in r && b in r
  {
    b in r[id].view || id in r[id].view || |r[id].view| == 100 || |r[b].view| == 100
  }

  lemma SymmetricPair(ps: Players, a: ObjectId, b: ObjectId)
    requires Symmetric(ps) && a in ps && b in ps
    ensures b in ps[a].view <==> a in ps[b].view
  {
  }

  /** Views after those in the one set left and those in the other came, when all in view were in the one. */
  lemma SwapIntoView(ps: Players, id: ObjectId, ow: set<ObjectId>, nw: set<ObjectId>, b: ObjectId)
    requires id in ps && Symmetric(ps) && Capped(ps) && b in ps && b != id
    requires b in ps[id].view ==> b in ow
    ensures var r := SwapViews(ps, id, ow - nw, nw - ow);
            && OnlyAbout(ps, r, id) && (b in r[id].view <==> id in r[b].view)
            && (b in nw && b !in ow ==> InViewOrFull(r, id, b))
            && (b in nw && b in ow ==> (b in r[id].view <==> b in ps[id].view))
            && (b !in nw ==> b !in r[id].view)
  {
    hide Symmetric, Capped, AddViews, DelViews, OnlyAbout;
    var gone, come, r := ow - nw, nw - ow, SwapViews(ps, id, ow - nw, nw - ow);
    SwapViewsKeep(ps, id, gone, come);
    GrownIsAbout(ps, id, gone, r, come);
    SymmetricPair(r, id, b);
    DelViewsDetaches(ps, id, Ascending(gone));
    DetachedKeeps(ps, id, gone);
    ListElements(come, b);
    if b in come {
      AddViewsComplete(Detached(ps, id, gone), id, Ascending(come), b);
    }
  }

  /** The watchers of the two towers once the mover has left the first. */
  lemma MoveWatchers(g: Grid, s: State, id: ObjectId, dest: Point, b: ObjectId)
    requires Inv(g, s) && id in s.players && g.IsTower(dest) && b in s.players && b != id
    ensures var from := TowerOf(g, s.players, id); var left := Left(g, s.table, id, from);
            && (b in Own(g, left, from).watchers <==> b in s.ready && g.Sees(TowerOf(g, s.players, b), from))
            && (b in Own(g, left, dest).watchers <==> b in s.ready && g.Sees(TowerOf(g, s.players, b), dest))
            && (b in s.players[id].view ==> b in Own(g, left, from).watchers)
  {
    MoveLists(g, s, id, TowerOf(g, s.players, id));
    MoveLists(g, s, id, dest);
  }

  /**
    A move to another tower.  Players that see the new tower and did not see the old one
    come into view, unless somebody is full or the mover sees itself; players that see both
    stay as they were; no other player is in view; and nobody else's views change.
   */
  lemma MoveBringsIntoView(g: Grid, s: State, id: ObjectId, to: Point, b: ObjectId)
    requires Inv(g, s) && id in s.players && b in s.players && b != id && g.OnMap(to)
    requires TowerOf(g, s.players, id) != g.CellToTower(to)
    ensures var r := MoveStep(g, s, id, to).players;
            var from, dest := TowerOf(g, s.players, id), g.CellToTower(to);
            var there := TowerOf(g, s.players, b);
            && OnlyAbout(s.players, r, id)
            && (b in r[id].view <==> id in r[b].view)
            && (b in s.ready && g.Sees(there, dest) && !g.Sees(there, from) ==> InViewOrFull(r, id, b))
            && (b in s.ready && g.Sees(there, dest) && g.Sees(there, from) ==>
                  (b in r[id].view <==> b in s.players[id].view))
            && (b !in s.ready || !g.Sees(there, dest) ==> b !in r[id].view)
  {
    var ps := s.players;
    var from, dest := TowerOf(g, ps, id), g.CellToTower(to);
    var left := Left(g, s.table, id, from);
    MoveWatchers(g, s, id, dest, b);
    InvViews(g, s);
    hide Inv, Own, Left, MovedWatcher, Symmetric, Capped, Grid.CellToTower, Grid.Sees, SwapViews;
    SwapIntoView(ps, id, Own(g, left, from).watchers, Own(g, left, dest).watchers, b);
  }

  lemma GrowsAbout(ps: Players, id: ObjectId, r: Players, list: set<ObjectId>)
    requires id in ps && Grown(ps, r, id, list)
    ensures OnlyAbout(ps, r, id) && ps[id].view <= r[id].view <= ps[id].view + list
  {
  }

  /** Views after those in a set came. */
  lemma AddIntoView(ps: Players, id: ObjectId, ws: set<ObjectId>, b: ObjectId)
    requires id in ps && Symmetric(ps) && Capped(ps) && b in ps && b != id
    ensures var r := AddViews(ps, id, Ascending(ws));
            && OnlyAbout(ps, r, id) && (b in r[id].view <==> id in r[b].view)
            && ps[id].view <= r[id].view
            && (b in ws ==> InViewOrFull(r, id, b))
            && (b !in ws ==> (b in r[id].view <==> b in ps[id].view))
  {
    hide Symmetric, Capped, AddViews, Grown, OnlyAbout, Ascending;
    AddViewsKeeps(ps, id, Ascending(ws));
    GrowsAbout(ps, id, AddViews(ps, id, Ascending(ws)), ws);
    ListElements(ws, b);
    SymmetricPair(AddViews(ps, id, Ascending(ws)), id, b);
    if b in ws {
      AddViewsComplete(ps, id, Ascending(ws), b);
    }
  }

  /**
    A ready.  Everybody that has entered and sees the tower comes into view, unless somebody
    is full or the player sees itself; whoever was in view stays; and nobody else's views
    change.
   */
  lemma ReadyBringsIntoView(g: Grid, s: State, id: ObjectId, b: ObjectId)
    requires Inv(g, s) && id in s.players && b in s.players && b != id
    ensures var r := ReadyStep(g, s, id).players;
            var t, there := TowerOf(g, s.players, id), TowerOf(g, s.players, b);
            && OnlyAbout(s.players, r, id)
            && (b in r[id].view <==> id in r[b].view)
            && s.players[id].view <= r[id].view
            && (b in s.ready && g.Sees(there, t) ==> InViewOrFull(r, id, b))
            && (b !in s.ready || !g.Sees(there, t) ==> (b in r[id].view <==> b in s.players[id].view))
  {
    var ps, t := s.players, TowerOf(g, s.players, id);
    var ws := Own(g, s.table, t).watchers;
    ListedIsNear(g, s, t);
    InvViews(g, s);
    hide Inv, Own, Entered, Symmetric, Capped, Grid.CellToTower, Grid.Sees, AddViews, OnlyAbout, InViewOrFull;
    AddIntoView(ps, id, ws, b);
  }

  /** A logout takes the player out of every view and changes no view else. */
  lemma LogoutTakesOutOfView(g: Grid, s: State, id: ObjectId, a: ObjectId)
    requires Inv(g, s) && id in s.players && a in s.players && a != id
    ensures var r := LogoutStep(g, s, id).players;
            r.Keys == s.players.Keys - {id} && r[a].view == s.players[a].view - {id}
            && r[a].location == s.players[a].location
  {
    LogoutLeavesNoTrace(g, s, id);
    LogoutPlaces(g, s, id);
    InvViews(g, s);
    hide Inv, Own, Left, Capped, Symmetric, Grid.CellToTower, DelViews;
    DelViewsDetaches(s.players, id, Ascending(Own(g, s.table, TowerOf(g, s.players, id)).watchers - {id}));
  }

  lemma {:induction false} SelfSeerAdds(ps: Players, id: ObjectId, list: seq<ObjectId>)
    requires id in ps && id in ps[id].view
    ensures AddViews(ps, id, list) == ps
    decreases |list|
  {
    if |list| > 0 {
      SelfSeerAdds(ps, id, list[1..]);
    }
  }

  lemma SelfSeerSwaps(ps: Players, id: ObjectId, gone: set<ObjectId>, come: set<ObjectId>)
    requires id in ps && id in ps[id].view && id !in gone && Symmetric(ps) && Capped(ps)
    ensures SwapViews(ps, id, gone, come)[id].view <= ps[id].view
  {
    hide Symmetric, Capped, AddViews, DelViews;
    DelViewsDetaches(ps, id, Ascending(gone));
    SelfSeerAdds(Detached(ps, id, gone), id, Ascending(come));
  }

  /** A player that sees itself brings nobody into view any more, by a ready or by a move. */
  lemma SelfSeerBringsNobody(g: Grid, s: State, id: ObjectId, to: Point)
    requires Inv(g, s) && id in s.players && id in s.players[id].view && g.OnMap(to)
    ensures ReadyStep(g, s, id).players == s.players
    ensures id in MoveStep(g, s, id, to).players && MoveStep(g, s, id, to).players[id].view <= s.players[id].view
  {
    InvViews(g, s);
    var ps, t := s.players, TowerOf(g, s.players, id);
    SelfSeerAdds(ps, id, Ascending(Own(g, s.table, t).watchers));
    MoveLists(g, s, id, t);
    hide Inv, Own, Left, MovedWatcher, Symmetric, Capped, Grid.CellToTower, Grid.Sees, Entered;
    var gone := Left(g, s.table, id, t);
    var ow, nw := Own(g, gone, t).watchers, Own(g, gone, g.CellToTower(to)).watchers;
    assert id !in ow;
    SelfSeerSwaps(ps, id, ow - nw, nw - ow);
  }

  // ---------------------------------------------------------------- exact views

  /** Views hold exactly the others that have entered and see the tower, in both directions. */
  ghost predicate Exact(g: Grid, s: State)
    requires Inv(g, s)
  {
    Irreflexive(s.players) &&
    forall a, b :: a in s.players && b in s.players && a != b ==>
      (b in s.players[a].view <==> NearPair(g, s.players, s.ready, a, b))
  }

  /** No view is full. */
  ghost predicate Room(ps: Players) {
    forall a :: a in ps ==> |ps[a].view| < 100
  }

  /** Someone that has entered sees both towers. */
  ghost predicate SeenFromBoth(g: Grid, s: State, from: Point, dest: Point)
    requires Inv(g, s)
  {
    exists b :: b in s.players && b in s.ready
                && g.Sees(TowerOf(g, s.players, b), from) && g.Sees(TowerOf(g, s.players, b), dest)
  }

  /** A first ready, or a move within a tower, by a player that has entered, or out of everybody's sight. */
  ghost predicate StaysExact(g: Grid, s: State, e: Event)
    requires Inv(g, s) && InBounds(g, e)
  {
    match e
    case Ready(id) => id in s.players ==> id !in s.ready
    case Move(id, to, walkable) =>
      walkable && id in s.players && id !in s.ready && TowerOf(g, s.players, id) != g.CellToTower(to) ==>
        !SeenFromBoth(g, s, TowerOf(g, s.players, id), g.CellToTower(to))
    case _ => true
  }

  lemma InvOnMap(g: Grid, s: State)
    requires Inv(g, s)
    ensures AllOnMap(g, s.players) && s.ready <= s.players.Keys
  {
  }

  /** Two players that a step does not touch. */
  lemma OthersStay(g: Grid, s: State, r: State, id: ObjectId, a: ObjectId, b: ObjectId)
    requires Inv(g, s) && Inv(g, r) && Exact(g, s) && OnlyAbout(s.players, r.players, id)
    requires a in s.players && b in s.players && a != id && b != id && a != b
    requires r.players[a].location == s.players[a].location && r.players[b].location == s.players[b].location
    requires (a in r.ready <==> a in s.ready) && (b in r.ready <==> b in s.ready)
    ensures b in r.players[a].view <==> NearPair(g, r.players, r.ready, a, b)
  {
    InvOnMap(g, s);
    InvOnMap(g, r);
    hide Inv, Grid.CellToTower, Grid.Sees, Irreflexive;
    assert b in s.players[a].view <==> NearPair(g, s.players, s.ready, a, b);
  }

  /** Exactness is left to the pairs with one player. */
  lemma ExactIfAbout(g: Grid, s: State, r: State, id: ObjectId)
    requires Inv(g, s) && Inv(g, r) && Exact(g, s) && id in s.players && OnlyAbout(s.players, r.players, id)
    requires forall a :: a in s.players && a != id ==> r.players[a].location == s.players[a].location
    requires forall a :: a != id ==> (a in r.ready <==> a in s.ready)
    requires Irreflexive(r.players)
    ensures Exact(g, r) <==> forall b :: b in s.players && b != id ==>
              (b in r.players[id].view <==> NearPair(g, r.players, r.ready, id, b))
  {
    InvOnMap(g, r);
    InvViews(g, r);
    var pairs := forall b :: b in s.players && b != id ==>
      (b in r.players[id].view <==> NearPair(g, r.players, r.ready, id, b));
    if pairs {
      forall a, b | a in r.players && b in r.players && a != b
        ensures b in r.players[a].view <==> NearPair(g, r.players, r.ready, a, b)
      {
        SymmetricPair(r.players, a, b);
        hide Inv, Grid.CellToTower;
        SeesBothWays(g, TowerOf(g, r.players, a), TowerOf(g, r.players, b));
        if a != id && b != id {
          OthersStay(g, s, r, id, a, b);
        }
      }
    }
    hide Inv, Grid.CellToTower, Grid.Sees, Symmetric, Capped;
  }

  // ---------------------------------------------------------------- which steps keep views exact

  lemma MovePairExact(g: Grid, s: State, id: ObjectId, to: Point, b: ObjectId)
    requires Inv(g, s) && Exact(g, s) && g.OnMap(to) && id in s.players && b in s.players && b != id
    requires TowerOf(g, s.players, id) != g.CellToTower(to)
    requires Inv(g, MoveStep(g, s, id, to))
    requires Irreflexive(MoveStep(g, s, id, to).players) && Room(MoveStep(g, s, id, to).players)
    ensures var r := MoveStep(g, s, id, to); var there := TowerOf(g, s.players, b);
            (b in r.players[id].view <==> NearPair(g, r.players, r.ready, id, b)) <==>
            !(id !in s.ready && b in s.ready
              && g.Sees(there, TowerOf(g, s.players, id)) && g.Sees(there, g.CellToTower(to)))
  {
    var r := MoveStep(g, s, id, to);
    var from, dest, there := TowerOf(g, s.players, id), g.CellToTower(to), TowerOf(g, s.players, b);
    MoveBringsIntoView(g, s, id, to, b);
    MovePlaces(g, s, id, to);
    InvOnMap(g, s);
    InvOnMap(g, r);
    SeesBothWays(g, there, from);
    SeesBothWays(g, there, dest);
    assert TowerOf(g, r.players, id) == dest && TowerOf(g, r.players, b) == there;
    hide Inv, Grid.CellToTower, Grid.Sees, MoveStep, OnlyAbout;
    assert b in s.players[id].view <==> NearPair(g, s.players, s.ready, id, b);
  }

  lemma NobodyElse(ps: Players, r: Players, id: ObjectId)
    requires r.Keys == ps.Keys && forall b :: b in ps ==> b == id
    ensures OnlyAbout(ps, r, id)
  {
  }

  lemma MoveExactIff(g: Grid, s: State, id: ObjectId, to: Point)
    requires Inv(g, s) && Exact(g, s) && g.OnMap(to) && id in s.players
    requires TowerOf(g, s.players, id) != g.CellToTower(to)
    requires Inv(g, MoveStep(g, s, id, to)) && Room(MoveStep(g, s, id, to).players)
    ensures Exact(g, MoveStep(g, s, id, to)) <==> StaysExact(g, s, Move(id, to, true))
  {
    var r := MoveStep(g, s, id, to);
    MoveKeepsApart(g, s, id, to);
    MovePlaces(g, s, id, to);
    hide Inv, Grid.CellToTower, Grid.Sees, MoveStep, OnlyAbout, NearPair, Room;
    if b :| b in s.players && b != id {
      MoveBringsIntoView(g, s, id, to, b);
    } else {
      NobodyElse(s.players, r.players, id);
    }
    ExactIfAbout(g, s, r, id);
    forall b | b in s.players && b != id
      ensures (b in r.players[id].view <==> NearPair(g, r.players, r.ready, id, b)) <==>
              !(id !in s.ready && b in s.ready && g.Sees(TowerOf(g, s.players, b), TowerOf(g, s.players, id))
                && g.Sees(TowerOf(g, s.players, b), g.CellToTower(to)))
    {
      MovePairExact(g, s, id, to, b);
    }
  }

  lemma ReadyPairExact(g: Grid, s: State, id: ObjectId, b: ObjectId)
    requires Inv(g, s) && Exact(g, s) && id in s.players && id !in s.ready && b in s.players && b != id
    requires Inv(g, ReadyStep(g, s, id))
    requires Irreflexive(ReadyStep(g, s, id).players) && Room(ReadyStep(g, s, id).players)
    ensures var r := ReadyStep(g, s, id);
            b in r.players[id].view <==> NearPair(g, r.players, r.ready, id, b)
  {
    var r := ReadyStep(g, s, id);
    var t, there := TowerOf(g, s.players, id), TowerOf(g, s.players, b);
    ReadyBringsIntoView(g, s, id, b);
    ReadyPlaces(g, s, id);
    InvOnMap(g, s);
    InvOnMap(g, r);
    SeesBothWays(g, there, t);
    assert TowerOf(g, r.players, id) == t && TowerOf(g, r.players, b) == there;
    hide Inv, Grid.CellToTower, Grid.Sees, ReadyStep, OnlyAbout;
    assert b in s.players[id].view <==> NearPair(g, s.players, s.ready, id, b);
  }

  lemma ReadyIsAbout(g: Grid, s: State, id: ObjectId)
    requires Inv(g, s) && id in s.players
    ensures OnlyAbout(s.players, ReadyStep(g, s, id).players, id)
  {
    ReadyPlaces(g, s, id);
    hide Inv, ReadyStep, OnlyAbout, Grid.CellToTower, Grid.Sees;
    if b :| b in s.players && b != id {
      ReadyBringsIntoView(g, s, id, b);
    } else {
      NobodyElse(s.players, ReadyStep(g, s, id).players, id);
    }
  }

  lemma ReadyExact(g: Grid, s: State, id: ObjectId)
    requires Inv(g, s) && Exact(g, s) && id in s.players && id !in s.ready
    requires Inv(g, ReadyStep(g, s, id)) && Room(ReadyStep(g, s, id).players)
    ensures Exact(g, ReadyStep(g, s, id))
  {
    var r := ReadyStep(g, s, id);
    ReadyKeepsApartIff(g, s, id);
    ReadyPlaces(g, s, id);
    ReadyIsAbout(g, s, id);
    hide Inv, Grid.CellToTower, Grid.Sees, ReadyStep, OnlyAbout, NearPair, Room, NoRoom;
    ExactIfAbout(g, s, r, id);
    forall b | b in s.players && b != id
      ensures b in r.players[id].view <==> NearPair(g, r.players, r.ready, id, b)
    {
      ReadyPairExact(g, s, id, b);
    }
  }

  /** A late ready that does not put the player into its own view has filled that view. */
  lemma LateReady(g: Grid, s: State, id: ObjectId)
    requires Inv(g, s) && Exact(g, s) && id in s.players && id in s.ready
    requires Room(ReadyStep(g, s, id).players)
    ensures !Irreflexive(ReadyStep(g, s, id).players)
  {
    ReadyKeepsApartIff(g, s, id);
    ReadyListsSelf(g, s, id);
    InvViews(g, s);
    hide Inv, Own, Grid.CellToTower, Entered, AddViews, Full, Symmetric, Capped;
    var ws := Own(g, s.table, TowerOf(g, s.players, id)).watchers;
    var before, after := SplitAscending(ws, id);
    AddViewsConcat(s.players, id, before, [id] + after);
    AddViewsKeeps(s.players, id, before);
    FillsUpIff(s.players, id, before);
    var q := AddViews(s.players, id, before);
    AddViewsKeeps(q, id, [id] + after);
    SubsetSize(q[id].view, AddViews(q, id, [id] + after)[id].view);
  }

  lemma LoginExact(g: Grid, s: State, id: ObjectId)
    requires Inv(g, s) && Exact(g, s) && Inv(g, LoginStep(s, id))
    ensures Exact(g, LoginStep(s, id))
  {
    var r := LoginStep(s, id);
    InvOnMap(g, s);
    InvViews(g, s);
    hide Inv, Grid.CellToTower, Grid.Sees, Capped;
    forall a, b | a in r.players && b in r.players && a != b
      ensures b in r.players[a].view <==> NearPair(g, r.players, r.ready, a, b)
    {
      if a in s.players && b in s.players {
        assert b in s.players[a].view <==> NearPair(g, s.players, s.ready, a, b);
      }
    }
  }

  lemma WithinExact(g: Grid, s: State, id: ObjectId, to: Point)
    requires Inv(g, s) && Exact(g, s) && g.OnMap(to) && id in s.players
    requires TowerOf(g, s.players, id) == g.CellToTower(to)
    requires Inv(g, MoveStep(g, s, id, to))
    ensures Exact(g, MoveStep(g, s, id, to))
  {
    var r := MoveStep(g, s, id, to);
    InvOnMap(g, s);
    hide Inv, Grid.CellToTower, Grid.Sees;
    forall a, b | a in r.players && b in r.players && a != b
      ensures b in r.players[a].view <==> NearPair(g, r.players, r.ready, a, b)
    {
      assert b in s.players[a].view <==> NearPair(g, s.players, s.ready, a, b);
    }
  }

  lemma LogoutExact(g: Grid, s: State, id: ObjectId)
    requires Inv(g, s) && Exact(g, s) && Inv(g, LogoutStep(g, s, id))
    ensures Exact(g, LogoutStep(g, s, id))
  {
    var r := LogoutStep(g, s, id);
    LogoutKeepsApart(g, s, id);
    if id in s.players {
      LogoutPlaces(g, s, id);
      InvOnMap(g, s);
      InvOnMap(g, r);
      hide Inv, Grid.CellToTower, Grid.Sees, LogoutStep, Irreflexive;
      forall a, b | a in r.players && b in r.players && a != b
        ensures b in r.players[a].view <==> NearPair(g, r.players, r.ready, a, b)
      {
        LogoutTakesOutOfView(g, s, id, a);
        assert b in s.players[a].view <==> NearPair(g, s.players, s.ready, a, b);
      }
    }
  }

  lemma MoveStranger(g: Grid, s: State, id: ObjectId, to: Point)
    requires Inv(g, s) && g.OnMap(to) && id !in s.players
    ensures MoveStep(g, s, id, to) == s
  {
  }

  /**
    While no view is full, exact views stay exact but for two kinds of steps: a ready of a
    player the index knows, and a move to another tower by a player the index does not know
    when somebody that has entered sees both towers.
   */
  lemma StepStaysExactIff(g: Grid, s: State, e: Event)
    requires Inv(g, s) && InBounds(g, e) && Exact(g, s) && Inv(g, Step(g, s, e)) && Room(Step(g, s, e).players)
    ensures Exact(g, Step(g, s, e)) <==> StaysExact(g, s, e)
  {
    InvOnMap(g, s);
    hide Inv, ReadyStep, MoveStep, LogoutStep, LoginStep, Grid.CellToTower, Room, Exact;
    match e
    case Login(id) => LoginExact(g, s, id);
    case Ready(id) =>
      if id in s.players && id !in s.ready {
        ReadyExact(g, s, id);
      } else if id in s.players {
        LateReady(g, s, id);
      } else {
        ReadyStranger(g, s, id);
      }
    case Move(id, to, walkable) =>
      if walkable && id in s.players {
        if TowerOf(g, s.players, id) == g.CellToTower(to) {
          WithinExact(g, s, id, to);
        } else {
          MoveExactIff(g, s, id, to);
        }
      } else if walkable {
        MoveStranger(g, s, id, to);
      }
    case Logout(id) => LogoutExact(g, s, id);
  }

  // ---------------------------------------------------------------- whole runs

  ghost predicate OnGrid(g: Grid, j: Journal) {
    g.Valid() && g.w > 1 && g.h > 1 && forall id :: id in j ==> g.OnMap(j[id].location)
  }

  ghost predicate AllInBounds(g: Grid, events: seq<Event>) {
    forall e :: e in events ==> InBounds(g, e)
  }

  /** The two kinds of steps that spoil views, told from what was noted of the events so far. */
  ghost predicate StaysNoted(g: Grid, j: Journal, e: Event)
    requires OnGrid(g, j) && InBounds(g, e)
  {
    match e
    case Ready(id) => id in j ==> !j[id].known
    case Move(id, to, walkable) =>
      walkable && id in j && !j[id].known && g.CellToTower(j[id].location) != g.CellToTower(to) ==>
        forall b :: b in j && j[b].known && g.Sees(g.CellToTower(j[b].location), g.CellToTower(j[id].location)) ==>
          !g.Sees(g.CellToTower(j[b].location), g.CellToTower(to))
    case _ => true
  }

  lemma NotedIsExact(g: Grid, j: Journal, s: State, e: Event)
    requires Inv(g, s) && OnGrid(g, j) && InBounds(g, e) && Follows(g, j, s)
    ensures StaysNoted(g, j, e) <==> StaysExact(g, s, e)
  {
    InvOnMap(g, s);
    hide Inv, Grid.CellToTower, Grid.Sees;
  }

  /** Every ready is a first one, and every move across towers is noticed by all that should notice it. */
  ghost predicate Orderly(g: Grid, j: Journal, events: seq<Event>)
    requires OnGrid(g, j) && AllInBounds(g, events)
    decreases |events|
  {
    |events| > 0 ==> StaysNoted(g, j, events[0]) && Orderly(g, Noted(g, j, events[0]), events[1..])
  }

  /** At no time more players than a view can hold. */
  ghost predicate Few(g: Grid, j: Journal, events: seq<Event>)
    requires OnGrid(g, j) && AllInBounds(g, events)
    decreases |events|
  {
    |j| <= 100 && (|events| > 0 ==> Few(g, Noted(g, j, events[0]), events[1..]))
  }

  ghost function NotedAll(g: Grid, j: Journal, events: seq<Event>): Journal
    requires OnGrid(g, j) && AllInBounds(g, events)
    decreases |events|
  {
    if |events| == 0 then j else NotedAll(g, Noted(g, j, events[0]), events[1..])
  }

  /** Views are exact now and after each of the events. */
  ghost predicate AlwaysExact(g: Grid, s: State, events: seq<Event>)
    requires Inv(g, s) && AllInBounds(g, events)
    decreases |events|
  {
    Exact(g, s)
    && (|events| > 0 ==> (StepKeeps(g, s, events[0]); AlwaysExact(g, Step(g, s, events[0]), events[1..])))
  }

  /** No view is full now or after any of the events. */
  ghost predicate AlwaysRoom(g: Grid, s: State, events: seq<Event>)
    requires Inv(g, s) && AllInBounds(g, events)
    decreases |events|
  {
    Room(s.players)
    && (|events| > 0 ==> (StepKeeps(g, s, events[0]); AlwaysRoom(g, Step(g, s, events[0]), events[1..])))
  }

  lemma RoomNow(g: Grid, s: State, events: seq<Event>)
    requires Inv(g, s) && AllInBounds(g, events) && AlwaysRoom(g, s, events)
    ensures Room(s.players)
  {
  }

  /** While no view fills up, views are exact throughout a run if and only if its events are in order. */
  lemma {:induction false} RunStaysExactIff(g: Grid, j: Journal, s: State, events: seq<Event>)
    requires Inv(g, s) && OnGrid(g, j) && AllInBounds(g, events) && Follows(g, j, s)
    requires Exact(g, s) && AlwaysRoom(g, s, events)
    ensures AlwaysExact(g, s, events) <==> Orderly(g, j, events)
    decreases |events|
  {
    if |events| > 0 {
      var e := events[0];
      StepKeeps(g, s, e);
      var r := Step(g, s, e);
      hide Inv, Step, Exact, Noted, StaysNoted, Follows, Room;
      assert Room(r.players) by { RoomNow(g, r, events[1..]); }
      NotedIsExact(g, j, s, e);
      NotedFollows(g, j, s, e);
      StepStaysExactIff(g, s, e);
      if Exact(g, r) {
        RunStaysExactIff(g, Noted(g, j, e), r, events[1..]);
      }
    }
  }

  lemma OneHasRoom(ps: Players, a: ObjectId)
    requires Symmetric(ps) && Irreflexive(ps) && a in ps && |ps| <= 100
    ensures |ps[a].view| < 100
  {
    var others := ps[a].view;
    assert forall b :: b in others ==> b in ps;
    hide Symmetric, Irreflexive;
    assert |ps.Keys| == |ps|;
    assert others + {a} <= ps.Keys;
    SubsetSize(others + {a}, ps.Keys);
    assert |others + {a}| == |others| + 1;
  }

  /** Among a hundred players that do not see themselves no view is full. */
  lemma FewHaveRoom(g: Grid, s: State)
    requires Inv(g, s) && Irreflexive(s.players) && |s.players| <= 100
    ensures Room(s.players)
  {
    InvViews(g, s);
    hide Inv, Symmetric, Capped, Irreflexive;
    forall a | a in s.players ensures |s.players[a].view| < 100 {
      OneHasRoom(s.players, a);
    }
  }

  lemma FewNow(g: Grid, j: Journal, s: State, events: seq<Event>)
    requires Inv(g, s) && OnGrid(g, j) && AllInBounds(g, events) && Follows(g, j, s) && Few(g, j, events)
    ensures |s.players| <= 100
  {
    assert |j.Keys| == |j| && |s.players.Keys| == |s.players|;
  }

  lemma ExactIsApart(g: Grid, s: State)
    requires Inv(g, s) && Exact(g, s)
    ensures Irreflexive(s.players)
  {
  }

  lemma SpoiltNow(g: Grid, s: State, events: seq<Event>)
    requires Inv(g, s) && AllInBounds(g, events) && !Irreflexive(s.players)
    ensures !AlwaysExact(g, s, events)
  {
  }

  /** With no more players than a view can hold, no view needs to be looked at. */
  lemma {:induction false} FewStayExactIff(g: Grid, j: Journal, s: State, events: seq<Event>)
    requires Inv(g, s) && OnGrid(g, j) && AllInBounds(g, events) && Follows(g, j, s)
    requires Exact(g, s) && Few(g, j, events)
    ensures AlwaysExact(g, s, events) <==> Orderly(g, j, events)
    decreases |events|
  {
    if |events| > 0 {
      var e := events[0];
      StepKeeps(g, s, e);
      var r := Step(g, s, e);
      hide Inv, Step, Exact, Noted, StaysNoted, Follows, Room, Irreflexive, NoRoom;
      NotedIsExact(g, j, s, e);
      NotedFollows(g, j, s, e);
      FewNow(g, Noted(g, j, e), r, events[1..]);
      ExactIsApart(g, s);
      StepKeepsApartIff(g, s, e);
      if Irreflexive(r.players) {
        FewHaveRoom(g, r);
        StepStaysExactIff(g, s, e);
        if Exact(g, r) {
          FewStayExactIff(g, Noted(g, j, e), r, events[1..]);
        }
      } else {
        SpoiltNow(g, r, events[1..]);
      }
    }
  }

  lemma {:induction false} AtTheEnd(g: Grid, j: Journal, s: State, events: seq<Event>)
    requires Inv(g, s) && OnGrid(g, j) && AllInBounds(g, events) && Follows(g, j, s) && AlwaysExact(g, s, events)
    ensures Exact(g, Run(g, s, events)) && Follows(g, NotedAll(g, j, events), Run(g, s, events))
    decreases |events|
  {
    if |events| > 0 {
      StepKeeps(g, s, events[0]);
      NotedFollows(g, j, s, events[0]);
      hide Inv, Step, Exact, Noted, Follows;
      AtTheEnd(g, Noted(g, j, events[0]), Step(g, s, events[0]), events[1..]);
    }
  }

  lemma ToldIs(g: Grid, j: Journal, s: State)
    requires Inv(g, s) && Exact(g, s) && Follows(g, j, s)
    ensures OnGrid(g, j)
    ensures forall a, b :: a in j && b in j ==>
              (b in s.players[a].view <==>
                 a != b && j[a].known && j[b].known
                 && g.Sees(g.CellToTower(j[a].location), g.CellToTower(j[b].location)))
  {
    InvOnMap(g, s);
    hide Inv, Grid.CellToTower, Grid.Sees;
    forall a, b | a in j && b in j
      ensures b in s.players[a].view <==>
                a != b && j[a].known && j[b].known
                && g.Sees(g.CellToTower(j[a].location), g.CellToTower(j[b].location))
    {
      if a != b {
        assert b in s.players[a].view <==> NearPair(g, s.players, s.ready, a, b);
      }
    }
  }

  /** Who sees whom in the end, told from the events alone. */
  ghost predicate ToldFromEvents(g: Grid, events: seq<Event>, ps: Players)
    requires OnGrid(g, map[]) && AllInBounds(g, events)
  {
    var j := NotedAll(g, map[], events);
    && ps.Keys == j.Keys && OnGrid(g, j)
    && forall a, b :: a in j && b in j ==>
         (b in ps[a].view <==>
            a != b && j[a].known && j[b].known
            && g.Sees(g.CellToTower(j[a].location), g.CellToTower(j[b].location)))
  }

  lemma ToldInTheEnd(g: Grid, events: seq<Event>)
    requires OnGrid(g, map[]) && AllInBounds(g, events) && Inv(g, Start(g)) && AlwaysExact(g, Start(g), events)
    ensures ToldFromEvents(g, events, Run(g, Start(g), events).players)
  {
    hide Inv, Exact, OnGrid;
    AtTheEnd(g, map[], Start(g), events);
    ToldIs(g, NotedAll(g, map[], events), Run(g, Start(g), events));
  }

  /**
    Main result.  On an empty server that never holds more than a hundred players, views are
    exact after every event if and only if the events are in order; and then who sees whom
    in the end can be told from the events alone: two players have each other in view
    exactly when the index knows both and their towers see each other.
   */
  lemma ViewsToldFromEvents(g: Grid, events: seq<Event>)
    requires OnGrid(g, map[]) && AllInBounds(g, events) && Few(g, map[], events)
    ensures Inv(g, Start(g))
    ensures AlwaysExact(g, Start(g), events) <==> Orderly(g, map[], events)
    ensures Orderly(g, map[], events) ==> ToldFromEvents(g, events, Run(g, Start(g), events).players)
  {
    StartKeeps(g);
    FewStayExactIff(g, map[], Start(g), events);
    if Orderly(g, map[], events) {
      ToldInTheEnd(g, events);
    }
  }

  /** The same for any number of players, as long as no view fills up. */
  lemma ViewsWithRoom(g: Grid, events: seq<Event>)
    requires OnGrid(g, map[]) && AllInBounds(g, events)
    requires Inv(g, Start(g)) && AlwaysRoom(g, Start(g), events)
    ensures AlwaysExact(g, Start(g), events) <==> Orderly(g, map[], events)
    ensures Orderly(g, map[], events) ==> ToldFromEvents(g, events, Run(g, Start(g), events).players)
  {
    RunStaysExactIff(g, map[], Start(g), events);
    if Orderly(g, map[], events) {
      ToldInTheEnd(g, events);
    }
  }

  /** Everybody reports ready once after its login, and moves to other towers only then. */
  ghost predicate ReadyFirst(g: Grid, j: Journal, events: seq<Event>)
    requires OnGrid(g, j) && AllInBounds(g, events)
    decreases |events|
  {
    |events| > 0 ==>
      && ReadyFirst(g, Noted(g, j, events[0]), events[1..])
      && match events[0]
         case Ready(id) => id in j ==> !j[id].known
         case Move(id, to, walkable) =>
           walkable && id in j && g.CellToTower(j[id].location) != g.CellToTower(to) ==> j[id].known
         case _ => true
  }

  /** A discipline that is always in order. */
  lemma {:induction false} ReadyFirstIsOrderly(g: Grid, j: Journal, events: seq<Event>)
    requires OnGrid(g, j) && AllInBounds(g, events) && ReadyFirst(g, j, events)
    ensures Orderly(g, j, events)
    decreases |events|
  {
    if |events| > 0 {
      ReadyFirstIsOrderly(g, Noted(g, j, events[0]), events[1..]);
    }
  }

  /**
    Moving before the first ready is what goes wrong: it registers the player, but whoever
    sees both towers does not come into its view, near as they are.
   */
  lemma UnreadyMoverIsLeftOut(g: Grid, s: State, id: ObjectId, to: Point, b: ObjectId)
    requires Inv(g, s) && id in s.players && b in s.players && b != id && g.OnMap(to)
    requires id !in s.ready && b in s.ready && TowerOf(g, s.players, id) != g.CellToTower(to)
    requires g.Sees(TowerOf(g, s.players, b), TowerOf(g, s.players, id))
    requires g.Sees(TowerOf(g, s.players, b), g.CellToTower(to))
    ensures var r := MoveStep(g, s, id, to);
            && id in r.ready && b in r.ready && g.Sees(g.CellToTower(to), TowerOf(g, s.players, b))
            && b !in r.players[id].view && id !in r.players[b].view
  {
    MoveBringsIntoView(g, s, id, to, b);
    MovePlaces(g, s, id, to);
    SeesBothWays(g, g.CellToTower(to), TowerOf(g, s.players, b));
    hide Grid.CellToTower, Grid.Sees, MoveStep, Agrees, Symmetric, Capped;
    assert b in s.players[id].view ==> NearPair(g, s.players, s.ready, id, b);
  }
}
