/**
  Ordered sets of object ids: visiting in order, and the walk over two of them that finds
  what was added, kept and removed.
 */
module SortedSets {
  lemma {:induction false} MinExists(s: set<int>)
    requires s != {}
    ensures exists m :: m in s && forall x :: x in s ==> m <= x
  {
    if forall a :: a !in s {
      assert false;
    }
    var a :| a in s;
    if s != {a} {
      MinExists(s - {a});
      var b :| b in s - {a} && forall x :: x in s - {a} ==> b <= x;
      assert forall x :: x in s ==> x == a || x in s - {a};
      var m := if a <= b then a else b;
      assert m in s && forall x :: x in s ==> m <= x;
    } else {
      assert a in s && forall x :: x in s ==> a <= x;
    }
  }

  function Min(s: set<int>): (m: int)
    requires s != {}
    ensures m in s && forall x :: x in s ==> m <= x
  {
    MinExists(s);
    var m :| m in s && forall x :: x in s ==> m <= x;
    m
  }

  predicate Sorted(q: seq<int>) {
    forall i, j :: 0 <= i < j < |q| ==> q[i] < q[j]
  }

  function Elements(q: seq<int>): set<int> {
    set x | x in q
  }

  lemma Prepend(m: int, q: seq<int>)
    requires Sorted(q) && forall x :: x in Elements(q) ==> m < x
    ensures Sorted([m] + q) && Elements([m] + q) == {m} + Elements(q)
  {
    forall i | 0 <= i < |q| ensures m < q[i] {
      assert q[i] in Elements(q);
    }
  }

  /** A set in the order its iterator visits it. */
  function Ascending(s: set<int>): (q: seq<int>)
    ensures Sorted(q) && Elements(q) == s
    decreases s
  {
    if s == {} then []
    else
      var m, rest := Min(s), Ascending(s - {Min(s)});
      Prepend(m, rest);
      assert s == {m} + (s - {m});
      [m] + rest
  }

  /** How far a walk over `q` has come: `seen` are the elements before position `i`. */
  ghost predicate Walked(q: seq<int>, i: int, seen: set<int>) {
    && Sorted(q) && 0 <= i <= |q|
    && seen == Elements(q[..i])
    && (i < |q| ==> forall x :: x in seen ==> x < q[i])
  }

  lemma WalkStart(q: seq<int>)
    requires Sorted(q)
    ensures Walked(q, 0, {})
  {
  }

  lemma WalkStep(q: seq<int>, i: int, seen: set<int>)
    requires Walked(q, i, seen) && i < |q|
    ensures Walked(q, i + 1, seen + {q[i]})
  {
    assert q[..i + 1] == q[..i] + [q[i]];
  }

  lemma WalkEnd(q: seq<int>, i: int, seen: set<int>)
    requires Walked(q, i, seen)
    ensures Elements(q) == seen + Elements(q[i..])
    ensures forall x :: x in Elements(q[i..]) ==> q[i..] != [] && q[i] <= x
  {
    assert q == q[..i] + q[i..];
    forall x | x in q[i..] ensures q[i] <= x {
      var k :| 0 <= k < |q[i..]| && q[i..][k] == x;
      assert q[i + k] == x;
    }
  }

  /** An element below everything left and above everything seen is not in the list. */
  lemma NotThere(q: seq<int>, i: int, seen: set<int>, x: int)
    requires Walked(q, i, seen) && x !in seen && (i < |q| ==> x < q[i])
    ensures x !in Elements(q)
  {
    assert q == q[..i] + q[i..];
    forall k | i <= k < |q| ensures x < q[k] {
    }
  }

  /** What was added, kept and removed among the elements walked so far. */
  ghost predicate Sorted3(olds: set<int>, news: set<int>, gone: set<int>, come: set<int>,
                          insert: set<int>, same: set<int>, remove: set<int>) {
    && gone <= olds && come <= news
    && insert == come - olds && remove == gone - news
    && same == gone * news == come * olds
  }

  lemma IsElement(q: seq<int>, i: int)
    requires 0 <= i < |q|
    ensures q[i] in Elements(q)
  {
  }

  lemma NothingLeft(q: seq<int>)
    ensures Elements(q[|q|..]) == {}
  {
  }

  /** One list is used up: what is left of the other is not in the first. */
  lemma WalkOver(olds: set<int>, news: set<int>, gone: set<int>, come: set<int>, lateOld: set<int>, lateNew: set<int>,
                 ins: set<int>, sam: set<int>, rem: set<int>)
    requires Sorted3(olds, news, gone, come, ins, sam, rem)
    requires olds == gone + lateOld && news == come + lateNew
    requires lateOld == {} || lateNew == {}
    requires lateOld == {} ==> lateNew !! gone
    requires lateNew == {} ==> lateOld !! come
    ensures ins + lateNew == news - olds && sam == olds * news && rem + lateOld == olds - news
  {
  }

  /** Walks two ordered sets side by side and sorts their elements into new, common and gone. */
  method MoveOject(oldt: set<int>, newt: set<int>,
                   insert0: set<int>, same0: set<int>, remove0: set<int>)
    returns (insert: set<int>, same: set<int>, remove: set<int>)
    ensures insert == insert0 + (newt - oldt)
    ensures same == same0 + oldt * newt
    ensures remove == remove0 + (oldt - newt)
  {
    hide Sorted, Elements;
    insert, same, remove := insert0, same0, remove0;
    var olds, news := Ascending(oldt), Ascending(newt);
    var i, j := 0, 0;
    ghost var gone: set<int>, come: set<int> := {}, {};
    ghost var ins: set<int>, sam: set<int>, rem: set<int> := {}, {}, {};
    WalkStart(olds);
    WalkStart(news);
    while i < |olds| && j < |news|
      invariant Walked(olds, i, gone) && Walked(news, j, come)
      invariant i < |olds| ==> forall x :: x in come ==> x < olds[i]
      invariant j < |news| ==> forall x :: x in gone ==> x < news[j]
      invariant Sorted3(oldt, newt, gone, come, ins, sam, rem)
      invariant insert == insert0 + ins && same == same0 + sam && remove == remove0 + rem
      decreases |olds| - i + |news| - j
    {
      var o, n := olds[i], news[j];
      IsElement(olds, i);
      IsElement(news, j);
      if o > n {
        NotThere(olds, i, gone, n);
        WalkStep(news, j, come);
        insert, ins := insert + {n}, ins + {n};
        j, come := j + 1, come + {n};
      } else if o < n {
        NotThere(news, j, come, o);
        WalkStep(olds, i, gone);
        remove, rem := remove + {o}, rem + {o};
        i, gone := i + 1, gone + {o};
      } else {
        WalkStep(olds, i, gone);
        WalkStep(news, j, come);
        same, sam := same + {o}, sam + {o};
        i, j := i + 1, j + 1;
        gone, come := gone + {o}, come + {o};
      }
    }
    WalkEnd(olds, i, gone);
    WalkEnd(news, j, come);
    ghost var lateOld, lateNew := Elements(olds[i..]), Elements(news[j..]);
    WalkOver(oldt, newt, gone, come, lateOld, lateNew, ins, sam, rem);
    if i != |olds| {
      remove := remove + Elements(olds[i..]);
    } else {
      NothingLeft(olds);
    }
    if j != |news| {
      insert := insert + Elements(news[j..]);
    } else {
      NothingLeft(news);
    }
  }
}
