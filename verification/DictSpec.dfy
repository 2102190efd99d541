/**
  The chained hash table behind the subscription tables.  DictSpec gives the contents of a
  table on values, bucket by bucket, and lookup; Dict is the table of linked entries that
  grows by relinking them in place, proved to be a map, and its iterator.
 */
module DictSpec {
  import opened Wrappers
  import opened Bits

  type Key = seq<Byte>

  datatype Entry<V> = Entry(key: Key, val: V)

  // ---------------------------------------------------------------- one bucket

  function Get<V>(es: seq<Entry<V>>, k: Key): Option<V> {
    if |es| == 0 then None else if es[0].key == k then Some(es[0].val) else Get(es[1..], k)
  }

  ghost predicate Distinct<V>(es: seq<Entry<V>>) {
    forall i, j :: 0 <= i < j < |es| ==> es[i].key != es[j].key
  }

  /** Without the entry at `i`. */
  function CutAt<T>(s: seq<T>, i: nat): (r: seq<T>)
    requires i < |s|
    ensures |r| == |s| - 1
    ensures forall j :: 0 <= j < |r| ==> r[j] == s[if j < i then j else j + 1]
  {
    s[..i] + s[i + 1..]
  }

  lemma {:induction false} GetIsMember<V>(es: seq<Entry<V>>, k: Key)
    ensures Get(es, k).Some? ==> Entry(k, Get(es, k).value) in es
    ensures Get(es, k).None? ==> forall j :: 0 <= j < |es| ==> es[j].key != k
  {
    if |es| > 0 && es[0].key != k {
      GetIsMember(es[1..], k);
      forall j | 0 <= j < |es| && Get(es, k).None? ensures es[j].key != k {
        assert j > 0 ==> es[j] == es[1..][j - 1];
      }
    }
  }

  lemma {:induction false} GetAt<V>(es: seq<Entry<V>>, i: nat)
    requires i < |es| && Distinct(es)
    ensures Get(es, es[i].key) == Some(es[i].val)
  {
    if i > 0 {
      assert forall a, b :: 0 <= a < b < |es[1..]| ==> es[1..][a].key == es[a + 1].key != es[1..][b].key;
      GetAt(es[1..], i - 1);
    }
  }

  /** With distinct keys, looking up is membership. */
  lemma {:induction false} GetMember<V>(es: seq<Entry<V>>, e: Entry<V>)
    requires Distinct(es)
    ensures e in es <==> Get(es, e.key) == Some(e.val)
  {
    GetIsMember(es, e.key);
    if e in es {
      var j :| 0 <= j < |es| && es[j] == e;
      GetAt(es, j);
    }
  }

  lemma GetFirst<V>(e: Entry<V>, es: seq<Entry<V>>)
    ensures forall k :: Get([e] + es, k) == if k == e.key then Some(e.val) else Get(es, k)
  {
    assert ([e] + es)[1..] == es;
  }

  lemma DistinctFirst<V>(e: Entry<V>, es: seq<Entry<V>>)
    ensures Distinct([e] + es) <==> Distinct(es) && Get(es, e.key).None?
  {
    GetIsMember(es, e.key);
    var all := [e] + es;
    assert forall j :: 0 <= j < |es| ==> all[j + 1] == es[j];
    if Distinct(all) {
      assert all[0] == e;
    }
  }

  /** Taking out the entry of a key leaves all others. */
  lemma CutGet<V>(es: seq<Entry<V>>, i: nat, k: Key)
    requires i < |es| && Distinct(es)
    ensures Distinct(CutAt(es, i))
    ensures Get(CutAt(es, i), k) == if k == es[i].key then None else Get(es, k)
  {
    var r := CutAt(es, i);
    assert Distinct(r);
    GetIsMember(r, k);
    GetIsMember(es, k);
    if Get(r, k).Some? {
      GetMember(es, Entry(k, Get(r, k).value));
    }
    if Get(es, k).Some? && k != es[i].key {
      var e := Entry(k, Get(es, k).value);
      var j :| 0 <= j < |es| && es[j] == e;
      assert r[if j < i then j else j - 1] == e;
      GetMember(r, e);
    }
  }

  /** Overwriting the value of an entry changes that key only. */
  lemma SetGet<V>(es: seq<Entry<V>>, i: nat, v: V, k: Key)
    requires i < |es| && Distinct(es)
    ensures Distinct(es[i := Entry(es[i].key, v)])
    ensures Get(es[i := Entry(es[i].key, v)], k) == if k == es[i].key then Some(v) else Get(es, k)
  {
    var r := es[i := Entry(es[i].key, v)];
    assert Distinct(r);
    GetIsMember(r, k);
    GetIsMember(es, k);
    if k == es[i].key {
      GetAt(r, i);
    } else {
      if Get(r, k).Some? {
        GetMember(es, Entry(k, Get(r, k).value));
      }
      if Get(es, k).Some? {
        var j :| 0 <= j < |es| && es[j] == Entry(k, Get(es, k).value);
        assert r[j] == es[j];
        GetMember(r, es[j]);
      }
    }
  }

  // ---------------------------------------------------------------- tables

  type Hash = k: nat | k < 0x1_0000_0000

  /** The bucket of a key: the low bits of its hash. */
  function Slot(hash: Key -> Hash, size: nat, k: Key): nat
    requires size > 0
  {
    And(64, hash(k), size - 1)
  }

  lemma SlotInRange(hash: Key -> Hash, bits: nat, k: Key)
    requires bits <= 32
    ensures Slot(hash, Pow2(bits), k) == hash(k) % Pow2(bits) < Pow2(bits)
    ensures Slot(hash, Pow2(bits), k) == And(64, hash(k), Pow2(bits) - 1)
  {
    AndMask(64, bits, hash(k));
  }

  /** How many entries a table holds. */
  function Count<V>(ts: seq<seq<Entry<V>>>): nat {
    if |ts| == 0 then 0 else |ts[0]| + Count(ts[1..])
  }

  lemma {:induction false} CountUpdate<V>(ts: seq<seq<Entry<V>>>, i: nat, es: seq<Entry<V>>)
    requires i < |ts|
    ensures Count(ts[i := es]) == Count(ts) - |ts[i]| + |es|
  {
    if i == 0 {
      assert ts[0 := es][1..] == ts[1..];
    } else {
      CountUpdate(ts[1..], i - 1, es);
      assert ts[i := es][1..] == ts[1..][i - 1 := es];
    }
  }

  lemma {:induction false} CountEmpty<V>(ts: seq<seq<Entry<V>>>)
    ensures Count(ts) == 0 <==> forall i :: 0 <= i < |ts| ==> ts[i] == []
  {
    if |ts| > 0 {
      CountEmpty(ts[1..]);
      assert forall i :: 0 < i < |ts| ==> ts[i] == ts[1..][i - 1];
      if ts[0] == [] && forall i :: 0 <= i < |ts[1..]| ==> ts[1..][i] == [] {
        assert forall i :: 0 <= i < |ts| ==> ts[i] == [];
      }
    }
  }

  /** Every bucket holds distinct keys, each in its own slot. */
  ghost predicate Placed<V>(hash: Key -> Hash, ts: seq<seq<Entry<V>>>)
  {
    && (forall i :: 0 <= i < |ts| ==> Distinct(ts[i]))
    && (forall i, k :: 0 <= i < |ts| && Get(ts[i], k).Some? ==> Slot(hash, |ts|, k) == i)
  }

  function Look<V>(hash: Key -> Hash, ts: seq<seq<Entry<V>>>, k: Key): Option<V> {
    if |ts| == 0 then None
    else
      var i := Slot(hash, |ts|, k);
      if i < |ts| then Get(ts[i], k) else None
  }

  function InMap<V>(m: map<Key, V>, k: Key): Option<V> {
    if k in m then Some(m[k]) else None
  }

  /** The table answers like the map. */
  ghost predicate Refines<V>(hash: Key -> Hash, ts: seq<seq<Entry<V>>>, m: map<Key, V>) {
    forall k :: Look(hash, ts, k) == InMap(m, k)
  }

  const INITIAL_SIZE: nat := 4
  const INITIAL_BITS: nat := 2

  // Bucket indices are returned as 32-bit signed numbers.
  const MAX_BITS: nat := 31

  /** The table is a map; its size is zero or a power of two from 4 on, never below the number of entries. */
  ghost predicate Sound<V>(hash: Key -> Hash, ts: seq<seq<Entry<V>>>, size: nat, sizemask: nat, used: nat, bits: nat,
                           m: map<Key, V>)
  {
    && size == |ts| && used == |m| == Count(ts) && used <= size
    && (size == 0 || (size == Pow2(bits) && INITIAL_BITS <= bits <= MAX_BITS && sizemask == size - 1))
    && Placed(hash, ts) && Refines(hash, ts, m)
  }

  lemma EmptyTable<V>(hash: Key -> Hash, ts: seq<seq<Entry<V>>>)
    requires forall i :: 0 <= i < |ts| ==> ts[i] == []
    ensures Placed(hash, ts) && Count(ts) == 0 && forall k :: Look(hash, ts, k) == None
  {
    CountEmpty(ts);
  }

  // ---------------------------------------------------------------- changes

  lemma AddRefines<V>(hash: Key -> Hash, ts: seq<seq<Entry<V>>>, m: map<Key, V>, e: Entry<V>)
    requires |ts| > 0 && Slot(hash, |ts|, e.key) < |ts| && Placed(hash, ts) && Refines(hash, ts, m) && e.key !in m
    ensures var h := Slot(hash, |ts|, e.key); var r := ts[h := [e] + ts[h]];
            Placed(hash, r) && Count(r) == Count(ts) + 1 && Refines(hash, r, m[e.key := e.val])
  {
    var h := Slot(hash, |ts|, e.key);
    CountUpdate(ts, h, [e] + ts[h]);
    assert Look(hash, ts, e.key) == InMap(m, e.key);
    GetFirst(e, ts[h]);
    DistinctFirst(e, ts[h]);
    hide Slot, Count, Get, Distinct;
    var r := ts[h := [e] + ts[h]];
    forall k ensures Look(hash, r, k) == InMap(m[e.key := e.val], k) {
      assert Look(hash, ts, k) == InMap(m, k);
    }
  }

  lemma ReplaceRefines<V>(hash: Key -> Hash, ts: seq<seq<Entry<V>>>, m: map<Key, V>, h: nat, i: nat, v: V)
    requires h < |ts| && i < |ts[h]| && Placed(hash, ts) && Refines(hash, ts, m)
    ensures var k := ts[h][i].key; var r := ts[h := ts[h][i := Entry(k, v)]];
            k in m && Placed(hash, r) && Count(r) == Count(ts) && Refines(hash, r, m[k := v])
  {
    var key, es := ts[h][i].key, ts[h][i := Entry(ts[h][i].key, v)];
    var r := ts[h := es];
    CountUpdate(ts, h, es);
    GetAt(ts[h], i);
    assert Look(hash, ts, key) == InMap(m, key);
    forall k ensures Get(es, k) == (if k == key then Some(v) else Get(ts[h], k)) && Distinct(es) {
      SetGet(ts[h], i, v, k);
    }
    hide Slot, Count, Get, Distinct;
    forall k ensures Look(hash, r, k) == InMap(m[key := v], k) {
      assert Look(hash, ts, k) == InMap(m, k);
    }
  }

  lemma DeleteRefines<V>(hash: Key -> Hash, ts: seq<seq<Entry<V>>>, m: map<Key, V>, h: nat, i: nat)
    requires h < |ts| && i < |ts[h]| && Placed(hash, ts) && Refines(hash, ts, m)
    ensures var k := ts[h][i].key; var r := ts[h := CutAt(ts[h], i)];
            k in m && Placed(hash, r) && Count(r) == Count(ts) - 1 && Refines(hash, r, m - {k})
  {
    var key, es := ts[h][i].key, CutAt(ts[h], i);
    var r := ts[h := es];
    CountUpdate(ts, h, es);
    GetAt(ts[h], i);
    assert Look(hash, ts, key) == InMap(m, key);
    forall k ensures Get(es, k) == (if k == key then None else Get(ts[h], k)) && Distinct(es) {
      CutGet(ts[h], i, k);
    }
    hide Slot, Count, Get, Distinct, CutAt;
    forall k ensures Look(hash, r, k) == InMap(m - {key}, k) {
      assert Look(hash, ts, k) == InMap(m, k);
    }
  }

  lemma AddSound<V>(hash: Key -> Hash, ts: seq<seq<Entry<V>>>, size: nat, sizemask: nat, used: nat, bits: nat,
                    m: map<Key, V>, e: Entry<V>)
    requires Sound(hash, ts, size, sizemask, used, bits, m) && used < size && e.key !in m
    ensures var h := Slot(hash, size, e.key);
            h < |ts| && Sound(hash, ts[h := [e] + ts[h]], size, sizemask, used + 1, bits, m[e.key := e.val])
  {
    SlotInRange(hash, bits, e.key);
    AddRefines(hash, ts, m, e);
    hide Slot, Placed, Refines, Count;
  }

  lemma ReplaceSound<V>(hash: Key -> Hash, ts: seq<seq<Entry<V>>>, size: nat, sizemask: nat, used: nat, bits: nat,
                        m: map<Key, V>, h: nat, i: nat, v: V)
    requires Sound(hash, ts, size, sizemask, used, bits, m) && h < |ts| && i < |ts[h]|
    ensures var k := ts[h][i].key;
            Sound(hash, ts[h := ts[h][i := Entry(k, v)]], size, sizemask, used, bits, m[k := v])
  {
    var k := ts[h][i].key;
    ReplaceRefines(hash, ts, m, h, i, v);
    hide Slot, Placed, Refines, Count;
    assert m[k := v].Keys == m.Keys;
  }

  lemma DeleteSound<V>(hash: Key -> Hash, ts: seq<seq<Entry<V>>>, size: nat, sizemask: nat, used: nat, bits: nat,
                       m: map<Key, V>, h: nat, i: nat)
    requires Sound(hash, ts, size, sizemask, used, bits, m) && h < |ts| && i < |ts[h]|
    ensures var k := ts[h][i].key;
            used > 0 && Sound(hash, ts[h := CutAt(ts[h], i)], size, sizemask, used - 1, bits, m - {k})
  {
    DeleteRefines(hash, ts, m, h, i);
    hide Slot, Placed, Refines, Count, CutAt;
  }

  /** Where to look for a key. */
  lemma LookUp<V>(hash: Key -> Hash, ts: seq<seq<Entry<V>>>, size: nat, sizemask: nat, used: nat, bits: nat,
                  m: map<Key, V>, key: Key)
    requires Sound(hash, ts, size, sizemask, used, bits, m)
    ensures size == 0 ==> key !in m
    ensures size > 0 ==>
              && Slot(hash, size, key) == And(64, hash(key), sizemask) < |ts| == size
              && Get(ts[Slot(hash, size, key)], key) == InMap(m, key)
  {
    assert Look(hash, ts, key) == InMap(m, key);
    if size > 0 {
      SlotInRange(hash, bits, key);
    }
  }

  // ---------------------------------------------------------------- moving to a larger table

  /** What of a key is still in the old table when bucket `i` has been moved down to `es`. */
  function OldLook<V>(hash: Key -> Hash, ts: seq<seq<Entry<V>>>, i: int, es: seq<Entry<V>>, k: Key): Option<V> {
    if |ts| == 0 then None
    else
      var s := Slot(hash, |ts|, k);
      if i < s < |ts| then Get(ts[s], k) else if s == i then Get(es, k) else None
  }

  /** A key of the map is in exactly one of the two tables, with its value. */
  ghost predicate SplitAt<V>(hash: Key -> Hash, ts: seq<seq<Entry<V>>>, i: int, es: seq<Entry<V>>,
                             ns: seq<seq<Entry<V>>>, m: map<Key, V>, k: Key)
  {
    var here, there := Look(hash, ns, k), OldLook(hash, ts, i, es, k);
    (here.None? || there.None?) && InMap(m, k) == if here.Some? then here else there
  }

  ghost predicate Split<V>(hash: Key -> Hash, ts: seq<seq<Entry<V>>>, i: int, es: seq<Entry<V>>,
                           ns: seq<seq<Entry<V>>>, m: map<Key, V>)
  {
    forall k :: SplitAt(hash, ts, i, es, ns, m, k)
  }

  ghost predicate InBucket<V>(hash: Key -> Hash, ts: seq<seq<Entry<V>>>, i: nat, es: seq<Entry<V>>) {
    && i < |ts| && Distinct(es)
    && forall k :: Get(es, k).Some? ==> Slot(hash, |ts|, k) == i
  }

  /** Between two buckets of the old table: the first `i` are empty now. */
  ghost predicate Between<V>(hash: Key -> Hash, ts: seq<seq<Entry<V>>>, i: nat, ns: seq<seq<Entry<V>>>, m: map<Key, V>,
                             used: nat, nUsed: nat)
  {
    && i <= |ts| && Placed(hash, ts) && Placed(hash, ns) && Split(hash, ts, i - 1, [], ns, m)
    && used == Count(ts[i..]) && used + Count(ns) == nUsed == |m|
  }

  /** Within bucket `i`, of which `es` is left. */
  ghost predicate Moving<V>(hash: Key -> Hash, ts: seq<seq<Entry<V>>>, i: nat, es: seq<Entry<V>>,
                            ns: seq<seq<Entry<V>>>, m: map<Key, V>, used: nat, nUsed: nat)
  {
    && InBucket(hash, ts, i, es) && Placed(hash, ts) && Placed(hash, ns) && Split(hash, ts, i, es, ns, m)
    && used == |es| + Count(ts[i + 1..]) && used + Count(ns) == nUsed == |m|
  }

  lemma NothingMoved<V>(hash: Key -> Hash, ts: seq<seq<Entry<V>>>, size: nat, sizemask: nat, used: nat, bits: nat,
                        ns: seq<seq<Entry<V>>>, m: map<Key, V>)
    requires Sound(hash, ts, size, sizemask, used, bits, m) && forall i :: 0 <= i < |ns| ==> ns[i] == []
    ensures Between(hash, ts, 0, ns, m, used, used)
  {
    EmptyTable(hash, ns);
    assert ts[0..] == ts;
    forall k ensures SplitAt(hash, ts, -1, [], ns, m, k) {
      assert Look(hash, ts, k) == InMap(m, k);
    }
  }

  lemma NextBucket<V>(hash: Key -> Hash, ts: seq<seq<Entry<V>>>, i: nat, ns: seq<seq<Entry<V>>>, m: map<Key, V>,
                      used: nat, nUsed: nat)
    requires i < |ts| && Between(hash, ts, i, ns, m, used, nUsed)
    ensures Moving(hash, ts, i, ts[i], ns, m, used, nUsed)
  {
    assert ts[i..][0] == ts[i] && ts[i..][1..] == ts[i + 1..];
    forall k ensures SplitAt(hash, ts, i, ts[i], ns, m, k) {
      assert SplitAt(hash, ts, i - 1, [], ns, m, k);
    }
  }

  lemma BucketDone<V>(hash: Key -> Hash, ts: seq<seq<Entry<V>>>, i: nat, ns: seq<seq<Entry<V>>>, m: map<Key, V>,
                      used: nat, nUsed: nat)
    requires Moving(hash, ts, i, [], ns, m, used, nUsed)
    ensures Between(hash, ts, i + 1, ns, m, used, nUsed)
  {
  }

  /** The entry that is next to move is in neither the rest of its bucket nor the new table. */
  lemma NextIsAlone<V>(hash: Key -> Hash, ts: seq<seq<Entry<V>>>, i: nat, es: seq<Entry<V>>, ns: seq<seq<Entry<V>>>,
                       m: map<Key, V>, used: nat, nUsed: nat)
    requires |es| > 0 && Moving(hash, ts, i, es, ns, m, used, nUsed)
    ensures Get(es[1..], es[0].key).None?
    ensures forall h :: 0 <= h < |ns| ==> Get(ns[h], es[0].key).None?
    ensures forall j :: 0 <= j < |ts| && j != i ==> Get(ts[j], es[0].key).None?
  {
    assert es == [es[0]] + es[1..];
    DistinctFirst(es[0], es[1..]);
    assert SplitAt(hash, ts, i, es, ns, m, es[0].key);
    assert Get(es, es[0].key).Some?;
    hide Distinct, Count;
  }

  /** Moving one entry to the front of its new bucket loses nothing and duplicates nothing. */
  lemma MoveOne<V>(hash: Key -> Hash, ts: seq<seq<Entry<V>>>, i: nat, es: seq<Entry<V>>, ns: seq<seq<Entry<V>>>,
                   m: map<Key, V>, used: nat, nUsed: nat)
    requires |es| > 0 && Moving(hash, ts, i, es, ns, m, used, nUsed)
    requires |ns| > 0 && Slot(hash, |ns|, es[0].key) < |ns|
    ensures var h := Slot(hash, |ns|, es[0].key);
            used > 0 && Moving(hash, ts, i, es[1..], ns[h := [es[0]] + ns[h]], m, used - 1, nUsed)
  {
    var e, rest, h := es[0], es[1..], Slot(hash, |ns|, es[0].key);
    var r := ns[h := [e] + ns[h]];
    assert es == [e] + rest;
    CountUpdate(ns, h, [e] + ns[h]);
    NextIsAlone(hash, ts, i, es, ns, m, used, nUsed);
    GetFirst(e, rest);
    GetFirst(e, ns[h]);
    DistinctFirst(e, rest);
    DistinctFirst(e, ns[h]);
    hide Slot, Count, Get, Distinct;
    forall k ensures SplitAt(hash, ts, i, rest, r, m, k) {
      assert SplitAt(hash, ts, i, es, ns, m, k);
    }
  }

  /** Once no bucket or no entry is left, the new table is the old map. */
  lemma AllMoved<V>(hash: Key -> Hash, ts: seq<seq<Entry<V>>>, i: nat, ns: seq<seq<Entry<V>>>, bits: nat,
                    m: map<Key, V>, used: nat, nUsed: nat)
    requires Between(hash, ts, i, ns, m, used, nUsed) && (i == |ts| || used == 0)
    requires |ns| == Pow2(bits) && INITIAL_BITS <= bits <= MAX_BITS && nUsed <= |ns|
    ensures used == 0 && |ns| > 0 && Sound(hash, ns, |ns|, |ns| - 1, nUsed, bits, m)
  {
    CountEmpty(ts[i..]);
    forall j | i <= j < |ts| ensures ts[j] == [] {
      assert ts[j] == ts[i..][j - i];
    }
    hide Slot;
    forall k ensures Look(hash, ns, k) == InMap(m, k) {
      assert SplitAt(hash, ts, i - 1, [], ns, m, k);
    }
  }

  // ---------------------------------------------------------------- entries in bucket order

  function Flat<V>(ts: seq<seq<Entry<V>>>): seq<Entry<V>> {
    if |ts| == 0 then [] else ts[0] + Flat(ts[1..])
  }

  lemma {:induction false} FlatMember<V>(ts: seq<seq<Entry<V>>>, e: Entry<V>)
    ensures e in Flat(ts) <==> exists i :: 0 <= i < |ts| && e in ts[i]
  {
    if |ts| > 0 {
      FlatMember(ts[1..], e);
      if e in Flat(ts[1..]) {
        var i :| 0 <= i < |ts[1..]| && e in ts[1..][i];
        assert e in ts[i + 1];
      }
      if exists i :: 0 <= i < |ts| && e in ts[i] {
        var i :| 0 <= i < |ts| && e in ts[i];
        if i > 0 {
          assert e in ts[1..][i - 1];
        }
      }
    }
  }

  /** The entries of a table are exactly the pairs of its map. */
  lemma FlatIsMap<V>(hash: Key -> Hash, ts: seq<seq<Entry<V>>>, m: map<Key, V>, e: Entry<V>)
    requires Placed(hash, ts) && Refines(hash, ts, m)
    ensures e in Flat(ts) <==> e.key in m && m[e.key] == e.val
  {
    FlatMember(ts, e);
    assert Look(hash, ts, e.key) == InMap(m, e.key);
    hide Slot, Get, Distinct;
    if e in Flat(ts) {
      var i :| 0 <= i < |ts| && e in ts[i];
      GetMember(ts[i], e);
      assert Get(ts[i], e.key).Some?;
    }
    if e.key in m && m[e.key] == e.val {
      GetMember(ts[Slot(hash, |ts|, e.key)], e);
    }
  }

  lemma DistinctJoin<V>(a: seq<Entry<V>>, b: seq<Entry<V>>)
    requires Distinct(a) && Distinct(b) && forall e, f :: e in a && f in b ==> e.key != f.key
    ensures Distinct(a + b)
  {
  }

  /** No key occurs twice in a table. */
  lemma {:induction false} FlatKeysDiffer<V>(hash: Key -> Hash, ts: seq<seq<Entry<V>>>, i: nat)
    requires Placed(hash, ts) && i <= |ts|
    ensures Distinct(Flat(ts[i..]))
    decreases |ts| - i
  {
    if i < |ts| {
      var rest := Flat(ts[i + 1..]);
      FlatKeysDiffer(hash, ts, i + 1);
      assert ts[i..][1..] == ts[i + 1..];
      hide Slot, Get;
      forall e, f | e in ts[i] && f in rest ensures e.key != f.key {
        FlatMember(ts[i + 1..], f);
        var j :| 0 <= j < |ts[i + 1..]| && f in ts[i + 1..][j];
        assert ts[i + 1..][j] == ts[i + 1 + j];
        GetMember(ts[i], e);
        GetMember(ts[i + 1 + j], f);
        assert Get(ts[i], e.key).Some? && Get(ts[i + 1 + j], f.key).Some?;
        assert Slot(hash, |ts|, e.key) == i && Slot(hash, |ts|, f.key) == i + 1 + j;
      }
      DistinctJoin(ts[i], rest);
    }
  }
}
