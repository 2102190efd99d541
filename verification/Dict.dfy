/** The table itself: linked entries, relinked in place. */
module Dict {
  import opened Wrappers
  import opened Bits
  import opened DictSpec

  const LONG_MAX: nat := 0x7fff_ffff_ffff_ffff
  const MAX_SIZE: nat := 0x8000_0000

  // ---------------------------------------------------------------- linked entries

  class Node<V> {
    const key: Key
    var val: V
    var next: Node?<V>

    constructor (key: Key, val: V, next: Node?<V>)
      ensures this.key == key && this.val == val && this.next == next
    {
      this.key, this.val, this.next := key, val, next;
    }
  }

  function NodeAt<V>(ns: seq<Node<V>>, i: nat): Node?<V> {
    if i < |ns| then ns[i] else null
  }

  /** The nodes are linked one to the next from `head` on, and hold the entries. */
  ghost predicate Chained<V>(head: Node?<V>, ns: seq<Node<V>>, es: seq<Entry<V>>)
    reads ns
  {
    && |ns| == |es| && head == NodeAt(ns, 0)
    && forall i :: 0 <= i < |ns| ==> ns[i].key == es[i].key && ns[i].val == es[i].val && ns[i].next == NodeAt(ns, i + 1)
  }

  lemma ChainedNext<V>(head: Node?<V>, ns: seq<Node<V>>, es: seq<Entry<V>>)
    requires Chained(head, ns, es) && head != null
    ensures |ns| == |es| > 0 && head == ns[0] && head.key == es[0].key && head.val == es[0].val
    ensures Chained(head.next, ns[1..], es[1..])
  {
    var rest := ns[1..];
    assert head.next == NodeAt(rest, 0);
    forall i | 0 <= i < |rest| ensures rest[i].next == NodeAt(rest, i + 1) {
      assert rest[i] == ns[i + 1];
    }
  }

  lemma ChainedFront<V>(n: Node<V>, ns: seq<Node<V>>, e: Entry<V>, es: seq<Entry<V>>)
    requires Chained(n.next, ns, es) && n.key == e.key && n.val == e.val
    ensures Chained(n, [n] + ns, [e] + es)
  {
    var all := [n] + ns;
    forall i | 0 <= i < |all| ensures all[i].next == NodeAt(all, i + 1) {
      if i > 0 {
        assert all[i] == ns[i - 1];
      }
    }
  }

  /** A chain taken apart, and one put together without the node at `i`. */
  lemma ChainedAll<V>(head: Node?<V>, ns: seq<Node<V>>, es: seq<Entry<V>>)
    requires Chained(head, ns, es)
    ensures |ns| == |es| && head == NodeAt(ns, 0)
    ensures forall i :: 0 <= i < |ns| ==> ns[i].key == es[i].key && ns[i].val == es[i].val
    ensures forall i :: 0 <= i < |ns| ==> ns[i].next == NodeAt(ns, i + 1)
  {
  }

  lemma ChainedCut<V>(head: Node?<V>, ns: seq<Node<V>>, es: seq<Entry<V>>, i: nat)
    requires |ns| == |es| && i < |ns| && head == NodeAt(ns, if i == 0 then 1 else 0)
    requires forall j :: 0 <= j < |ns| ==> ns[j].key == es[j].key && ns[j].val == es[j].val
    requires forall j :: 0 <= j < |ns| && j != i - 1 ==> ns[j].next == NodeAt(ns, j + 1)
    requires i > 0 ==> ns[i - 1].next == NodeAt(ns, i + 1)
    ensures Chained(head, CutAt(ns, i), CutAt(es, i))
  {
    var rest := CutAt(ns, i);
    forall j | 0 <= j < |rest| ensures rest[j].next == NodeAt(rest, j + 1) {
      assert rest[j] == ns[if j < i then j else j + 1];
    }
  }

  lemma ChainedSet<V>(head: Node?<V>, ns: seq<Node<V>>, es: seq<Entry<V>>, i: nat)
    requires |ns| == |es| && i < |ns| && head == NodeAt(ns, 0)
    requires forall j :: 0 <= j < |ns| ==> ns[j].key == es[j].key && (j != i ==> ns[j].val == es[j].val)
    requires forall j :: 0 <= j < |ns| ==> ns[j].next == NodeAt(ns, j + 1)
    ensures Chained(head, ns, es[i := Entry(es[i].key, ns[i].val)])
  {
  }

  /** Nodes are told apart by their keys. */
  lemma NotAmong<V>(n: Node<V>, head: Node?<V>, ns: seq<Node<V>>, es: seq<Entry<V>>)
    requires Chained(head, ns, es) && Get(es, n.key).None?
    ensures forall i :: 0 <= i < |ns| ==> ns[i] != n
  {
    GetIsMember(es, n.key);
  }

  lemma NodesDiffer<V>(head: Node?<V>, ns: seq<Node<V>>, es: seq<Entry<V>>)
    requires Chained(head, ns, es) && Distinct(es)
    ensures forall i, j :: 0 <= i < j < |ns| ==> ns[i] != ns[j]
  {
    forall i, j | 0 <= i < j < |ns| ensures ns[i] != ns[j] {
      assert es[i].key != es[j].key;
    }
  }

  /** Every bucket is a chain of known nodes. */
  ghost predicate Buckets<V>(heads: seq<Node?<V>>, cs: seq<seq<Node<V>>>, ts: seq<seq<Entry<V>>>, known: set<Node<V>>)
    reads known
  {
    && |heads| == |cs| == |ts|
    && (forall i, n :: 0 <= i < |cs| && n in cs[i] ==> n in known)
    && forall i :: 0 <= i < |cs| ==> Chained(heads[i], cs[i], ts[i])
  }

  lemma BucketsApart<V>(heads: seq<Node?<V>>, cs: seq<seq<Node<V>>>, ts: seq<seq<Entry<V>>>, known: set<Node<V>>)
    requires Buckets(heads, cs, ts, known)
    ensures |heads| == |cs| == |ts|
    ensures forall i, n :: 0 <= i < |cs| && n in cs[i] ==> n in known
    ensures forall i :: 0 <= i < |cs| ==> Chained(heads[i], cs[i], ts[i])
  {
  }

  lemma BucketsUpdate<V>(heads: seq<Node?<V>>, cs: seq<seq<Node<V>>>, ts: seq<seq<Entry<V>>>, known: set<Node<V>>,
                         h: nat, c: seq<Node<V>>, es: seq<Entry<V>>)
    requires |heads| == |cs| == |ts| && h < |cs| && Chained(heads[h], c, es)
    requires forall i, n :: 0 <= i < |cs| && n in cs[i] ==> n in known
    requires forall n :: n in c ==> n in known
    requires forall i :: 0 <= i < |cs| && i != h ==> Chained(heads[i], cs[i], ts[i])
    ensures Buckets(heads, cs[h := c], ts[h := es], known)
  {
  }

  /** The nodes of different buckets are different. */
  ghost predicate Apart<V>(cs: seq<seq<Node<V>>>) {
    forall i, j, x, y :: 0 <= i < |cs| && 0 <= j < |cs| && i != j && 0 <= x < |cs[i]| && 0 <= y < |cs[j]| ==>
      cs[i][x] != cs[j][y]
  }

  lemma ApartFrom<V>(cs: seq<seq<Node<V>>>, i: nat)
    requires Apart(cs) && i < |cs|
    ensures forall j, a, b :: 0 <= j < |cs| && j != i && 0 <= a < |cs[j]| && 0 <= b < |cs[i]| ==> cs[j][a] != cs[i][b]
  {
  }

  lemma KeyInSlot<V>(hash: Key -> Hash, heads: seq<Node?<V>>, cs: seq<seq<Node<V>>>, ts: seq<seq<Entry<V>>>,
                     known: set<Node<V>>, h: nat, i: nat)
    requires Placed(hash, ts) && Buckets(heads, cs, ts, known) && h < |cs| && i < |cs[h]|
    ensures |ts| > 0 && Slot(hash, |ts|, cs[h][i].key) == h
  {
    assert Chained(heads[h], cs[h], ts[h]);
    GetAt(ts[h], i);
  }

  /** Keys tell buckets apart, and so their nodes. */
  lemma AllApart<V>(hash: Key -> Hash, heads: seq<Node?<V>>, cs: seq<seq<Node<V>>>, ts: seq<seq<Entry<V>>>,
                    known: set<Node<V>>)
    requires Placed(hash, ts) && Buckets(heads, cs, ts, known)
    ensures Apart(cs)
  {
    forall i, j, x, y | 0 <= i < |cs| && 0 <= j < |cs| && i != j && 0 <= x < |cs[i]| && 0 <= y < |cs[j]|
      ensures cs[i][x] != cs[j][y]
    {
      KeyInSlot(hash, heads, cs, ts, known, i, x);
      KeyInSlot(hash, heads, cs, ts, known, j, y);
    }
  }

  /** The buckets from `i` on are chains of known nodes still. */
  ghost predicate ChainedFrom<V>(heads: seq<Node?<V>>, cs: seq<seq<Node<V>>>, ts: seq<seq<Entry<V>>>,
                                 known: set<Node<V>>, i: nat)
    reads known
  {
    && |heads| == |cs| == |ts|
    && (forall j, n :: 0 <= j < |cs| && n in cs[j] ==> n in known)
    && forall j :: i <= j < |cs| ==> Chained(heads[j], cs[j], ts[j])
  }

  lemma ChainedHere<V>(heads: seq<Node?<V>>, cs: seq<seq<Node<V>>>, ts: seq<seq<Entry<V>>>, known: set<Node<V>>, i: nat)
    requires ChainedFrom(heads, cs, ts, known, i) && i < |cs|
    ensures |heads| == |cs| == |ts| && Chained(heads[i], cs[i], ts[i]) && |cs[i]| == |ts[i]|
    ensures forall n :: n in cs[i] ==> n in known
  {
  }

  // ---------------------------------------------------------------- sizes

  lemma MaxSize()
    ensures Pow2(MAX_BITS) == MAX_SIZE
  {
    assert Pow2(8) == 256;
    assert Pow2(16) == 65536;
    assert Pow2(24) == 16777216;
  }

  lemma PowDoubles(a: nat, b: nat)
    requires a < b
    ensures 2 * Pow2(a) <= Pow2(b)
  {
    PowMonotone(a + 1, b);
  }

  lemma SamePower(a: nat, b: nat)
    requires Pow2(a) <= Pow2(b) < 2 * Pow2(a)
    ensures a == b
  {
    if a < b {
      PowDoubles(a, b);
    } else if b < a {
      PowDoubles(b, a);
    }
  }

  /** The least power of two from 4 on that is not below `size`, or the largest number there is. */
  method NextPower(size: nat) returns (i: nat, ghost bits: nat)
    ensures size >= LONG_MAX ==> i == LONG_MAX
    ensures size < LONG_MAX ==> i == Pow2(bits) && bits >= INITIAL_BITS && i >= INITIAL_SIZE && size <= i
    ensures size < LONG_MAX ==> i == INITIAL_SIZE || i < 2 * size
  {
    i, bits := INITIAL_SIZE, INITIAL_BITS;
    if size >= LONG_MAX {
      return LONG_MAX, bits;
    }
    while true
      invariant i == Pow2(bits) && bits >= INITIAL_BITS && i >= INITIAL_SIZE
      invariant i == INITIAL_SIZE || i < 2 * size
      decreases 2 * size - i
    {
      if i >= size {
        return;
      }
      i, bits := i * 2, bits + 1;
    }
  }

  lemma FewBits(bits: nat, size: nat)
    requires size <= MAX_SIZE && (Pow2(bits) == INITIAL_SIZE || Pow2(bits) < 2 * size)
    ensures bits <= MAX_BITS
  {
    MaxSize();
    if bits > MAX_BITS {
      PowDoubles(MAX_BITS, bits);
    }
  }

  /** The number of buckets once there is room for one more entry. */
  function Roomy(size: nat, used: nat): (r: nat)
    ensures used < size ==> r == size
    ensures used == size ==> used < r && r == if size == 0 then 4 else 2 * size
  {
    if size == 0 then INITIAL_SIZE else if used == size then 2 * size else size
  }

  // ---------------------------------------------------------------- the table

  // What a table holds: the nodes of each bucket in order, what they hold, the nodes there
  // ever were, the number of bits of the size, and the map it stands for.
  datatype Contents<V> = Contents(chains: seq<seq<Node<V>>>, entries: seq<seq<Entry<V>>>, nodes: set<Node<V>>,
                                  bits: nat, m: map<Key, V>)

  ghost predicate Whole<V>(hash: Key -> Hash, c: Contents<V>, size: nat, sizemask: nat, used: nat) {
    Sound(hash, c.entries, size, sizemask, used, c.bits, c.m) && |c.chains| == |c.entries|
  }

  /** There is an entry `i` in bucket `h`. */
  ghost predicate Has<V>(c: Contents<V>, h: nat, i: nat) {
    h < |c.chains| == |c.entries| && i < |c.chains[h]| == |c.entries[h]|
  }

  ghost function Unlinked<V>(c: Contents<V>, h: nat, i: nat): Contents<V>
    requires Has(c, h, i)
  {
    c.(chains := c.chains[h := CutAt(c.chains[h], i)], entries := c.entries[h := CutAt(c.entries[h], i)],
       m := c.m - {c.entries[h][i].key})
  }

  ghost function Overwritten<V>(c: Contents<V>, h: nat, i: nat, v: V): Contents<V>
    requires Has(c, h, i)
  {
    var k := c.entries[h][i].key;
    c.(entries := c.entries[h := c.entries[h][i := Entry(k, v)]], m := c.m[k := v])
  }

  ghost function LinkedIn<V>(c: Contents<V>, h: nat, n: Node<V>, e: Entry<V>): Contents<V>
    requires h < |c.chains| == |c.entries|
  {
    c.(chains := c.chains[h := [n] + c.chains[h]], entries := c.entries[h := [e] + c.entries[h]],
       nodes := c.nodes + {n}, m := c.m[e.key := e.val])
  }

  lemma WholeUnlinked<V>(hash: Key -> Hash, c: Contents<V>, size: nat, sizemask: nat, used: nat, h: nat, i: nat)
    requires Whole(hash, c, size, sizemask, used) && Has(c, h, i)
    ensures used > 0 && Whole(hash, Unlinked(c, h, i), size, sizemask, used - 1)
  {
    DeleteSound(hash, c.entries, size, sizemask, used, c.bits, c.m, h, i);
    hide Sound;
  }

  lemma WholeOverwritten<V>(hash: Key -> Hash, c: Contents<V>, size: nat, sizemask: nat, used: nat,
                            h: nat, i: nat, v: V)
    requires Whole(hash, c, size, sizemask, used) && Has(c, h, i)
    ensures Whole(hash, Overwritten(c, h, i, v), size, sizemask, used)
  {
    ReplaceSound(hash, c.entries, size, sizemask, used, c.bits, c.m, h, i, v);
    hide Sound;
  }

  lemma WholeLinkedIn<V>(hash: Key -> Hash, c: Contents<V>, size: nat, sizemask: nat, used: nat,
                         n: Node<V>, e: Entry<V>)
    requires Whole(hash, c, size, sizemask, used) && used < size && e.key !in c.m
    ensures var h := Slot(hash, size, e.key);
            h < |c.chains| && Whole(hash, LinkedIn(c, h, n, e), size, sizemask, used + 1)
  {
    AddSound(hash, c.entries, size, sizemask, used, c.bits, c.m, e);
    hide Sound;
  }

  /** Between entries: `ns` and what they hold, `es`, are left of bucket `i`; `n` is the new table so far. */
  ghost predicate Underway<V>(hash: Key -> Hash, c: Contents<V>, i: nat, ns: seq<Node<V>>, es: seq<Entry<V>>,
                              n: Contents<V>, used: nat, nUsed: nat)
  {
    && i < |c.chains| == |c.entries| && |ns| == |es| && (forall x :: x in ns ==> x in c.chains[i])
    && Moving(hash, c.entries, i, es, n.entries, c.m, used, nUsed) && nUsed <= |n.entries|
    && |n.entries| == |n.chains| == Pow2(n.bits) && INITIAL_BITS <= n.bits <= MAX_BITS
  }

  ghost function EntryMoved<V>(n: Contents<V>, h: nat, first: Node<V>, e: Entry<V>): (r: Contents<V>)
    requires h < |n.chains| == |n.entries|
    ensures r.bits == n.bits && |r.entries| == |n.entries|
    ensures r.chains == n.chains[h := [first] + n.chains[h]] && r.entries == n.entries[h := [e] + n.entries[h]]
  {
    n.(chains := n.chains[h := [first] + n.chains[h]], entries := n.entries[h := [e] + n.entries[h]])
  }

  lemma UnderwayStep<V>(hash: Key -> Hash, c: Contents<V>, i: nat, ns: seq<Node<V>>, es: seq<Entry<V>>,
                        n: Contents<V>, used: nat, nUsed: nat)
    requires |es| > 0 && Underway(hash, c, i, ns, es, n, used, nUsed)
    ensures i < |c.chains| && |ns| > 0 && ns[0] in c.chains[i] && used > 0
    ensures Get(es[1..], es[0].key).None?
    ensures forall x :: 0 <= x < |n.entries| ==> Get(n.entries[x], es[0].key).None?
    ensures var h := And(64, hash(es[0].key), |n.entries| - 1);
            && h < |n.chains| == |n.entries|
            && Underway(hash, c, i, ns[1..], es[1..], EntryMoved(n, h, ns[0], es[0]), used - 1, nUsed)
  {
    SlotInRange(hash, n.bits, es[0].key);
    NextIsAlone(hash, c.entries, i, es, n.entries, c.m, used, nUsed);
    MoveOne(hash, c.entries, i, es, n.entries, c.m, used, nUsed);
    hide Moving, Pow2, Get;
  }

  /** Between buckets: the first `i` are empty now; `n` is the new table so far. */
  ghost predicate Halfway<V>(hash: Key -> Hash, c: Contents<V>, i: nat, n: Contents<V>, used: nat, nUsed: nat) {
    && Between(hash, c.entries, i, n.entries, c.m, used, nUsed) && nUsed <= |n.entries|
    && |n.entries| == |n.chains| == Pow2(n.bits) && INITIAL_BITS <= n.bits <= MAX_BITS
  }

  ghost predicate Starting<V>(hash: Key -> Hash, c: Contents<V>, n: Contents<V>, used: nat) {
    Halfway(hash, c, 0, n, used, used)
  }

  lemma StartingMeans<V>(hash: Key -> Hash, c: Contents<V>, n: Contents<V>, used: nat)
    requires Starting(hash, c, n, used)
    ensures Halfway(hash, c, 0, n, used, used)
  {
  }

  lemma BucketStarts<V>(hash: Key -> Hash, c: Contents<V>, i: nat, n: Contents<V>, used: nat, nUsed: nat)
    requires i < |c.chains| == |c.entries| && |c.chains[i]| == |c.entries[i]|
    requires Halfway(hash, c, i, n, used, nUsed)
    ensures Underway(hash, c, i, c.chains[i], c.entries[i], n, used, nUsed)
  {
    NextBucket(hash, c.entries, i, n.entries, c.m, used, nUsed);
  }

  lemma BucketEnds<V>(hash: Key -> Hash, c: Contents<V>, i: nat, n: Contents<V>, used: nat, nUsed: nat)
    requires Underway(hash, c, i, [], [], n, used, nUsed)
    ensures Halfway(hash, c, i + 1, n, used, nUsed)
  {
    BucketDone(hash, c.entries, i, n.entries, c.m, used, nUsed);
  }

  lemma WholeMoved<V>(hash: Key -> Hash, c: Contents<V>, i: nat, n: Contents<V>, used: nat, nUsed: nat)
    requires Halfway(hash, c, i, n, used, nUsed) && (i == |c.entries| || used == 0)
    ensures used == 0 && |n.entries| > 0
    ensures Whole(hash, n.(nodes := c.nodes, m := c.m), |n.entries|, |n.entries| - 1, nUsed)
  {
    AllMoved(hash, c.entries, i, n.entries, n.bits, c.m, used, nUsed);
  }

  ghost function NoContents<V>(size: nat, nodes: set<Node<V>>, bits: nat, m: map<Key, V>): (c: Contents<V>)
    ensures |c.chains| == |c.entries| == size && c.nodes == nodes && c.bits == bits && c.m == m
    ensures forall i :: 0 <= i < size ==> c.chains[i] == [] && c.entries[i] == []
  {
    Contents(seq(size, _ => []), seq(size, _ => []), nodes, bits, m)
  }

  lemma EmptyBuckets<V>(heads: seq<Node?<V>>, cs: seq<seq<Node<V>>>, ts: seq<seq<Entry<V>>>, known: set<Node<V>>)
    requires |heads| == |cs| == |ts|
    requires forall i :: 0 <= i < |heads| ==> heads[i] == null && cs[i] == [] && ts[i] == []
    ensures Buckets(heads, cs, ts, known)
  {
  }

  lemma Without<V>(m: map<Key, V>, key: Key)
    ensures key !in m ==> m - {key} == m
  {
  }

  class Dict<V> {
    const hash: Key -> Hash
    var table: array<Node?<V>>
    var size: nat
    var sizemask: nat
    var used: nat
    ghost var now: Contents<V>

    ghost predicate Valid()
      reads this, table, now.nodes
    {
      Whole(hash, now, size, sizemask, used) && Buckets(table[..], now.chains, now.entries, now.nodes)
    }

    constructor (hash: Key -> Hash)
      ensures Valid() && now.m == map[] && fresh(table) && this.hash == hash && size == 0 && now.nodes == {}
    {
      this.hash := hash;
      table := new Node?<V>[0](_ => null);
      size, sizemask, used := 0, 0, 0;
      now := Contents([], [], {}, 0, map[]);
    }

    /** What Valid says about sizes. */
    lemma Shape()
      requires Valid()
      ensures table.Length == size == |now.entries| == |now.chains| && used <= size && used == |now.m|
      ensures size > 0 ==> size == Pow2(now.bits) && INITIAL_BITS <= now.bits <= MAX_BITS && sizemask == size - 1
    {
    }

    lemma Bucket(h: nat)
      requires Valid() && h < size
      ensures table.Length == size == |now.entries| == |now.chains|
      ensures Chained(table[h], now.chains[h], now.entries[h]) && Distinct(now.entries[h])
      ensures forall n :: n in now.chains[h] ==> n in now.nodes
      ensures Apart(now.chains)
      ensures forall i, j :: 0 <= i < j < |now.chains[h]| ==> now.chains[h][i] != now.chains[h][j]
    {
      assert table[h] == table[..][h];
      NodesDiffer(table[h], now.chains[h], now.entries[h]);
      AllApart(hash, table[..], now.chains, now.entries, now.nodes);
    }

    lemma Parts()
      requires Valid()
      ensures Whole(hash, now, size, sizemask, used) && Buckets(table[..], now.chains, now.entries, now.nodes)
    {
    }

    /** Where a key is looked for. */
    lemma Place(key: Key)
      requires Valid()
      ensures size == 0 ==> key !in now.m
      ensures size > 0 ==>
                && Slot(hash, size, key) == And(64, hash(key), sizemask) < size == |now.chains| == |now.entries|
                && Get(now.entries[Slot(hash, size, key)], key) == InMap(now.m, key)
    {
      LookUp(hash, now.entries, size, sizemask, used, now.bits, now.m, key);
    }

    /** The entry of a key, and where it is linked. */
    method Find(key: Key) returns (he: Node?<V>, ghost h: nat, ghost i: nat)
      requires Valid()
      ensures he == null <==> key !in now.m
      ensures he != null ==>
                && he.key == key && he.val == now.m[key] && h == Slot(hash, size, key) && Has(now, h, i)
                && now.chains[h][i] == he && now.entries[h][i] == Entry(key, now.m[key])
    {
      Shape();
      Place(key);
      h, i := 0, 0;
      if size == 0 {
        return null, 0, 0;
      }
      h := Slot(hash, size, key);
      Bucket(h);
      hide Valid, Distinct, Slot;
      var at := And(64, hash(key), sizemask);
      he := table[at];
      while he != null
        invariant i <= |now.chains[h]| == |now.entries[h]| && he == NodeAt(now.chains[h], i)
        invariant Get(now.entries[h][i..], key) == InMap(now.m, key)
        decreases |now.chains[h]| - i
      {
        if he.key == key {
          return;
        }
        assert now.entries[h][i..][1..] == now.entries[h][i + 1..];
        he, i := he.next, i + 1;
      }
    }

    /** The entry before `i` of a bucket comes to point past it. */
    method BypassInner(prevde: Node<V>, next: Node?<V>, ghost at: nat, ghost i: nat)
      requires Valid() && at < size && 0 < i && Has(now, at, i)
      requires prevde == now.chains[at][i - 1] && next == NodeAt(now.chains[at], i + 1)
      modifies prevde`next
      ensures var c := Unlinked(now, at, i); Buckets(table[..], c.chains, c.entries, c.nodes)
    {
      hide Whole, Distinct, Apart;
      Bucket(at);
      ghost var cs, ts := now.chains, now.entries;
      ChainedAll(table[at], cs[at], ts[at]);
      BucketsApart(table[..], cs, ts, now.nodes);
      ApartFrom(cs, at);
      prevde.next := next;
      ChainedCut(table[at], cs[at], ts[at], i);
      forall j | 0 <= j < |cs| && j != at ensures Chained(table[j], cs[j], ts[j]) {
        assert forall a :: 0 <= a < |cs[j]| ==> cs[j][a] != prevde;
      }
      BucketsUpdate(table[..], cs, ts, now.nodes, at, CutAt(cs[at], i), CutAt(ts[at], i));
    }

    /** A bucket comes to begin with its second entry. */
    method BypassFirst(at: nat, next: Node?<V>)
      requires Valid() && at < size && Has(now, at, 0) && next == NodeAt(now.chains[at], 1)
      modifies table
      ensures var c := Unlinked(now, at, 0); Buckets(table[..], c.chains, c.entries, c.nodes)
    {
      hide Whole, Distinct, Apart;
      Bucket(at);
      ghost var cs, ts := now.chains, now.entries;
      ChainedAll(table[at], cs[at], ts[at]);
      BucketsApart(table[..], cs, ts, now.nodes);
      table[at] := next;
      ChainedCut(table[at], cs[at], ts[at], 0);
      BucketsUpdate(table[..], cs, ts, now.nodes, at, CutAt(cs[at], 0), CutAt(ts[at], 0));
    }

    /** An entry of a bucket is linked to the next and holds the value of its key. */
    lemma Linked(h: nat, i: nat)
      requires Valid() && h < size && h < |now.chains| && i < |now.chains[h]|
      ensures Has(now, h, i) && now.chains[h][i].next == NodeAt(now.chains[h], i + 1)
      ensures var n := now.chains[h][i];
              && n in now.nodes && h == Slot(hash, size, n.key)
              && n.key in now.m && now.m[n.key] == n.val && now.entries[h][i] == Entry(n.key, n.val)
    {
      Bucket(h);
      GetAt(now.entries[h], i);
      KeyInSlot(hash, table[..], now.chains, now.entries, now.nodes, h, i);
      Place(now.chains[h][i].key);
    }

    lemma NextOf(h: nat, i: nat)
      requires Valid() && h < size && Has(now, h, i)
      ensures now.chains[h][i].next == NodeAt(now.chains[h], i + 1)
    {
      Bucket(h);
    }

    /** Takes the entry at `i` of a bucket out of the table, given the entry before it. */
    method Unlink(at: nat, de: Node<V>, prevde: Node?<V>, ghost i: nat)
      requires Valid() && at < size && Has(now, at, i)
      requires de == now.chains[at][i] && prevde == if i == 0 then null else now.chains[at][i - 1]
      modifies this`used, this`now, table, now.nodes`next
      ensures Valid() && now == Unlinked(old(now), at, i)
    {
      hide Whole, Unlinked, CutAt, Distinct, Apart, Chained, Placed;
      WholeUnlinked(hash, now, size, sizemask, used, at, i);
      NextOf(at, i);
      if prevde != null {
        BypassInner(prevde, de.next, at, i);
      } else {
        BypassFirst(at, de.next);
      }
      used := used - 1;
      now := Unlinked(now, at, i);
    }

    /** Unlinks the entry of a key. */
    method Delete(key: Key) returns (ok: bool, ghost h: nat, ghost i: nat)
      requires Valid()
      modifies this`used, this`now, table, now.nodes`next
      ensures Valid() && ok == (key in old(now).m) && now.m == old(now).m - {key}
      ensures ok ==> Has(old(now), h, i) && h == Slot(hash, size, key) && old(now).entries[h][i].key == key
      ensures now == if ok then Unlinked(old(now), h, i) else old(now)
    {
      Shape();
      Place(key);
      Without(now.m, key);
      h, i := 0, 0;
      if size == 0 {
        return false, 0, 0;
      }
      h := Slot(hash, size, key);
      Bucket(h);
      ChainedAll(table[h], now.chains[h], now.entries[h]);
      hide Whole, Distinct, Slot, Buckets, Chained, Valid;
      var at := And(64, hash(key), sizemask);
      var de, prevde := table[at], null;
      while de != null
        invariant i <= |now.chains[h]| == |now.entries[h]| && de == NodeAt(now.chains[h], i)
        invariant prevde == if i == 0 then null else now.chains[h][i - 1]
        invariant Get(now.entries[h][i..], key) == InMap(now.m, key)
        decreases |now.chains[h]| - i
      {
        if de.key == key {
          break;
        }
        assert now.entries[h][i..][1..] == now.entries[h][i + 1..];
        prevde, de, i := de, de.next, i + 1;
      }
      if de == null {
        return false, h, i;
      }
      Unlink(at, de, prevde, i);
      return true, h, i;
    }

    /** Writes a value into the entry at `i` of a bucket. */
    method Overwrite(he: Node<V>, val: V, ghost h: nat, ghost i: nat)
      requires Valid() && Has(now, h, i) && he == now.chains[h][i]
      modifies this`now, now.nodes`val
      ensures Valid() && now == Overwritten(old(now), h, i, val)
    {
      Shape();
      Bucket(h);
      ghost var c, es := now.chains[h], now.entries[h];
      ChainedAll(table[h], c, es);
      BucketsApart(table[..], now.chains, now.entries, now.nodes);
      WholeOverwritten(hash, now, size, sizemask, used, h, i, val);
      ApartFrom(now.chains, h);
      he.val := val;
      ChainedSet(table[h], c, es, i);
      BucketsUpdate(table[..], now.chains, now.entries, now.nodes, h, c, es[i := Entry(es[i].key, val)]);
      assert now.chains[h := c] == now.chains;
      now := Overwritten(now, h, i, val);
    }

    /** The first entry of an old chain becomes the first of its new one. */
    method MoveEntry(he: Node<V>, nTable: array<Node?<V>>, h: nat, ghost ns: seq<Node<V>>, ghost es: seq<Entry<V>>,
                     ghost cs: seq<seq<Node<V>>>, ghost ts: seq<seq<Entry<V>>>, ghost known: set<Node<V>>)
      returns (nextHe: Node?<V>)
      requires Chained(he, ns, es) && Buckets(nTable[..], cs, ts, known) && he in known && h < nTable.Length
      requires |es| > 0 && Get(es[1..], es[0].key).None?
      requires forall x :: 0 <= x < |ts| ==> Get(ts[x], es[0].key).None?
      modifies he`next, nTable
      ensures |ns| > 0 && Chained(nextHe, ns[1..], es[1..])
      ensures h < |cs| == |ts| && Buckets(nTable[..], cs[h := [he] + cs[h]], ts[h := [es[0]] + ts[h]], known)
    {
      ChainedNext(he, ns, es);
      BucketsApart(nTable[..], cs, ts, known);
      NotAmong(he, he.next, ns[1..], es[1..]);
      forall x | 0 <= x < |cs| ensures forall j :: 0 <= j < |cs[x]| ==> cs[x][j] != he {
        NotAmong(he, nTable[x], cs[x], ts[x]);
      }
      hide Chained, Buckets, Get;
      nextHe := he.next;
      he.next := nTable[h];
      nTable[h] := he;
      ChainedFront(he, cs[h], es[0], ts[h]);
      BucketsUpdate(nTable[..], cs, ts, known, h, [he] + cs[h], [es[0]] + ts[h]);
    }

    /** Relinks the entries of one bucket into the new table. */
    method MoveBucket(i: nat, nTable: array<Node?<V>>, ghost n0: Contents<V>, ghost nUsed: nat)
      returns (ghost n: Contents<V>)
      requires i < |now.chains| == |now.entries| == table.Length && nTable != table
      requires Chained(table[i], now.chains[i], now.entries[i]) && forall x :: x in now.chains[i] ==> x in now.nodes
      requires nTable.Length == |n0.entries|
      requires Underway(hash, now, i, now.chains[i], now.entries[i], n0, used, nUsed)
      requires Buckets(nTable[..], n0.chains, n0.entries, now.nodes)
      modifies this`used, nTable, now.chains[i]`next
      ensures Underway(hash, now, i, [], [], n, used, nUsed) && n.bits == n0.bits && |n.entries| == nTable.Length
      ensures Buckets(nTable[..], n.chains, n.entries, now.nodes)
    {
      hide Underway, Buckets, Chained, Slot, Get, EntryMoved;
      n := n0;
      var he := table[i];
      ghost var c, ns, es := now, now.chains[i], now.entries[i];
      while he != null
        invariant Chained(he, ns, es) && Buckets(nTable[..], n.chains, n.entries, c.nodes)
        invariant Underway(hash, c, i, ns, es, n, used, nUsed)
        invariant now == c && n.bits == n0.bits && |n.entries| == nTable.Length
        decreases |ns|
      {
        ChainedNext(he, ns, es);
        UnderwayStep(hash, c, i, ns, es, n, used, nUsed);
        var h := And(64, hash(he.key), nTable.Length - 1);
        ghost var first: Node<V> := he;
        assert he in now.chains[i];
        he := MoveEntry(he, nTable, h, ns, es, n.chains, n.entries, c.nodes);
        n := EntryMoved(n, h, first, es[0]);
        used := used - 1;
        ns, es := ns[1..], es[1..];
      }
      ChainedAll(he, ns, es);
    }

    method MoveNext(i: nat, nTable: array<Node?<V>>, ghost n0: Contents<V>, ghost nUsed: nat)
      returns (ghost n: Contents<V>)
      requires i < |now.chains| == |now.entries| == table.Length && nTable != table && Apart(now.chains)
      requires ChainedFrom(table[..], now.chains, now.entries, now.nodes, i)
      requires Halfway(hash, now, i, n0, used, nUsed) && nTable.Length == |n0.entries|
      requires Buckets(nTable[..], n0.chains, n0.entries, now.nodes)
      modifies this`used, nTable, now.chains[i]`next
      ensures Halfway(hash, now, i + 1, n, used, nUsed) && n.bits == n0.bits && |n.entries| == nTable.Length
      ensures Buckets(nTable[..], n.chains, n.entries, now.nodes)
      ensures ChainedFrom(table[..], now.chains, now.entries, now.nodes, i + 1)
    {
      hide Halfway, Underway, Buckets, Apart, Get;
      ghost var heads, cs, ts := table[..], now.chains, now.entries;
      BucketStarts(hash, now, i, n0, used, nUsed);
      ApartFrom(cs, i);
      n := MoveBucket(i, nTable, n0, nUsed);
      BucketEnds(hash, now, i, n, used, nUsed);
      forall j | i < j < |cs| ensures Chained(heads[j], cs[j], ts[j]) {
        assert forall a, b :: 0 <= a < |cs[j]| && 0 <= b < |cs[i]| ==> cs[j][a] != cs[i][b];
      }
      assert table[..] == heads;
    }

    /** Bucket by bucket, until no entry is left. */
    method MoveBuckets(nTable: array<Node?<V>>, ghost n0: Contents<V>) returns (ghost n: Contents<V>)
      requires nTable != table && table.Length == size == |now.chains| == |now.entries| && Apart(now.chains)
      requires ChainedFrom(table[..], now.chains, now.entries, now.nodes, 0)
      requires Starting(hash, now, n0, used) && |n0.entries| == nTable.Length
      requires Buckets(nTable[..], n0.chains, n0.entries, now.nodes)
      modifies this`used, nTable, now.nodes`next
      ensures used == 0 && n.m == now.m && n.nodes == now.nodes && |n.entries| == nTable.Length > 0
      ensures Whole(hash, n, nTable.Length, nTable.Length - 1, old(used)) && n.bits == n0.bits
      ensures Buckets(nTable[..], n.chains, n.entries, n.nodes)
    {
      hide Whole, Buckets, Between, Pow2, Apart, Starting, Halfway, ChainedFrom;
      ghost var c, nUsed := now, used;
      n := n0;
      var i := 0;
      StartingMeans(hash, c, n, used);
      while i < size && used > 0
        invariant i <= size == |c.chains| == |c.entries| == table.Length && now == c
        invariant ChainedFrom(table[..], c.chains, c.entries, c.nodes, i)
        invariant Halfway(hash, c, i, n, used, nUsed) && Buckets(nTable[..], n.chains, n.entries, c.nodes)
        invariant n.bits == n0.bits && |n.entries| == nTable.Length
        decreases size - i
      {
        ChainedHere(table[..], c.chains, c.entries, c.nodes, i);
        n := MoveNext(i, nTable, n, nUsed);
        i := i + 1;
      }
      WholeMoved(hash, c, i, n, used, nUsed);
      n := n.(nodes := c.nodes, m := c.m);
    }

    /** Relinks all entries into the new table; the old one is of no use then. */
    method MoveAll(nTable: array<Node?<V>>, ghost bits: nat) returns (ghost n: Contents<V>)
      requires Valid() && nTable != table && (forall k :: 0 <= k < nTable.Length ==> nTable[k] == null)
      requires nTable.Length == Pow2(bits) && INITIAL_BITS <= bits <= MAX_BITS && used <= nTable.Length
      modifies this`used, nTable, now.nodes`next
      ensures used == 0 && n.m == now.m && n.nodes == now.nodes && nTable.Length > 0
      ensures Whole(hash, n, nTable.Length, nTable.Length - 1, old(used)) && n.bits == bits
      ensures Buckets(nTable[..], n.chains, n.entries, n.nodes)
    {
      Shape();
      Parts();
      n := NoContents(nTable.Length, now.nodes, bits, now.m);
      NothingMoved(hash, now.entries, size, sizemask, used, now.bits, n.entries, now.m);
      EmptyBuckets(nTable[..], n.chains, n.entries, n.nodes);
      BucketsApart(table[..], now.chains, now.entries, now.nodes);
      AllApart(hash, table[..], now.chains, now.entries, now.nodes);
      hide Whole, Buckets, Chained, Between, Apart, NoContents;
      n := MoveBuckets(nTable, n);
    }

    /** Moves every entry into a new bucket array, relinking the chains. */
    method Expand(newSize: nat) returns (ok: bool)
      requires Valid() && newSize <= MAX_SIZE
      modifies this, now.nodes`next
      ensures Valid() && now.m == old(now).m && now.nodes == old(now).nodes
      ensures used == old(used) && ok == (used <= newSize)
      ensures !ok ==> unchanged(this)
      ensures ok ==> newSize <= size && (size == INITIAL_SIZE || size < 2 * newSize) && size > 0 && fresh(table)
    {
      hide Whole, Buckets, Pow2;
      var realsize, realbits := NextPower(newSize);
      FewBits(realbits, newSize);
      if used > newSize {
        return false;
      }
      var nTable := new Node?<V>[realsize](_ => null);
      var nUsed := used;
      ghost var n := MoveAll(nTable, realbits);
      assert used == 0;
      table, size, sizemask, used, now := nTable, realsize, realsize - 1, nUsed, n;
      return true;
    }

    /** Creates the first buckets, or doubles them when there are as many entries as buckets. */
    method ExpandIfNeeded() returns (ok: bool)
      requires Valid() && used < MAX_SIZE
      modifies this, now.nodes`next
      ensures Valid() && ok && now.m == old(now).m && now.nodes == old(now).nodes && used == old(used) < size
      ensures size == Roomy(old(size), old(used)) && (if size == old(size) then unchanged(this) else fresh(table))
    {
      hide Buckets;
      MaxSize();
      Shape();
      if size == 0 {
        ok := Expand(INITIAL_SIZE);
        Shape();
        SamePower(INITIAL_BITS, now.bits);
      } else if used == size {
        if now.bits < MAX_BITS {
          PowMonotone(now.bits + 1, MAX_BITS);
        }
        ghost var twice := now.bits + 1;
        ok := Expand(size * 2);
        Shape();
        SamePower(twice, now.bits);
      } else {
        ok := true;
      }
    }

    /** The bucket a new key goes to, or -1 if the key is there already. */
    method KeyIndex(key: Key) returns (index: int)
      requires Valid() && used < MAX_SIZE
      modifies this, now.nodes`next
      ensures Valid() && now.m == old(now).m && now.nodes == old(now).nodes && used == old(used) < size
      ensures size == Roomy(old(size), old(used)) && (if size == old(size) then unchanged(this) else fresh(table))
      ensures index == if key in now.m then -1 else Slot(hash, size, key)
    {
      hide Whole, Buckets, Slot;
      var ok := ExpandIfNeeded();
      if !ok {
        return -1;
      }
      Place(key);
      var h := And(64, hash(key), sizemask);
      Bucket(h);
      var he := table[h];
      ghost var i := 0;
      while he != null
        invariant i <= |now.chains[h]| == |now.entries[h]| && he == NodeAt(now.chains[h], i)
        invariant Get(now.entries[h][i..], key) == InMap(now.m, key)
        decreases |now.chains[h]| - i
      {
        if he.key == key {
          return -1;
        }
        assert now.entries[h][i..][1..] == now.entries[h][i + 1..];
        he, i := he.next, i + 1;
      }
      return h;
    }

    /** Lets a bucket begin with a new entry. */
    method PutFirst(entry: Node<V>, index: nat)
      requires Valid() && index < size && entry !in now.nodes && entry.next == table[index]
      modifies table
      ensures index < |now.chains| == |now.entries|
      ensures var c := LinkedIn(now, index, entry, Entry(entry.key, entry.val));
              Buckets(table[..], c.chains, c.entries, c.nodes)
    {
      hide Whole, Distinct, Get, Apart;
      Bucket(index);
      ghost var c, e := now, Entry(entry.key, entry.val);
      BucketsApart(table[..], c.chains, c.entries, c.nodes);
      ChainedFront(entry, c.chains[index], e, c.entries[index]);
      table[index] := entry;
      BucketsUpdate(table[..], c.chains, c.entries, c.nodes + {entry}, index, [entry] + c.chains[index],
                    [e] + c.entries[index]);
    }

    /** A new entry at the front of its bucket. */
    method Insert(key: Key, val: V, index: nat)
      requires Valid() && used < size && key !in now.m && index == Slot(hash, size, key) < size
      modifies this`used, this`now, table
      ensures Valid() && now.m == old(now).m[key := val] && fresh(now.nodes - old(now).nodes)
    {
      hide Whole, Slot;
      Shape();
      var entry := new Node<V>(key, val, table[index]);
      WholeLinkedIn(hash, now, size, sizemask, used, entry, Entry(key, val));
      PutFirst(entry, index);
      used := used + 1;
      now := LinkedIn(now, index, entry, Entry(key, val));
    }

    method Add(key: Key, val: V) returns (ok: bool)
      requires Valid() && used < MAX_SIZE
      modifies this, table, now.nodes`next
      ensures Valid() && ok == (key !in old(now).m) && fresh(now.nodes - old(now).nodes)
      ensures size == Roomy(old(size), old(used)) && (table == old(table) || fresh(table))
      ensures now.m == if ok then old(now).m[key := val] else old(now).m
    {
      hide Whole, Buckets, Slot;
      var index := KeyIndex(key);
      if index == -1 {
        return false;
      }
      Place(key);
      Insert(key, val, index);
      return true;
    }

    /** Adds a key, or overwrites its value; tells whether the key is new. */
    method Replace(key: Key, val: V) returns (added: bool)
      requires Valid() && used < MAX_SIZE
      modifies this, table, now.nodes
      ensures Valid() && added == (key !in old(now).m) && now.m == old(now).m[key := val]
      ensures size == Roomy(old(size), old(used)) && (table == old(table) || fresh(table))
      ensures fresh(now.nodes - old(now).nodes)
    {
      hide Whole, Buckets, Slot;
      added := Add(key, val);
      if added {
        return;
      }
      var entry, h, i := Find(key);
      Overwrite(entry, val, h, i);
    }
  }

  // ---------------------------------------------------------------- iteration

  /** The entries that come after the first `pos` of bucket `i`; before the first bucket `i` is -1. */
  ghost function Coming<V>(ts: seq<seq<Entry<V>>>, i: int, pos: nat): seq<Entry<V>>
    requires -1 <= i && (0 <= i < |ts| ==> pos <= |ts[i]|)
  {
    (if 0 <= i < |ts| then ts[i][pos..] else []) + (if i + 1 < |ts| then Flat(ts[i + 1..]) else [])
  }

  lemma ComingFirst<V>(ts: seq<seq<Entry<V>>>)
    ensures Coming(ts, -1, 0) == Flat(ts)
  {
    assert ts[0..] == ts;
  }

  lemma ComingNext<V>(ts: seq<seq<Entry<V>>>, i: int, pos: nat)
    requires 0 <= i < |ts| && pos < |ts[i]|
    ensures Coming(ts, i, pos) == [ts[i][pos]] + Coming(ts, i, pos + 1)
  {
    assert ts[i][pos..] == [ts[i][pos]] + ts[i][pos + 1..];
    var behind := if i + 1 < |ts| then Flat(ts[i + 1..]) else [];
    Regroup([ts[i][pos]], ts[i][pos + 1..], behind);
  }

  lemma FlatFrom<V>(ts: seq<seq<Entry<V>>>, i: nat)
    requires i < |ts|
    ensures Flat(ts[i..]) == ts[i][0..] + (if i + 1 < |ts| then Flat(ts[i + 1..]) else [])
  {
    assert ts[i..][1..] == ts[i + 1..] && ts[i][0..] == ts[i];
  }

  lemma ComingNextBucket<V>(ts: seq<seq<Entry<V>>>, i: int, pos: nat)
    requires -1 <= i && (0 <= i < |ts| ==> pos == |ts[i]|)
    ensures Coming(ts, i, pos) == Coming(ts, i + 1, 0)
  {
    hide Flat;
    if i + 1 < |ts| {
      FlatFrom(ts, i + 1);
    }
  }

  lemma ComingEnd<V>(ts: seq<seq<Entry<V>>>, i: int, pos: nat)
    requires i >= |ts|
    ensures Coming(ts, i, pos) == []
  {
  }

  /** A key is at one place only. */
  lemma SamePlace<V>(hash: Key -> Hash, size: nat, c: Contents<V>, h: nat, i: nat, h': nat, i': nat)
    requires Has(c, h, i) && Has(c, h', i') && c.entries[h][i].key == c.entries[h'][i'].key && size == |c.entries|
    requires h == Slot(hash, size, c.entries[h][i].key) && h' == Slot(hash, size, c.entries[h'][i'].key)
    requires Distinct(c.entries[h])
    ensures h == h' && i == i'
  {
  }

  /** Without the entry before the place reached, the same entries follow. */
  lemma AfterUnlinked<V>(c: Contents<V>, h: nat, i: nat)
    requires Has(c, h, i)
    ensures var r := Unlinked(c, h, i);
            && |r.chains| == |c.chains| == |r.entries| && h < |r.chains|
            && |r.chains[h]| == |r.entries[h]| == |c.chains[h]| - 1 && r.nodes == c.nodes
            && NodeAt(r.chains[h], i) == NodeAt(c.chains[h], i + 1)
            && Coming(r.entries, h, i) == Coming(c.entries, h, i + 1)
  {
    var r := Unlinked(c, h, i);
    assert CutAt(c.entries[h], i)[i..] == c.entries[h][i + 1..];
    assert r.entries[h + 1..] == c.entries[h + 1..];
  }

  /**
    Walks the buckets.  The link to the next entry is saved before an entry is handed out,
    so that the caller may delete that one.
   */
  class DictIterator<V> {
    const ht: Dict<V>
    var index: int
    var entry: Node?<V>
    var nextEntry: Node?<V>
    ghost var pos: nat    // how many entries of the bucket are behind

    /** The saved link leads to the entry at the place reached, which is linked in the table. */
    ghost predicate Ready()
      reads this, ht, ht.table, ht.now.nodes
    {
      ht.Valid() && Reached(ht.now)
    }

    ghost predicate Reached(c: Contents<V>)
      reads this
    {
      && -1 <= index && |c.chains| == |c.entries| && (entry != null ==> 0 <= index < |c.chains|)
      && (0 <= index < |c.chains| ==>
            && pos <= |c.chains[index]| == |c.entries[index]|
            && if entry == null then pos == |c.entries[index]| else nextEntry == NodeAt(c.chains[index], pos))
    }

    /** The entries still to be handed out. */
    ghost function Future(): seq<Entry<V>>
      reads this, ht, ht.table, ht.now.nodes
      requires Ready()
    {
      Coming(ht.now.entries, index, pos)
    }

    /** The entry handed out last is linked in the table, just before the place reached. */
    ghost predicate On()
      reads this, ht, ht.table, ht.now.nodes
    {
      Ready() && entry != null && pos > 0 && ht.now.chains[index][pos - 1] == entry
    }

    constructor (ht: Dict<V>)
      requires ht.Valid()
      ensures this.ht == ht && Ready() && Future() == Flat(ht.now.entries)
    {
      this.ht := ht;
      index, entry, nextEntry, pos := -1, null, null, 0;
      ComingFirst(ht.now.entries);
    }

    /** Goes to the saved entry, or to the first one of the next bucket that has any. */
    method Advance()
      requires Ready()
      modifies this`index, this`entry, this`pos
      ensures -1 <= index && |ht.now.chains| == |ht.now.entries| == ht.size
      ensures entry != null ==>
                && 0 <= index < ht.size && pos < |ht.now.chains[index]| == |ht.now.entries[index]|
                && entry == ht.now.chains[index][pos]
      ensures entry == null ==> index >= ht.size
      ensures old(Coming(ht.now.entries, index, pos)) == Coming(ht.now.entries, index, pos)
    {
      hide Whole, Buckets, Chained, Coming;
      ht.Shape();
      ghost var c := ht.now;
      ghost var future := Coming(c.entries, index, pos);
      while true
        invariant Reached(c)
        invariant Coming(c.entries, index, pos) == future
        decreases ht.size - index, entry != null
      {
        if entry == null {
          ComingNextBucket(c.entries, index, pos);
          index, pos := index + 1, 0;
          if index >= ht.size {
            return;
          }
          ht.Bucket(index);
          ChainedAll(ht.table[index], c.chains[index], c.entries[index]);
          entry := ht.table[index];
        } else {
          entry := nextEntry;
        }
        if entry != null {
          return;
        }
      }
    }

    /** Hands out the first of the entries to come, which is linked in the table with the value of its key. */
    method Next() returns (e: Node?<V>)
      requires Ready()
      modifies this
      ensures Ready() && e == entry
      ensures e == null ==> old(Future()) == [] == Future()
      ensures e != null ==>
                && On() && old(Future()) == [Entry(e.key, e.val)] + Future()
                && e in ht.now.nodes && e.key in ht.now.m && ht.now.m[e.key] == e.val
    {
      hide Whole, Chained, Coming;
      Advance();
      if entry == null {
        ComingEnd(ht.now.entries, index, pos);
        return null;
      }
      ht.Linked(index, pos);
      ComingNext(ht.now.entries, index, pos);
      nextEntry, pos := entry.next, pos + 1;
      return entry;
    }

    /** Deleting the entry just handed out keeps the saved link good and takes nothing from those to come. */
    method DeleteVisited()
      requires On()
      modifies this`pos, ht`used, ht`now, ht.table, ht.now.nodes`next
      ensures Ready() && Future() == old(Future()) && entry != null && entry.key in old(ht.now).m
      ensures ht.now.m == old(ht.now).m - {entry.key} && ht.now.nodes == old(ht.now).nodes
    {
      hide Whole, Buckets, Chained, Unlinked;
      ht.Shape();
      ht.Linked(index, pos - 1);
      ht.Bucket(index);
      ghost var c := ht.now;
      var ok, h, i := ht.Delete(entry.key);
      SamePlace(ht.hash, ht.size, c, h, i, index, pos - 1);
      AfterUnlinked(c, index, pos - 1);
      pos := pos - 1;
    }

    /** Deleting the entry the saved link leads to would not: the link then leads out of the table. */
    lemma SavedLinkNeedsItsEntry(c: Contents<V>)
      requires Ready() && entry != null && nextEntry != null
      requires 0 <= index < |c.chains| == |c.entries| && nextEntry !in c.chains[index]
      ensures Has(ht.now, index, pos) && ht.now.chains[index][pos] == nextEntry
      ensures !Reached(c)
    {
    }
  }

  // ---------------------------------------------------------------- a whole iteration

  ghost predicate Among<V>(es: seq<Entry<V>>, k: Key) {
    exists e :: e in es && e.key == k
  }

  /** What is left after the visited entries that were picked are deleted. */
  ghost predicate LeftOver<V>(m: map<Key, V>, start: map<Key, V>, visited: seq<Entry<V>>, pick: Key -> bool) {
    && (forall k :: k in m <==> k in start && !(pick(k) && Among(visited, k)))
    && (forall k :: k in m ==> m[k] == start[k])
  }

  lemma NothingDeleted<V>(m: map<Key, V>, pick: Key -> bool)
    ensures LeftOver(m, m, [], pick)
  {
  }

  lemma LeftOverStep<V>(m: map<Key, V>, start: map<Key, V>, visited: seq<Entry<V>>, e: Entry<V>, pick: Key -> bool)
    requires LeftOver(m, start, visited, pick)
    ensures LeftOver(if pick(e.key) then m - {e.key} else m, start, visited + [e], pick)
  {
    assert e in visited + [e];
    forall k ensures Among(visited + [e], k) <==> Among(visited, k) || k == e.key {
      if Among(visited, k) {
        var f :| f in visited && f.key == k;
        assert f in visited + [e];
      }
    }
  }

  /** The entries are the pairs of the map. */
  ghost predicate Exactly<V>(es: seq<Entry<V>>, m: map<Key, V>) {
    && (forall e :: e in es ==> e.key in m && m[e.key] == e.val)
    && (forall k :: k in m ==> Entry(k, m[k]) in es)
  }

  /** The map without the keys that were picked. */
  ghost predicate Unpicked<V>(m: map<Key, V>, start: map<Key, V>, pick: Key -> bool) {
    && (forall k :: k in m <==> k in start && !pick(k))
    && (forall k :: k in m ==> m[k] == start[k])
  }

  lemma AllVisited<V>(m: map<Key, V>, start: map<Key, V>, visited: seq<Entry<V>>, pick: Key -> bool)
    requires LeftOver(m, start, visited, pick) && Exactly(visited, start)
    ensures Unpicked(m, start, pick)
  {
    forall k | k in start ensures Among(visited, k) {
      assert Entry(k, start[k]) in visited;
    }
  }

  lemma AllEntries<V>(hash: Key -> Hash, ts: seq<seq<Entry<V>>>, m: map<Key, V>)
    requires Placed(hash, ts) && Refines(hash, ts, m)
    ensures Distinct(Flat(ts)) && Exactly(Flat(ts), m)
  {
    hide Flat, Placed, Refines, Distinct;
    FlatKeysDiffer(hash, ts, 0);
    assert ts[0..] == ts;
    forall e | e in Flat(ts) ensures e.key in m && m[e.key] == e.val {
      FlatIsMap(hash, ts, m, e);
    }
    forall k | k in m ensures Entry(k, m[k]) in Flat(ts) {
      FlatIsMap(hash, ts, m, Entry(k, m[k]));
    }
  }

  method VisitEach<V>(ht: Dict<V>, pick: Key -> bool) returns (visited: seq<Entry<V>>)
    requires ht.Valid()
    modifies ht`used, ht`now, ht.table, ht.now.nodes`next
    ensures ht.Valid() && visited == old(Flat(ht.now.entries)) && LeftOver(ht.now.m, old(ht.now).m, visited, pick)
  {
    hide Whole, Buckets, Flat, Coming, LeftOver, DictIterator.Reached;
    ghost var all, start, nodes := Flat(ht.now.entries), ht.now.m, ht.now.nodes;
    visited := [];
    NothingDeleted(start, pick);
    var it := new DictIterator<V>(ht);
    var e := it.Next();
    while e != null
      invariant it.ht == ht && it.Ready() && fresh(it) && ht.table == old(ht.table) && ht.now.nodes == nodes
      invariant e == it.entry && (e != null ==> it.On() && e in nodes)
      invariant all == visited + (if e != null then [Entry(e.key, e.val)] + it.Future() else [])
      invariant LeftOver(ht.now.m, start, visited, pick)
      decreases |it.Future()|, e != null
    {
      ghost var x := Entry(e.key, e.val);
      LeftOverStep(ht.now.m, start, visited, x, pick);
      Regroup(visited, [x], it.Future());
      visited := visited + [Entry(e.key, e.val)];
      if pick(e.key) {
        it.DeleteVisited();
      }
      e := it.Next();
    }
  }

  /**
    A whole iteration in which the caller deletes any of the entries it was just handed:
    every entry present at the start is handed out, no key twice, in bucket order, and
    then nothing more; what was not deleted is still there.
   */
  method VisitAll<V>(ht: Dict<V>, pick: Key -> bool) returns (visited: seq<Entry<V>>)
    requires ht.Valid()
    modifies ht`used, ht`now, ht.table, ht.now.nodes`next
    ensures ht.Valid() && visited == old(Flat(ht.now.entries)) && Distinct(visited)
    ensures Exactly(visited, old(ht.now).m) && Unpicked(ht.now.m, old(ht.now).m, pick)
  {
    hide Flat, Distinct, Exactly, Unpicked, LeftOver, Placed, Refines, Buckets;
    AllEntries(ht.hash, ht.now.entries, ht.now.m);
    visited := VisitEach(ht, pick);
    AllVisited(ht.now.m, old(ht.now).m, visited, pick);
  }
}
