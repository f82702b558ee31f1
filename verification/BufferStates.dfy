/**
 The state of the buffer cache between two sleeps: buffers on their lists, buffers that are being
 reused, and what each process in the middle of an operation relies on.
 */
module BufferStates {
  import opened BufferQueues

  /** The lists as sequences.  `taken` are the buffers that processes have removed to reuse them, in the
      order in which that happened; `takers` are these processes. */
  datatype Lists = Lists(ring: seq<nat>, chains: seq<seq<nat>>, taken: seq<nat>, takers: seq<nat>)

  predicate IsBlock(h: Head, dev: nat, block: nat) {
    h.dev == dev && h.blocknr == block
  }

  // ---------- The lists ----------

  /** Each buffer is on the free list or taken. */
  ghost predicate Parted(n: nat, l: Lists) {
    && Distinct(l.ring) && Within(l.ring, n) && Distinct(l.taken) && Within(l.taken, n)
    && forall b: nat {:trigger b in l.ring} {:trigger b in l.taken} :: b < n ==> (b in l.ring <==> b !in l.taken)
  }

  /** Chain `h` holds what belongs there. */
  ghost predicate ChainHas(heads: seq<Head>, l: Lists, h: nat) {
    h < |l.chains| && forall b: nat {:trigger b in l.chains[h]} :: b < |heads| ==>
      (b in l.chains[h] <==> b in l.ring && heads[b].dev != 0 && HashFn(heads[b].dev, heads[b].blocknr) == h)
  }

  ghost predicate Chained(heads: seq<Head>, hash: seq<int>, l: Lists) {
    && |hash| == |l.chains| == NR_HASH
    && (forall h {:trigger l.chains[h]} :: 0 <= h < NR_HASH ==>
        IsChain(heads, hash[h], l.chains[h]) && ChainHas(heads, l, h))
    && (forall b: nat {:trigger b in l.ring} :: b in l.ring && b < |heads| && heads[b].dev == 0 ==>
        heads[b].next == NULL && heads[b].prev == NULL)
  }

  /** No block is in two buffers. */
  ghost predicate Unique(heads: seq<Head>, l: Lists) {
    forall a: nat, b: nat {:trigger a in l.ring, b in l.ring} ::
      a in l.ring && b in l.ring && a < |heads| && b < |heads| ==>
        heads[a].dev != 0 && IsBlock(heads[b], heads[a].dev, heads[a].blocknr) ==> a == b
  }

  /** From a taken buffer the old link leads to the free list, or to a buffer that was taken later. */
  ghost predicate StaleAt(heads: seq<Head>, l: Lists, i: nat) {
    i < |l.taken| && l.taken[i] < |heads| &&
    var x := heads[l.taken[i]].nextFree;
    0 <= x && (x in l.ring || x in l.taken[i + 1..])
  }

  ghost predicate Stale(heads: seq<Head>, l: Lists) {
    forall i: nat {:trigger StaleAt(heads, l, i)} :: i < |l.taken| ==> StaleAt(heads, l, i)
  }

  ghost predicate Sound(heads: seq<Head>, hash: seq<int>, free: int, l: Lists) {
    Parted(|heads|, l) && IsRing(heads, free, l.ring) && Chained(heads, hash, l) && Unique(heads, l) && Stale(heads, l)
  }

  /** Same blocks and links; counts and flags may differ. */
  ghost predicate SameLinks(heads: seq<Head>, heads': seq<Head>) {
    |heads'| == |heads| && forall b {:trigger heads'[b]} :: 0 <= b < |heads| ==>
      heads'[b] == heads[b].(uptodate := heads'[b].uptodate, dirt := heads'[b].dirt, count := heads'[b].count,
          lock := heads'[b].lock)
  }

  lemma SoundSame(heads: seq<Head>, hash: seq<int>, free: int, l: Lists, heads': seq<Head>)
    requires Sound(heads, hash, free, l) && SameLinks(heads, heads')
    ensures Sound(heads', hash, free, l)
  {
    RingKept(heads, heads', free, l.ring);
    ChainedSame(heads, hash, l, heads');
    forall i: nat | i < |l.taken| ensures StaleAt(heads', l, i) {
      assert StaleAt(heads, l, i) && heads'[l.taken[i]] == heads'[l.taken[i]];
    }
    assert Unique(heads', l) by {
      forall a: nat, b: nat | a in l.ring && b in l.ring && a < |heads| && b < |heads| && heads'[a].dev != 0 &&
          IsBlock(heads'[b], heads'[a].dev, heads'[a].blocknr)
        ensures a == b
      {
        assert heads'[a] == heads'[a] && heads'[b] == heads'[b];
      }
    }
  }

  lemma ChainedSame(heads: seq<Head>, hash: seq<int>, l: Lists, heads': seq<Head>)
    requires Chained(heads, hash, l) && SameLinks(heads, heads')
    ensures Chained(heads', hash, l)
  {
    forall h | 0 <= h < NR_HASH ensures IsChain(heads', hash[h], l.chains[h]) && ChainHas(heads', l, h) {
      ChainKept(heads, heads', hash[h], l.chains[h]);
      forall b: nat | b < |heads|
        ensures b in l.chains[h] <==> b in l.ring && heads'[b].dev != 0 && HashFn(heads'[b].dev, heads'[b].blocknr) == h
      {
        assert ChainHas(heads, l, h) && heads'[b] == heads'[b];
      }
    }
    forall b: nat | b in l.ring && b < |heads| && heads'[b].dev == 0
        ensures heads'[b].next == NULL && heads'[b].prev == NULL {
      assert heads'[b] == heads'[b];
    }
  }

  // ---------- Taking a buffer off its lists ----------

  function HashOf(h: Head): (r: nat)
    ensures r < NR_HASH
  {
    HashFn(h.dev, h.blocknr)
  }

  /** `remove_from_queues`, the hash chain. */
  function HashWithout(heads: seq<Head>, hash: seq<int>, b: nat): seq<int>
    requires b < |heads| && |hash| == NR_HASH
  {
    var h := HashOf(heads[b]);
    if hash[h] == b then hash[h := heads[b].next] else hash
  }

  function IndexIn(s: seq<nat>, b: nat): (k: nat)
    requires b in s
    ensures k < |s| && s[k] == b
  {
    if s[0] == b then 0 else 1 + IndexIn(s[1..], b)
  }

  function ListsWithout(heads: seq<Head>, l: Lists, b: nat, p: nat): Lists
    requires b < |heads| && b in l.ring && |l.chains| == NR_HASH
  {
    var h := HashOf(heads[b]);
    l.(ring := Without(l.ring, IndexIn(l.ring, b)),
       chains := if b in l.chains[h] then l.chains[h := Without(l.chains[h], IndexIn(l.chains[h], b))] else l.chains,
       taken := l.taken + [b], takers := l.takers + [p])
  }

  /** One chain and the links of its members changed; the others are as before. */
  lemma OthersKept(heads: seq<Head>, hash: seq<int>, l: Lists, hb: nat, heads': seq<Head>, h: nat)
    requires Chained(heads, hash, l) && hb < NR_HASH && h < NR_HASH && h != hb && SameButHash(heads, heads')
    requires forall x {:trigger heads'[x]} ::
               0 <= x < |heads| && x !in l.chains[hb] && (heads[x].dev == 0 || HashOf(heads[x]) != hb) ==>
                 heads'[x] == heads[x]
    ensures IsChain(heads', hash[h], l.chains[h])
  {
    assert ChainHas(heads, l, h) && ChainHas(heads, l, hb) && IsChain(heads, hash[h], l.chains[h]);
    forall x: nat | x < |heads| && x in l.chains[h]
        ensures heads'[x].next == heads[x].next && heads'[x].prev == heads[x].prev {
      assert HashOf(heads[x]) == h;
    }
    ChainKept(heads, heads', hash[h], l.chains[h]);
  }

  lemma HashRemoved(heads: seq<Head>, hash: seq<int>, l: Lists, b: nat, p: nat)
    requires Chained(heads, hash, l) && b < |heads| && b in l.ring && Distinct(l.ring)
    ensures heads[b].next < |heads| && heads[b].prev < |heads| && SameButHash(heads, Unhashed(heads, b))
    ensures Chained(Unhashed(heads, b), HashWithout(heads, hash, b), ListsWithout(heads, l, b, p))
  {
    var hb := HashOf(heads[b]);
    var l', u := ListsWithout(heads, l, b, p), HashWithout(heads, hash, b);
    WithoutHas(l.ring, IndexIn(l.ring, b));
    BucketRemoved(heads, hash, l, b, p);
    hide Unhashed;
    var heads' := Unhashed(heads, b);
    forall h | 0 <= h < NR_HASH ensures IsChain(heads', u[h], l'.chains[h]) && ChainHas(heads', l', h) {
      if h != hb {
        OthersKept(heads, hash, l, hb, heads', h);
        assert l'.chains[h] == l.chains[h];
      }
      assert ChainHas(heads, l, h);
      HasRemoved(heads, l, b, l', heads', h);
    }
    RestRemoved(heads, l, b, l', heads');
  }

  /** The chain that `b` is on, if it has a device. */
  lemma BucketRemoved(heads: seq<Head>, hash: seq<int>, l: Lists, b: nat, p: nat)
    requires Chained(heads, hash, l) && b < |heads| && b in l.ring
    ensures heads[b].next < |heads| && heads[b].prev < |heads| && SameButHash(heads, Unhashed(heads, b))
    ensures var hb, l' := HashOf(heads[b]), ListsWithout(heads, l, b, p);
            && IsChain(Unhashed(heads, b), HashWithout(heads, hash, b)[hb], l'.chains[hb])
            && (forall x: nat {:trigger x in l'.chains[hb]} :: x in l'.chains[hb] <==> x in l.chains[hb] && x != b)
            && (forall x {:trigger Unhashed(heads, b)[x]} :: 0 <= x < |heads| && x !in l.chains[hb] ==>
                Unhashed(heads, b)[x] == heads[x])
  {
    var hb := HashOf(heads[b]);
    assert ChainHas(heads, l, hb) && IsChain(heads, hash[hb], l.chains[hb]);
    if heads[b].dev != 0 {
      ChainUnhashed(heads, hash[hb], l.chains[hb], IndexIn(l.chains[hb], b));
      WithoutHas(l.chains[hb], IndexIn(l.chains[hb], b));
    } else {
      NothingUnhashed(heads, b);
      NotFirst(heads, hash[hb], l.chains[hb], b);
    }
  }

  lemma HasRemoved(heads: seq<Head>, l: Lists, b: nat, l': Lists, heads': seq<Head>, h: nat)
    requires ChainHas(heads, l, h) && h < |l'.chains| && b < |heads| && SameButHash(heads, heads')
    requires forall x: nat {:trigger x in l'.ring} :: x in l'.ring <==> x in l.ring && x != b
    requires if h == HashOf(heads[b]) then forall x: nat {:trigger x in l'.chains[h]} :: x in l'.chains[h] <==>
        x in l.chains[h] && x != b else l'.chains[h] == l.chains[h]
    ensures ChainHas(heads', l', h)
  {
    forall x: nat | x < |heads'| ensures x in l'.chains[h] <==>
        x in l'.ring && heads'[x].dev != 0 && HashFn(heads'[x].dev, heads'[x].blocknr) == h {
      assert heads'[x] == heads'[x] && (x in l.chains[h] <==>
          x in l.ring && heads[x].dev != 0 && HashOf(heads[x]) == h);
    }
  }

  lemma NotFirst(heads: seq<Head>, first: int, s: seq<nat>, b: nat)
    requires IsChain(heads, first, s) && b !in s
    ensures first != b
  {
  }

  lemma RestRemoved(heads: seq<Head>, l: Lists, b: nat, l': Lists, heads': seq<Head>)
    requires forall x: nat {:trigger x in l.ring} :: x in l.ring && x < |heads| && heads[x].dev == 0 ==>
        heads[x].next == NULL && heads[x].prev == NULL
    requires forall x: nat {:trigger x in l'.ring} :: x in l'.ring ==> x in l.ring
    requires SameButHash(heads, heads') && (forall x {:trigger heads'[x]} :: 0 <= x < |heads| && heads[x].dev == 0 ==>
        heads'[x] == heads[x])
    ensures forall x: nat {:trigger x in l'.ring} :: x in l'.ring && x < |heads'| && heads'[x].dev == 0 ==>
        heads'[x].next == NULL && heads'[x].prev == NULL
  {
    forall x: nat | x in l'.ring && x < |heads'| && heads'[x].dev == 0
        ensures heads'[x].next == NULL && heads'[x].prev == NULL {
      assert heads'[x] == heads'[x];
    }
  }

  /** The links of the free list do not matter for the chains. */
  lemma ChainedFree(heads: seq<Head>, hash: seq<int>, l: Lists, heads': seq<Head>)
    requires Chained(heads, hash, l) && SameButFree(heads, heads')
    ensures Chained(heads', hash, l)
  {
    forall h | 0 <= h < NR_HASH ensures IsChain(heads', hash[h], l.chains[h]) && ChainHas(heads', l, h) {
      assert IsChain(heads, hash[h], l.chains[h]);
      ChainKept(heads, heads', hash[h], l.chains[h]);
      forall b: nat | b < |heads|
        ensures b in l.chains[h] <==> b in l.ring && heads'[b].dev != 0 && HashFn(heads'[b].dev, heads'[b].blocknr) == h
      {
        assert ChainHas(heads, l, h) && heads'[b] == heads'[b];
      }
    }
    forall b: nat | b in l.ring && b < |heads| && heads'[b].dev == 0
        ensures heads'[b].next == NULL && heads'[b].prev == NULL {
      assert heads'[b] == heads'[b];
    }
  }

  function FreeWithout(heads: seq<Head>, free: int, b: nat): int
    requires b < |heads|
  {
    if free == b then heads[b].nextFree else free
  }

  /** `remove_from_queues` on a buffer of the free list that is not the only one. */
  lemma Removed(heads: seq<Head>, hash: seq<int>, free: int, l: Lists, b: nat, p: nat)
    requires Sound(heads, hash, free, l) && b in l.ring && |l.ring| > 1
    ensures b < |heads| && heads[b].next < |heads| && heads[b].prev < |heads|
    ensures var h1 := Unhashed(heads, b);
            && |h1| == |heads| && 0 <= h1[b].prevFree < |heads| && 0 <= h1[b].nextFree < |heads|
            && Sound(Unlinked(h1, b), HashWithout(heads, hash, b), FreeWithout(h1, free, b),
                ListsWithout(heads, l, b, p))
    ensures SameBlocks(heads, Unlinked(Unhashed(heads, b), b))
  {
    var k := IndexIn(l.ring, b);
    HashRemoved(heads, hash, l, b, p);
    var h1, l' := Unhashed(heads, b), ListsWithout(heads, l, b, p);
    hide Unhashed, Chained, Unlinked, Without, HashWithout;
    assert forall x {:trigger h1[x]} :: 0 <= x < |heads| ==>
        h1[x].nextFree == heads[x].nextFree && h1[x].prevFree == heads[x].prevFree;
    RingKept(heads, h1, free, l.ring);
    RingUnlinked(h1, free, l.ring, k);
    WithoutHas(l.ring, k);
    RingAt(h1, free, l.ring, k);
    assert free == b <==> k == 0 by { assert l.ring[0] == b <==> k == 0; }
    ChainedFree(h1, HashWithout(heads, hash, b), l', Unlinked(h1, b));
    assert Unlinked(h1, b)[b].nextFree == l.ring[Nx(k, |l.ring|)] by { OwnLink(h1, b, l.ring, k); }
    StaleRemoved(heads, l, b, p, Unlinked(h1, b));
    SameTwice(heads, h1, Unlinked(h1, b));
    PartedRemoved(|heads|, l, b, l');
    UniqueRemoved(heads, l, l', Unlinked(h1, b));
  }

  /** Same blocks, counts and flags; only links differ. */
  ghost predicate SameBlocks(heads: seq<Head>, heads': seq<Head>) {
    |heads'| == |heads| && forall b {:trigger heads'[b]} :: 0 <= b < |heads| ==>
      heads'[b] == heads[b].(next := heads'[b].next, prev := heads'[b].prev, nextFree := heads'[b].nextFree,
          prevFree := heads'[b].prevFree)
  }

  lemma SameTwice(heads: seq<Head>, h1: seq<Head>, h2: seq<Head>)
    requires SameButHash(heads, h1) && SameButFree(h1, h2)
    ensures SameBlocks(heads, h2)
  {
    forall b | 0 <= b < |heads|
      ensures h2[b] == heads[b].(next := h2[b].next, prev := h2[b].prev, nextFree := h2[b].nextFree,
          prevFree := h2[b].prevFree)
    {
      assert h1[b] == h1[b];
    }
  }

  lemma OwnLink(h1: seq<Head>, b: nat, r: seq<nat>, k: nat)
    requires k < |r| && |r| > 1 && Distinct(r) && b == r[k] && b < |h1| && h1[b].prevFree == r[Pv(k, |r|)] &&
        h1[b].nextFree == r[Nx(k, |r|)]
    requires Within(r, |h1|)
    ensures Unlinked(h1, b)[b].nextFree == r[Nx(k, |r|)]
  {
    assert r[Pv(k, |r|)] != b;
  }

  lemma PartedRemoved(n: nat, l: Lists, b: nat, l': Lists)
    requires Parted(n, l) && b in l.ring && b < n && l'.taken == l.taken + [b]
    requires Distinct(l'.ring) && forall x: nat {:trigger x in l'.ring} :: x in l'.ring <==> x in l.ring && x != b
    ensures Parted(n, l')
  {
    forall i | 0 <= i < |l'.ring| ensures l'.ring[i] < n {
      assert l'.ring[i] in l'.ring && l'.ring[i] in l.ring;
    }
    forall i | 0 <= i < |l.taken| ensures l.taken[i] != b {
      assert l.taken[i] in l.taken;
    }
    assert Distinct(l'.taken);
    forall x: nat | x < n ensures x in l'.ring <==> x !in l'.taken {
      assert x in l'.taken <==> x in l.taken || x == b;
    }
  }

  lemma UniqueRemoved(heads: seq<Head>, l: Lists, l': Lists, heads': seq<Head>)
    requires Unique(heads, l) && SameBlocks(heads, heads') && forall x: nat {:trigger x in l'.ring} ::
        x in l'.ring ==> x in l.ring
    ensures Unique(heads', l')
  {
    forall a: nat, b: nat | a in l'.ring && b in l'.ring && a < |heads'| && b < |heads'| && heads'[a].dev != 0 &&
        IsBlock(heads'[b], heads'[a].dev, heads'[a].blocknr)
      ensures a == b
    {
      assert heads'[a] == heads'[a] && heads'[b] == heads'[b];
    }
  }

  lemma StaleRemoved(heads: seq<Head>, l: Lists, b: nat, p: nat, heads': seq<Head>)
    requires Stale(heads, l) && Parted(|heads|, l) && b in l.ring && b < |heads| && |heads'| == |heads| &&
        |l.chains| == NR_HASH
    requires forall x {:trigger heads'[x]} :: 0 <= x < |heads| && x !in l.ring ==>
        heads'[x].nextFree == heads[x].nextFree
    requires forall x: nat {:trigger x in ListsWithout(heads, l, b, p).ring} ::
        x in ListsWithout(heads, l, b, p).ring <==> x in l.ring && x != b
    requires 0 <= heads'[b].nextFree && heads'[b].nextFree in l.ring && heads'[b].nextFree != b
    ensures Stale(heads', ListsWithout(heads, l, b, p))
  {
    var l' := ListsWithout(heads, l, b, p);
    forall i: nat | i < |l'.taken| ensures StaleAt(heads', l', i) {
      if i < |l.taken| {
        assert StaleAt(heads, l, i) && l.taken[i] in l.taken;
        var x := heads[l.taken[i]].nextFree;
        assert l'.taken[i + 1..] == l.taken[i + 1..] + [b];
        assert heads'[l.taken[i]].nextFree == x;
      }
    }
  }

  // ---------- Putting a buffer back ----------

  /** A taken buffer may become anything, as long as its old link stays. */
  lemma SoundTaken(heads: seq<Head>, hash: seq<int>, free: int, l: Lists, b: nat, x: Head)
    requires Sound(heads, hash, free, l) && b in l.taken && b < |heads| && x.nextFree == heads[b].nextFree
    ensures Sound(heads[b := x], hash, free, l)
  {
    var heads' := heads[b := x];
    assert b !in l.ring;
    forall i: nat | i < |l.ring| ensures RingLink(heads', l.ring, i) {
      assert RingLink(heads, l.ring, i) && l.ring[i] in l.ring && l.ring[Nx(i, |l.ring|)] in l.ring;
    }
    forall h | 0 <= h < NR_HASH ensures IsChain(heads', hash[h], l.chains[h]) && ChainHas(heads', l, h) {
      assert IsChain(heads, hash[h], l.chains[h]) && ChainHas(heads, l, h);
      ChainKept(heads, heads', hash[h], l.chains[h]);
    }
    forall i: nat | i < |l.taken| ensures StaleAt(heads', l, i) {
      assert StaleAt(heads, l, i);
    }
  }

  function Cleared(heads: seq<Head>, b: nat): seq<Head>
    requires b < |heads|
  {
    SetNext(SetPrev(heads, b, NULL), b, NULL)
  }

  /** The links that `insert_into_queues` sets in the end. */
  function Inserted(heads: seq<Head>, hash: seq<int>, free: nat, b: nat): seq<Head>
    requires b < |heads| && free < |heads| && 0 <= heads[free].prevFree < |heads| && |hash| == NR_HASH &&
        hash[HashOf(heads[b])] < |heads|
  {
    var h1 := Linked(heads, free, b);
    if heads[b].dev == 0 then Cleared(h1, b) else Hashed(h1, hash[HashOf(heads[b])], b)
  }

  function HashWith(heads: seq<Head>, hash: seq<int>, b: nat): seq<int>
    requires b < |heads| && |hash| == NR_HASH
  {
    if heads[b].dev == 0 then hash else hash[HashOf(heads[b]) := b]
  }

  function ListsWith(heads: seq<Head>, l: Lists, b: nat, t: nat): Lists
    requires b < |heads| && t < |l.taken| == |l.takers| && |l.chains| == NR_HASH
  {
    var h := HashOf(heads[b]);
    l.(ring := l.ring + [b], chains := if heads[b].dev == 0 then l.chains else l.chains[h := [b] + l.chains[h]],
       taken := Without(l.taken, t), takers := Without(l.takers, t))
  }

  /** No buffer of the lists holds this block. */
  ghost predicate Absent(heads: seq<Head>, l: Lists, dev: nat, block: nat) {
    forall x: nat {:trigger x in l.ring} :: x in l.ring && x < |heads| ==> !(dev != 0 && IsBlock(heads[x], dev, block))
  }

  lemma FirstInside(heads: seq<Head>, hash: seq<int>, l: Lists, h: nat)
    requires Chained(heads, hash, l) && h < NR_HASH
    ensures hash[h] < |heads| && IsChain(heads, hash[h], l.chains[h]) && ChainHas(heads, l, h)
  {
    assert IsChain(heads, hash[h], l.chains[h]);
  }

  lemma Replaced(heads: seq<Head>, hash: seq<int>, free: int, l: Lists, b: nat, t: nat)
    requires Sound(heads, hash, free, l) && t < |l.taken| == |l.takers| && l.taken[t] == b && b < |heads|
    requires Absent(heads, l, heads[b].dev, heads[b].blocknr)
    ensures 0 <= free < |heads| && 0 <= heads[free].prevFree < |heads| && hash[HashOf(heads[b])] < |heads|
    ensures Sound(Inserted(heads, hash, free, b), HashWith(heads, hash, b), free, ListsWith(heads, l, b, t))
    ensures SameBlocks(heads, Inserted(heads, hash, free, b))
  {
    assert b in l.taken && b !in l.ring;
    FirstInside(heads, hash, l, HashOf(heads[b]));
    RingAt(heads, free, l.ring, 0);
    RingLinked(heads, free, l.ring, b);
    var h1, l' := Linked(heads, free, b), ListsWith(heads, l, b, t);
    var h2 := Inserted(heads, hash, free, b);
    InsertedChains(heads, hash, l, free, b, t);
    WithoutHas(l.taken, t);
    hide Linked, Hashed, Cleared, Inserted, Chained;
    assert SameButHash(h1, h2);
    assert forall x {:trigger h2[x]} :: 0 <= x < |heads| ==>
        h2[x].nextFree == h1[x].nextFree && h2[x].prevFree == h1[x].prevFree;
    RingKept(h1, h2, free, l'.ring);
    SameBoth(heads, h1, h2);
    PartedInserted(|heads|, l, b, l');
    UniqueInserted(heads, l, b, l', h2);
    StaleInserted(heads, l, b, t, l', h2);
  }

  lemma SameBoth(heads: seq<Head>, h1: seq<Head>, h2: seq<Head>)
    requires SameButFree(heads, h1) && SameButHash(h1, h2)
    ensures SameBlocks(heads, h2)
  {
    forall b | 0 <= b < |heads|
      ensures h2[b] == heads[b].(next := h2[b].next, prev := h2[b].prev, nextFree := h2[b].nextFree,
          prevFree := h2[b].prevFree)
    {
      assert h1[b] == h1[b];
    }
  }

  lemma InsertedChains(heads: seq<Head>, hash: seq<int>, l: Lists, free: nat, b: nat, t: nat)
    requires Chained(heads, hash, l) && b < |heads| && b !in l.ring && t < |l.taken| == |l.takers|
    requires free < |heads| && 0 <= heads[free].prevFree < |heads| && hash[HashOf(heads[b])] < |heads| &&
        SameButFree(heads, Linked(heads, free, b))
    ensures SameButHash(Linked(heads, free, b), Inserted(heads, hash, free, b))
    ensures Chained(Inserted(heads, hash, free, b), HashWith(heads, hash, b), ListsWith(heads, l, b, t))
  {
    var h1, l', u := Linked(heads, free, b), ListsWith(heads, l, b, t), HashWith(heads, hash, b);
    hide Linked;
    assert h1[b].dev == heads[b].dev && h1[b].blocknr == heads[b].blocknr;
    ChainedFree(heads, hash, l, h1);
    var hb := HashOf(heads[b]);
    FirstInside(h1, hash, l, hb);
    var h2 := Inserted(heads, hash, free, b);
    if heads[b].dev != 0 {
      ChainHashed(h1, hash[hb], l.chains[hb], b);
    }
    assert SameButHash(h1, h2) && forall x {:trigger h2[x]} :: 0 <= x < |heads| && x !in l.chains[hb] && x != b ==>
        h2[x] == h1[x];
    hide Hashed, Cleared;
    forall h | 0 <= h < NR_HASH ensures IsChain(h2, u[h], l'.chains[h]) && ChainHas(h2, l', h) {
      FirstInside(h1, hash, l, h);
      if heads[b].dev == 0 || h != hb {
        OtherChain(h1, hash, l, hb, b, h2, h);
      }
      HasInserted(h1, l, b, l', h2, h);
    }
    forall x: nat | x in l'.ring && x < |heads| && h2[x].dev == 0 ensures h2[x].next == NULL && h2[x].prev == NULL {
      assert h2[x] == h2[x];
      if x != b {
        assert x in l.ring && h1[x].dev == 0 && x !in l.chains[hb];
      } else {
        ClearedLinks(heads, hash, free, b);
      }
    }
  }

  lemma ClearedLinks(heads: seq<Head>, hash: seq<int>, free: nat, b: nat)
    requires b < |heads| && free < |heads| && 0 <= heads[free].prevFree < |heads| && |hash| == NR_HASH &&
        hash[HashOf(heads[b])] < |heads|
    ensures |Inserted(heads, hash, free, b)| == |heads|
    ensures heads[b].dev == 0 ==>
        Inserted(heads, hash, free, b)[b].next == NULL && Inserted(heads, hash, free, b)[b].prev == NULL
  {
  }

  lemma OtherChain(heads: seq<Head>, hash: seq<int>, l: Lists, hb: nat, b: nat, heads': seq<Head>, h: nat)
    requires Chained(heads, hash, l) && hb < NR_HASH && h < NR_HASH && b < |heads| && b !in l.ring &&
        |heads'| == |heads|
    requires h == hb ==> forall x {:trigger heads'[x]} :: 0 <= x < |heads| && x != b ==> heads'[x] == heads[x]
    requires forall x {:trigger heads'[x]} :: 0 <= x < |heads| && x !in l.chains[hb] && x != b ==> heads'[x] == heads[x]
    ensures IsChain(heads', hash[h], l.chains[h])
  {
    FirstInside(heads, hash, l, h);
    FirstInside(heads, hash, l, hb);
    forall x: nat | x < |heads| && x in l.chains[h] ensures heads'[x] == heads[x] {
      assert x in l.ring;
    }
    ChainKept(heads, heads', hash[h], l.chains[h]);
  }

  lemma HasInserted(heads: seq<Head>, l: Lists, b: nat, l': Lists, heads': seq<Head>, h: nat)
    requires ChainHas(heads, l, h) && h < |l'.chains| && b < |heads| && b !in l.ring && SameButHash(heads, heads') &&
        l'.ring == l.ring + [b]
    requires l'.chains[h] == if heads[b].dev != 0 && h == HashOf(heads[b]) then [b] + l.chains[h] else l.chains[h]
    ensures ChainHas(heads', l', h)
  {
    forall x: nat | x < |heads'| ensures x in l'.chains[h] <==>
        x in l'.ring && heads'[x].dev != 0 && HashFn(heads'[x].dev, heads'[x].blocknr) == h {
      assert heads'[x] == heads'[x] && (x in l.chains[h] <==>
          x in l.ring && heads[x].dev != 0 && HashOf(heads[x]) == h);
    }
  }

  lemma PartedInserted(n: nat, l: Lists, b: nat, l': Lists)
    requires Parted(n, l) && b in l.taken && b < n && l'.ring == l.ring + [b] && Distinct(l'.taken)
    requires forall x: nat {:trigger x in l'.taken} :: x in l'.taken <==> x in l.taken && x != b
    ensures Parted(n, l')
  {
    forall i | 0 <= i < |l'.taken| ensures l'.taken[i] < n {
      assert l'.taken[i] in l'.taken && l'.taken[i] in l.taken;
    }
    forall i | 0 <= i < |l.ring| ensures l.ring[i] != b {
      assert l.ring[i] in l.ring;
    }
    forall x: nat | x < n ensures x in l'.ring <==> x !in l'.taken {
      assert x in l'.ring <==> x in l.ring || x == b;
    }
  }

  lemma UniqueInserted(heads: seq<Head>, l: Lists, b: nat, l': Lists, heads': seq<Head>)
    requires Unique(heads, l) && SameBlocks(heads, heads') && l'.ring == l.ring + [b] && b < |heads|
    requires Absent(heads, l, heads[b].dev, heads[b].blocknr)
    ensures Unique(heads', l')
  {
    forall a: nat, c: nat | a in l'.ring && c in l'.ring && a < |heads'| && c < |heads'| && heads'[a].dev != 0 &&
        IsBlock(heads'[c], heads'[a].dev, heads'[a].blocknr)
      ensures a == c
    {
      assert heads'[a] == heads'[a] && heads'[c] == heads'[c];
      assert (a in l.ring || a == b) && (c in l.ring || c == b);
    }
  }

  lemma StaleInserted(heads: seq<Head>, l: Lists, b: nat, t: nat, l': Lists, heads': seq<Head>)
    requires Stale(heads, l) && Parted(|heads|, l) && t < |l.taken| && l.taken[t] == b && l'.ring == l.ring + [b] &&
        l'.taken == Without(l.taken, t)
    requires |heads'| == |heads| && forall x {:trigger heads'[x]} :: 0 <= x < |heads| && x !in l.ring && x != b ==>
        heads'[x].nextFree == heads[x].nextFree
    ensures Stale(heads', l')
  {
    forall i: nat | i < |l'.taken| ensures StaleAt(heads', l', i) {
      var j := From(i, t);
      WithoutAt(l.taken, t, i);
      assert StaleAt(heads, l, j) && l.taken[j] in l.taken && l.taken[j] != b;
      var x := heads[l.taken[j]].nextFree;
      if x !in l.ring && x != b {
        var m :| j < m < |l.taken| && l.taken[m] == x by { TailHas(l.taken, j + 1, x); }
        var m' := if m < t then m else m - 1;
        WithoutAt(l.taken, t, m');
        assert l'.taken[i + 1..][m' - i - 1] == x;
      }
    }
  }

  lemma TailHas(s: seq<nat>, n: nat, x: int)
    requires n <= |s| && x in s[n..]
    ensures exists m :: n <= m < |s| && s[m] == x
  {
    var i :| 0 <= i < |s| - n && s[n..][i] == x;
    assert s[n + i] == x;
  }
}
