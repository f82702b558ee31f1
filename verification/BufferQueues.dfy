/**
 Buffer heads and the two kinds of lists they are threaded on: the hash chains and the circular list of
 free buffers (`fs/buffer.c`).
 */
module BufferQueues {
  const NR_HASH: nat := 307
  const NULL: int := -1

  /** Device and block numbers are stored in 16 bits. */
  type Short = n: nat | n < 65536

  datatype Head = Head(
    dev: Short, blocknr: Short, uptodate: bool, dirt: bool, count: nat, lock: bool,
    prev: int, next: int, prevFree: int, nextFree: int)

  /** `_hashfn` */
  function HashFn(dev: Short, block: Short): (h: nat)
    ensures h < NR_HASH
  {
    (((dev as bv16) ^ (block as bv16)) as nat) % NR_HASH
  }

  predicate Distinct(s: seq<nat>) {
    forall i, j {:trigger s[i], s[j]} :: 0 <= i < j < |s| ==> s[i] != s[j]
  }

  predicate Within(s: seq<nat>, n: nat) {
    forall i {:trigger s[i]} :: 0 <= i < |s| ==> s[i] < n
  }

  function Without(s: seq<nat>, k: nat): seq<nat>
    requires k < |s|
  {
    s[..k] + s[k + 1..]
  }

  lemma WithoutHas(s: seq<nat>, k: nat)
    requires k < |s| && Distinct(s)
    ensures Distinct(Without(s, k)) && forall x {:trigger x in Without(s, k)} :: x in Without(s, k) <==>
        x in s && x != s[k]
  {
    var t := Without(s, k);
    forall i, j | 0 <= i < j < |t| ensures t[i] != t[j] {
      assert t[i] == (if i < k then s[i] else s[i + 1]) && t[j] == if j < k then s[j] else s[j + 1];
    }
    forall x | x in s && x != s[k] ensures x in t {
      var i :| 0 <= i < |s| && s[i] == x;
      assert t[if i < k then i else i - 1] == x;
    }
    forall x | x in t ensures x in s && x != s[k] {
      var i :| 0 <= i < |t| && t[i] == x;
      assert x == if i < k then s[i] else s[i + 1];
    }
  }

  // ---------- The free list ----------

  function Nx(i: nat, n: nat): nat {
    if i + 1 == n then 0 else i + 1
  }

  /** The buffers `r`, in this order, form the circular list that starts at `first`. */
  ghost predicate IsRing(heads: seq<Head>, first: int, r: seq<nat>) {
    && |r| > 0 && first == r[0] && Distinct(r) && Within(r, |heads|)
    && (forall i {:trigger RingLink(heads, r, i)} :: 0 <= i < |r| ==> RingLink(heads, r, i))
  }

  predicate RingLink(heads: seq<Head>, r: seq<nat>, i: nat) {
    i < |r| && r[i] < |heads| && r[Nx(i, |r|)] < |heads| && heads[r[i]].nextFree == r[Nx(i, |r|)] &&
        heads[r[Nx(i, |r|)]].prevFree == r[i]
  }

  function SetNextFree(heads: seq<Head>, b: nat, x: int): (h: seq<Head>)
    requires b < |heads|
    ensures |h| == |heads|
  {
    heads[b := heads[b].(nextFree := x)]
  }

  function SetPrevFree(heads: seq<Head>, b: nat, x: int): (h: seq<Head>)
    requires b < |heads|
    ensures |h| == |heads|
  {
    heads[b := heads[b].(prevFree := x)]
  }

  /** Nothing but the links of the free list differs. */
  ghost predicate SameButFree(heads: seq<Head>, heads': seq<Head>) {
    |heads'| == |heads| && forall b {:trigger heads'[b]} :: 0 <= b < |heads| ==>
      heads'[b] == heads[b].(nextFree := heads'[b].nextFree, prevFree := heads'[b].prevFree)
  }

  function Unlinked(heads: seq<Head>, b: nat): seq<Head>
    requires b < |heads| && 0 <= heads[b].prevFree < |heads| && 0 <= heads[b].nextFree < |heads|
  {
    SetPrevFree(SetNextFree(heads, heads[b].prevFree, heads[b].nextFree), heads[b].nextFree, heads[b].prevFree)
  }

  function Pv(i: nat, n: nat): nat
    requires n > 0
  {
    if i == 0 then n - 1 else i - 1
  }

  lemma RingAt(heads: seq<Head>, first: int, r: seq<nat>, k: nat)
    requires IsRing(heads, first, r) && k < |r|
    ensures r[k] < |heads| && heads[r[k]].prevFree == r[Pv(k, |r|)] && heads[r[k]].nextFree == r[Nx(k, |r|)]
  {
    assert Nx(Pv(k, |r|), |r|) == k;
    assert RingLink(heads, r, Pv(k, |r|)) && RingLink(heads, r, k);
  }

  /** Where the elements of `Without(s, k)` come from. */
  function From(i: nat, k: nat): nat {
    if i < k then i else i + 1
  }

  lemma FromNext(i: nat, k: nat, n: nat)
    requires i < n - 1 && k < n
    ensures From(Nx(i, n - 1), k) == (if Nx(From(i, k), n) == k then Nx(k, n) else Nx(From(i, k), n)) &&
        From(i, k) != k && From(i, k) < n
  {
  }

  lemma WithoutAt(s: seq<nat>, k: nat, i: nat)
    requires k < |s| && i < |s| - 1
    ensures Without(s, k)[i] == s[From(i, k)]
  {
  }

  lemma UnlinkedLinks(heads: seq<Head>, first: int, r: seq<nat>, k: nat, j: nat, j2: nat)
    requires IsRing(heads, first, r) && k < |r| && |r| > 1 && j < |r| && j != k &&
        j2 == if Nx(j, |r|) == k then Nx(k, |r|) else Nx(j, |r|)
    requires r[k] < |heads| && 0 <= heads[r[k]].prevFree < |heads| && 0 <= heads[r[k]].nextFree < |heads|
    ensures j2 < |r| && Unlinked(heads, r[k])[r[j]].nextFree == r[j2] && Unlinked(heads, r[k])[r[j2]].prevFree == r[j]
  {
    var n := |r|;
    RingAt(heads, first, r, k);
    RingAt(heads, first, r, j);
    RingAt(heads, first, r, j2);
    var a, z := Pv(k, n), Nx(k, n);
    assert r[j] == r[a] <==> j == a;
    assert r[j2] == r[z] <==> j2 == z;
    assert j == a <==> Nx(j, n) == k;
    hide IsRing;
  }

  lemma RingUnlinked(heads: seq<Head>, first: int, r: seq<nat>, k: nat)
    requires IsRing(heads, first, r) && k < |r| && |r| > 1
    ensures r[k] < |heads| && 0 <= heads[r[k]].prevFree < |heads| && 0 <= heads[r[k]].nextFree < |heads|
    ensures IsRing(Unlinked(heads, r[k]), if k == 0 then heads[r[k]].nextFree else first, Without(r, k))
    ensures SameButFree(heads, Unlinked(heads, r[k]))
    ensures forall b {:trigger Unlinked(heads, r[k])[b]} :: 0 <= b < |heads| && b !in r ==>
        Unlinked(heads, r[k])[b] == heads[b]
  {
    RingAt(heads, first, r, k);
    WithoutHas(r, k);
    var t, u := Without(r, k), Unlinked(heads, r[k]);
    forall i | 0 <= i < |t| ensures RingLink(u, t, i) {
      FromNext(i, k, |r|);
      WithoutAt(r, k, i);
      WithoutAt(r, k, Nx(i, |t|));
      hide Unlinked, Without;
      UnlinkedLinks(heads, first, r, k, From(i, k), From(Nx(i, |t|), k));
    }
    assert t[0] == r[if k == 0 then 1 else 0];
    hide SetNextFree, SetPrevFree;
    UnlinkedFrame(heads, r[k]);
    assert r[Pv(k, |r|)] in r && r[Nx(k, |r|)] in r;
  }

  lemma UnlinkedFrame(heads: seq<Head>, b: nat)
    requires b < |heads| && 0 <= heads[b].prevFree < |heads| && 0 <= heads[b].nextFree < |heads|
    ensures SameButFree(heads, Unlinked(heads, b))
    ensures forall x {:trigger Unlinked(heads, b)[x]} ::
              0 <= x < |heads| && x != heads[b].prevFree && x != heads[b].nextFree ==> Unlinked(heads, b)[x] == heads[x]
  {
  }

  /** Buffer `b` is put at the end of the list. */
  function Linked(heads: seq<Head>, first: nat, b: nat): seq<Head>
    requires b < |heads| && first < |heads| && 0 <= heads[first].prevFree < |heads|
  {
    var last := heads[first].prevFree;
    SetPrevFree(SetNextFree(SetPrevFree(SetNextFree(heads, b, first), b, last), last, b), first, b)
  }

  lemma RingLinked(heads: seq<Head>, first: int, r: seq<nat>, b: nat)
    requires IsRing(heads, first, r) && b < |heads| && b !in r
    ensures 0 <= first < |heads| && 0 <= heads[first].prevFree < |heads|
    ensures IsRing(Linked(heads, first, b), first, r + [b]) && SameButFree(heads, Linked(heads, first, b))
    ensures forall x {:trigger Linked(heads, first, b)[x]} :: 0 <= x < |heads| && x !in r && x != b ==>
        Linked(heads, first, b)[x] == heads[x]
  {
    RingAt(heads, first, r, 0);
    var n, t, u := |r|, r + [b], Linked(heads, first, b);
    assert r[n - 1] in r && r[0] in r;
    forall i | 0 <= i < |t| ensures RingLink(u, t, i) {
      LinkedLinks(heads, first, r, b, i);
    }
    hide SetNextFree, SetPrevFree;
    LinkedFrame(heads, first, b);
  }

  lemma LinkedLinks(heads: seq<Head>, first: int, r: seq<nat>, b: nat, i: nat)
    requires IsRing(heads, first, r) && b < |heads| && b !in r && i <= |r| && first < |heads| &&
        0 <= heads[first].prevFree < |heads|
    ensures RingLink(Linked(heads, first, b), r + [b], i)
  {
    var n := |r|;
    RingAt(heads, first, r, 0);
    if i < n {
      assert RingLink(heads, r, i);
      assert r[i] in r && r[Nx(i, n)] in r && r[n - 1] in r && r[0] in r;
      assert i != n - 1 ==> r[i] != r[n - 1];
      assert Nx(i, n) != 0 ==> r[Nx(i, n)] != r[0];
    } else {
      assert r[0] in r && r[n - 1] in r;
    }
  }

  lemma LinkedFrame(heads: seq<Head>, first: nat, b: nat)
    requires b < |heads| && first < |heads| && 0 <= heads[first].prevFree < |heads|
    ensures SameButFree(heads, Linked(heads, first, b))
    ensures forall x {:trigger Linked(heads, first, b)[x]} ::
              0 <= x < |heads| && x != b && x != first && x != heads[first].prevFree ==>
                Linked(heads, first, b)[x] == heads[x]
  {
  }

  // ---------- Hash chains ----------

  function First(s: seq<nat>): int {
    if |s| > 0 then s[0] else NULL
  }

  /** The buffers `s` form the list that starts at `first`. */
  ghost predicate IsChain(heads: seq<Head>, first: int, s: seq<nat>) {
    && first == First(s) && Distinct(s) && Within(s, |heads|)
    && (forall i {:trigger ChainLink(heads, s, i)} :: 0 <= i < |s| ==> ChainLink(heads, s, i))
  }

  predicate ChainLink(heads: seq<Head>, s: seq<nat>, i: nat) {
    && i < |s| && s[i] < |heads|
    && heads[s[i]].next == (if i + 1 < |s| then s[i + 1] else NULL)
    && heads[s[i]].prev == (if i > 0 then s[i - 1] else NULL)
  }

  function SetNext(heads: seq<Head>, b: int, x: int): (h: seq<Head>)
    requires b < |heads|
    ensures |h| == |heads|
  {
    if b < 0 then heads else heads[b := heads[b].(next := x)]
  }

  function SetPrev(heads: seq<Head>, b: int, x: int): (h: seq<Head>)
    requires b < |heads|
    ensures |h| == |heads|
  {
    if b < 0 then heads else heads[b := heads[b].(prev := x)]
  }

  /** Nothing but the links of the chains differs. */
  ghost predicate SameButHash(heads: seq<Head>, heads': seq<Head>) {
    |heads'| == |heads| && forall b {:trigger heads'[b]} :: 0 <= b < |heads| ==>
      heads'[b] == heads[b].(next := heads'[b].next, prev := heads'[b].prev)
  }

  function Unhashed(heads: seq<Head>, b: nat): seq<Head>
    requires b < |heads| && heads[b].next < |heads| && heads[b].prev < |heads|
  {
    SetNext(SetPrev(heads, heads[b].next, heads[b].prev), heads[b].prev, heads[b].next)
  }

  lemma ChainAt(heads: seq<Head>, first: int, s: seq<nat>, k: nat)
    requires IsChain(heads, first, s) && k < |s|
    ensures s[k] < |heads| && heads[s[k]].next < |heads| && heads[s[k]].prev < |heads|
    ensures heads[s[k]].next == (if k + 1 < |s| then s[k + 1] else NULL) &&
        heads[s[k]].prev == (if k > 0 then s[k - 1] else NULL)
  {
    assert ChainLink(heads, s, k);
    assert k > 0 ==> ChainLink(heads, s, k - 1);
    assert k + 1 < |s| ==> ChainLink(heads, s, k + 1);
  }

  lemma ChainUnhashed(heads: seq<Head>, first: int, s: seq<nat>, k: nat)
    requires IsChain(heads, first, s) && k < |s|
    ensures s[k] < |heads| && heads[s[k]].next < |heads| && heads[s[k]].prev < |heads|
    ensures IsChain(Unhashed(heads, s[k]), if first == s[k] then heads[s[k]].next else first, Without(s, k))
    ensures SameButHash(heads, Unhashed(heads, s[k]))
    ensures forall b {:trigger Unhashed(heads, s[k])[b]} :: 0 <= b < |heads| && b !in s ==>
        Unhashed(heads, s[k])[b] == heads[b]
  {
    WithoutHas(s, k);
    ChainAt(heads, first, s, k);
    var t, u := Without(s, k), Unhashed(heads, s[k]);
    forall i | 0 <= i < |t|
      ensures ChainLink(u, t, i)
    {
      UnhashedLinks(heads, first, s, k, i);
    }
    assert |t| > 0 ==> t[0] == s[if k == 0 then 1 else 0];
    assert k > 0 ==> s[0] != s[k] && s[k - 1] in s;
    assert k + 1 < |s| ==> s[k + 1] in s;
    hide SetNext, SetPrev;
    UnhashedFrame(heads, s[k]);
  }

  lemma UnhashedLinks(heads: seq<Head>, first: int, s: seq<nat>, k: nat, i: nat)
    requires IsChain(heads, first, s) && k < |s| && i < |s| - 1 && s[k] < |heads| && heads[s[k]].next < |heads| &&
        heads[s[k]].prev < |heads|
    ensures ChainLink(Unhashed(heads, s[k]), Without(s, k), i)
  {
    var j := From(i, k);
    WithoutAt(s, k, i);
    if i + 1 < |s| - 1 { WithoutAt(s, k, i + 1); }
    if i > 0 { WithoutAt(s, k, i - 1); }
    hide Without;
    assert ChainLink(heads, s, k) && ChainLink(heads, s, j);
    assert j != k - 1 && k > 0 ==> s[j] != s[k - 1];
    assert j != k + 1 && k + 1 < |s| ==> s[j] != s[k + 1];
  }

  lemma UnhashedFrame(heads: seq<Head>, b: nat)
    requires b < |heads| && heads[b].next < |heads| && heads[b].prev < |heads|
    ensures SameButHash(heads, Unhashed(heads, b))
    ensures forall x {:trigger Unhashed(heads, b)[x]} ::
              0 <= x < |heads| && x != heads[b].next && x != heads[b].prev ==> Unhashed(heads, b)[x] == heads[x]
  {
  }

  /** A buffer that is in no chain has no links. */
  lemma NothingUnhashed(heads: seq<Head>, b: nat)
    requires b < |heads| && heads[b].next == NULL && heads[b].prev == NULL
    ensures Unhashed(heads, b) == heads
  {
  }

  /** Buffer `b` becomes the first of its chain.  Where the source writes through a null `b_next`, nothing
      happens here. */
  function Hashed(heads: seq<Head>, first: int, b: nat): seq<Head>
    requires b < |heads| && first < |heads|
  {
    SetPrev(SetNext(SetPrev(heads, b, NULL), b, first), first, b)
  }

  lemma ChainHashed(heads: seq<Head>, first: int, s: seq<nat>, b: nat)
    requires IsChain(heads, first, s) && b < |heads| && b !in s
    ensures first < |heads| && IsChain(Hashed(heads, first, b), b, [b] + s) &&
        SameButHash(heads, Hashed(heads, first, b))
    ensures forall x {:trigger Hashed(heads, first, b)[x]} :: 0 <= x < |heads| && x !in s && x != b ==>
        Hashed(heads, first, b)[x] == heads[x]
  {
    var t, u := [b] + s, Hashed(heads, first, b);
    forall i | 0 <= i < |t| ensures ChainLink(u, t, i) {
      if i > 0 {
        assert ChainLink(heads, s, i - 1) && t[i] == s[i - 1] && s[i - 1] in s;
        assert i > 1 ==> s[i - 1] != s[0] && t[i - 1] == s[i - 2];
      }
    }
  }

  /** A chain does not care about other buffers, nor about the links of the free list. */
  lemma ChainKept(heads: seq<Head>, heads': seq<Head>, first: int, s: seq<nat>)
    requires IsChain(heads, first, s) && |heads'| == |heads|
    requires forall b {:trigger heads'[b]} :: 0 <= b < |heads| && b in s ==>
        heads'[b].next == heads[b].next && heads'[b].prev == heads[b].prev
    ensures IsChain(heads', first, s)
  {
    forall i | 0 <= i < |s| ensures ChainLink(heads', s, i) {
      assert ChainLink(heads, s, i) && s[i] in s;
    }
  }

  lemma RingKept(heads: seq<Head>, heads': seq<Head>, first: int, r: seq<nat>)
    requires IsRing(heads, first, r) && |heads'| == |heads|
    requires forall b {:trigger heads'[b]} :: 0 <= b < |heads| ==>
        heads'[b].nextFree == heads[b].nextFree && heads'[b].prevFree == heads[b].prevFree
    ensures IsRing(heads', first, r)
  {
    forall i | 0 <= i < |r| ensures RingLink(heads', r, i) {
      assert RingLink(heads, r, i);
    }
  }
}
