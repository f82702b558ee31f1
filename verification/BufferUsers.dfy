/**
 Processes in the middle of buffer operations, and what every state between two sleeps satisfies.
 */
module BufferUsers {
  import opened BufferQueues
  import opened BufferStates
  import Seqs

  /** A buffer that a process has obtained for a block and not yet released. */
  datatype Grip = Grip(buf: nat, dev: Short, block: Short)

  /** Where a process sleeps, with its local variables. */
  datatype Place =
    | Ready                                                       // in no buffer operation
    | HashWait(dev: Short, block: Short, buf: nat)                // `wait_on_buffer` in get_hash_table
    | ScanWait(dev: Short, block: Short, tmp: nat)                // `wait_on_buffer` in getblk
    | FreeWait(dev: Short, block: Short)                          // `sleep_on(&buffer_wait)`
    | Syncing(dev: Short, block: Short, tmp: nat)                 // `sync_dev`
    | ReleaseWait(buf: nat)                                       // `wait_on_buffer` in brelse

  datatype Proc = Proc(at: Place, held: seq<Grip>)

  // ---------- References ----------

  function Grips(held: seq<Grip>, b: nat): nat {
    if held == [] then 0 else (if held[0].buf == b then 1 else 0) + Grips(held[1..], b)
  }

  function Ref(at: Place, b: nat): nat {
    match at
    case HashWait(_, _, x) => if x == b then 1 else 0
    case Syncing(_, _, x) => if x == b then 1 else 0
    case ReleaseWait(x) => if x == b then 1 else 0
    case _ => 0
  }

  function RefsOf(q: Proc, b: nat): nat {
    Grips(q.held, b) + Ref(q.at, b)
  }

  function Refs(procs: seq<Proc>, b: nat): nat {
    if procs == [] then 0 else RefsOf(procs[0], b) + Refs(procs[1..], b)
  }

  lemma {:induction false} RefsPut(procs: seq<Proc>, p: nat, q: Proc, b: nat)
    requires p < |procs|
    ensures Refs(procs[p := q], b) == Refs(procs, b) - RefsOf(procs[p], b) + RefsOf(q, b) &&
        RefsOf(procs[p], b) <= Refs(procs, b)
  {
    if p == 0 {
      assert procs[0 := q][1..] == procs[1..];
    } else {
      RefsPut(procs[1..], p - 1, q, b);
      assert procs[p := q][1..] == procs[1..][p - 1 := q];
    }
  }

  lemma {:induction false} GripsMore(held: seq<Grip>, g: Grip, b: nat)
    ensures Grips(held + [g], b) == Grips(held, b) + if g.buf == b then 1 else 0
  {
    if held == [] {
      assert held + [g] == [g] && [g][1..] == [];
    } else {
      assert (held + [g])[1..] == held[1..] + [g];
      GripsMore(held[1..], g, b);
    }
  }

  function Dropped(held: seq<Grip>, i: nat): seq<Grip>
    requires i < |held|
  {
    held[..i] + held[i + 1..]
  }

  lemma {:induction false} GripsLess(held: seq<Grip>, i: nat, b: nat)
    requires i < |held|
    ensures Grips(Dropped(held, i), b) == Grips(held, b) - if held[i].buf == b then 1 else 0
  {
    if i == 0 {
      assert Dropped(held, 0) == held[1..];
    } else {
      assert Dropped(held, i)[1..] == Dropped(held[1..], i - 1) && Dropped(held, i)[0] == held[0];
      GripsLess(held[1..], i - 1, b);
    }
  }

  lemma {:induction false} GripCounts(held: seq<Grip>, i: nat)
    requires i < |held|
    ensures Grips(held, held[i].buf) > 0
  {
    if i > 0 {
      GripCounts(held[1..], i - 1);
    }
  }

  // ---------- The invariant ----------

  ghost predicate GripOk(heads: seq<Head>, l: Lists, g: Grip) {
    g.buf < |heads| && g.buf in l.ring && IsBlock(heads[g.buf], g.dev, g.block)
  }

  ghost predicate TakerAt(l: Lists, p: nat, b: nat) {
    exists i :: 0 <= i < |l.taken| && i < |l.takers| && l.takers[i] == p && l.taken[i] == b
  }

  ghost predicate PlaceOk(heads: seq<Head>, l: Lists, p: nat, at: Place) {
    match at
    case HashWait(dev, block, b) => b < |heads| && b in l.ring && dev != 0 && IsBlock(heads[b], dev, block)
    case ScanWait(_, _, b) => b < |heads|
    case Syncing(_, _, b) => b < |heads| && TakerAt(l, p, b)
    case ReleaseWait(b) => b < |heads| && b in l.ring
    case _ => true
  }

  ghost predicate ProcOk(heads: seq<Head>, l: Lists, p: nat, q: Proc) {
    PlaceOk(heads, l, p, q.at) && forall i {:trigger q.held[i]} :: 0 <= i < |q.held| ==> GripOk(heads, l, q.held[i])
  }

  /** Each taken buffer has its process. */
  ghost predicate Manned(l: Lists, procs: seq<Proc>) {
    && |l.takers| == |l.taken| && Distinct(l.takers)
    && forall i {:trigger l.takers[i]} :: 0 <= i < |l.takers| ==>
         l.takers[i] < |procs| && procs[l.takers[i]].at.Syncing? && procs[l.takers[i]].at.tmp == l.taken[i]
  }

  ghost predicate Counted(heads: seq<Head>, l: Lists, procs: seq<Proc>) {
    && (forall b {:trigger heads[b]} :: 0 <= b < |heads| ==> heads[b].count == Refs(procs, b))
    && (forall b: nat {:trigger b in l.taken} :: b in l.taken && b < |heads| ==> heads[b].count == 1)
  }

  ghost predicate AllOk(heads: seq<Head>, l: Lists, procs: seq<Proc>) {
    forall p {:trigger procs[p]} :: 0 <= p < |procs| ==> ProcOk(heads, l, p, procs[p])
  }

  /** Every state between two sleeps.  There are more buffers than processes. */
  ghost predicate Inv(heads: seq<Head>, hash: seq<int>, free: int, l: Lists, procs: seq<Proc>) {
    Sound(heads, hash, free, l) && Manned(l, procs) && Counted(heads, l, procs) && AllOk(heads, l, procs) &&
        |procs| < |heads|
  }

  /** What a process holds or waits for with a reference is counted. */
  lemma RefsHeld(procs: seq<Proc>, p: nat, b: nat)
    requires p < |procs| && Refs(procs, b) == 0
    ensures Ref(procs[p].at, b) == 0 && forall i :: 0 <= i < |procs[p].held| ==> procs[p].held[i].buf != b
  {
    RefsPut(procs, p, procs[p], b);
    forall i | 0 <= i < |procs[p].held| ensures procs[p].held[i].buf != b {
      GripCounts(procs[p].held, i);
    }
  }

  // ---------- Steps that leave the lists alone ----------

  /** One process moves on, and counts and flags follow. */
  lemma Moved(heads: seq<Head>, hash: seq<int>, free: int, l: Lists, procs: seq<Proc>, p: nat, q: Proc,
      heads': seq<Head>)
    requires Inv(heads, hash, free, l, procs) && p < |procs| && SameLinks(heads, heads')
    requires q.at == procs[p].at || (!procs[p].at.Syncing? && !q.at.Syncing?)
    requires forall b {:trigger heads'[b]} :: 0 <= b < |heads| ==>
        heads'[b].count == heads[b].count - RefsOf(procs[p], b) + RefsOf(q, b)
    requires forall b: nat {:trigger b in l.taken} :: b in l.taken && b < |heads| ==> heads'[b].count == heads[b].count
    requires ProcOk(heads', l, p, q)
    ensures Inv(heads', hash, free, l, procs[p := q])
  {
    var procs' := procs[p := q];
    hide Sound;
    SoundSame(heads, hash, free, l, heads');
    forall b | 0 <= b < |heads| ensures heads'[b].count == Refs(procs', b) {
      RefsPut(procs, p, q, b);
      assert heads[b].count == Refs(procs, b) && heads'[b] == heads'[b];
    }
    forall i | 0 <= i < |procs| ensures ProcOk(heads', l, i, procs'[i]) {
      if i != p {
        OkSame(heads, l, i, procs[i], heads');
      }
    }
    MannedKept(l, procs, p, q);
  }

  lemma MannedKept(l: Lists, procs: seq<Proc>, p: nat, q: Proc)
    requires Manned(l, procs) && p < |procs| && (q.at == procs[p].at || (!procs[p].at.Syncing? && !q.at.Syncing?))
    ensures Manned(l, procs[p := q])
  {
    forall i | 0 <= i < |l.takers|
      ensures l.takers[i] < |procs| && procs[p := q][l.takers[i]].at.Syncing? &&
          procs[p := q][l.takers[i]].at.tmp == l.taken[i]
    {
      assert l.takers[i] == l.takers[i];
    }
  }

  lemma OkSame(heads: seq<Head>, l: Lists, p: nat, q: Proc, heads': seq<Head>)
    requires ProcOk(heads, l, p, q) && SameLinks(heads, heads')
    ensures ProcOk(heads', l, p, q)
  {
    forall i | 0 <= i < |q.held| ensures GripOk(heads', l, q.held[i]) {
      assert GripOk(heads, l, q.held[i]) && heads'[q.held[i].buf] == heads'[q.held[i].buf];
    }
    match q.at
    case HashWait(_, _, b) => assert heads'[b] == heads'[b];
    case _ =>
  }

  // ---------- Taking a buffer ----------

  /** A buffer that nobody uses is on the free list. */
  lemma UnusedIsFree(heads: seq<Head>, hash: seq<int>, free: int, l: Lists, procs: seq<Proc>, b: nat)
    requires Inv(heads, hash, free, l, procs) && b < |heads| && heads[b].count == 0
    ensures b in l.ring
  {
    assert b !in l.taken;
  }

  /** The numbers below `n`. */
  function Range(n: nat): (s: set<nat>)
    ensures |s| == n && forall x: nat :: x in s <==> x < n
  {
    if n == 0 then {} else Range(n - 1) + {n - 1}
  }

  lemma {:induction false} ElemsSize(s: seq<nat>)
    requires Distinct(s)
    ensures |Seqs.Elems(s)| == |s|
  {
    if s != [] {
      var t := s[..|s| - 1];
      ElemsSize(t);
      assert s == t + [s[|s| - 1]];
      assert Seqs.Elems(s) == Seqs.Elems(t) + {s[|s| - 1]};
      assert s[|s| - 1] !in t;
    }
  }

  /** More than one buffer is free while a process looks for one. */
  lemma TwoFree(heads: seq<Head>, hash: seq<int>, free: int, l: Lists, procs: seq<Proc>, p: nat)
    requires Inv(heads, hash, free, l, procs) && p < |procs| && !procs[p].at.Syncing?
    ensures |l.ring| > 1
  {
    FewTaken(l, procs, p);
    RingRest(|heads|, l);
  }

  lemma FewTaken(l: Lists, procs: seq<Proc>, p: nat)
    requires Manned(l, procs) && p < |procs| && !procs[p].at.Syncing?
    ensures |l.taken| < |procs|
  {
    ElemsSize(l.takers);
    assert Seqs.Elems(l.takers) <= Range(|procs|) - {p} by {
      forall x | x in l.takers ensures x < |procs| && x != p {
        var i :| 0 <= i < |l.takers| && l.takers[i] == x;
      }
    }
    Seqs.Smaller(Seqs.Elems(l.takers), Range(|procs|) - {p});
  }

  lemma RingRest(n: nat, l: Lists)
    requires Parted(n, l)
    ensures |l.ring| + |l.taken| >= n
  {
    ElemsSize(l.ring);
    ElemsSize(l.taken);
    assert Range(n) <= Seqs.Elems(l.ring) + Seqs.Elems(l.taken) by {
      forall x: nat | x < n ensures x in Seqs.Elems(l.ring) + Seqs.Elems(l.taken) {
        assert x in l.ring || x in l.taken;
      }
    }
    Seqs.Smaller(Range(n), Seqs.Elems(l.ring) + Seqs.Elems(l.taken));
    assert |Seqs.Elems(l.ring) + Seqs.Elems(l.taken)| <= |l.ring| + |l.taken|;
  }

  /** Processes do not care about a buffer that nobody refers to. */
  lemma OkTaken(heads: seq<Head>, l: Lists, p: nat, q: Proc, b: nat, heads': seq<Head>, l': Lists)
    requires ProcOk(heads, l, p, q) && |l.takers| == |l.taken| && |heads'| == |heads|
    requires Ref(q.at, b) == 0 && forall i :: 0 <= i < |q.held| ==> q.held[i].buf != b
    requires forall x {:trigger heads'[x]} :: 0 <= x < |heads| && x != b ==>
        IsBlock(heads'[x], heads[x].dev, heads[x].blocknr)
    requires forall x: nat {:trigger x in l'.ring} :: x in l.ring && x != b ==> x in l'.ring
    requires forall x: nat {:trigger TakerAt(l', p, x)} :: x != b && TakerAt(l, p, x) ==> TakerAt(l', p, x)
    ensures ProcOk(heads', l', p, q)
  {
    forall i | 0 <= i < |q.held| ensures GripOk(heads', l', q.held[i]) {
      assert GripOk(heads, l, q.held[i]) && heads'[q.held[i].buf] == heads'[q.held[i].buf];
    }
    match q.at
    case HashWait(_, _, x) => assert heads'[x] == heads'[x];
    case _ =>
  }

  function Used(heads: seq<Head>, b: nat): seq<Head>
    requires b < |heads|
  {
    heads[b := heads[b].(count := heads[b].count + 1)]
  }

  lemma Took(heads: seq<Head>, hash: seq<int>, free: int, l: Lists, procs: seq<Proc>, p: nat, dev: Short,
      block: Short, b: nat)
    requires Inv(heads, hash, free, l, procs) && p < |procs| && b < |heads| && heads[b].count == 0
    requires procs[p].at.Ready? || procs[p].at.ScanWait? || procs[p].at.FreeWait?
    ensures b in l.ring && |l.ring| > 1
    ensures var h0 := Used(heads, b);
            && h0[b].next < |heads| && h0[b].prev < |heads| && |Unhashed(h0, b)| == |heads|
            && 0 <= Unhashed(h0, b)[b].prevFree < |heads| && 0 <= Unhashed(h0, b)[b].nextFree < |heads|
            && Inv(Unlinked(Unhashed(h0, b), b), HashWithout(h0, hash, b), FreeWithout(Unhashed(h0, b), free, b),
                ListsWithout(h0, l, b, p),
                   procs[p := procs[p].(at := Syncing(dev, block, b))])
            && SameBlocks(h0, Unlinked(Unhashed(h0, b), b))
  {
    UnusedIsFree(heads, hash, free, l, procs, b);
    TwoFree(heads, hash, free, l, procs, p);
    var h0 := Used(heads, b);
    assert SameLinks(heads, h0);
    SoundSame(heads, hash, free, l, h0);
    Removed(h0, hash, free, l, b, p);
    TookUsers(heads, hash, free, l, procs, p, dev, block, b, Unlinked(Unhashed(h0, b), b), ListsWithout(h0, l, b, p));
  }

  lemma TookUsers(heads: seq<Head>, hash: seq<int>, free: int, l: Lists, procs: seq<Proc>, p: nat, dev: Short,
      block: Short, b: nat,
                  heads': seq<Head>, l': Lists)
    requires Inv(heads, hash, free, l, procs) && p < |procs| && b < |heads| && heads[b].count == 0 && b in l.ring
    requires procs[p].at.Ready? || procs[p].at.ScanWait? || procs[p].at.FreeWait?
    requires SameBlocks(Used(heads, b), heads') && l'.taken == l.taken + [b] && l'.takers == l.takers + [p]
    requires l'.ring == Without(l.ring, IndexIn(l.ring, b))
    ensures var procs' := procs[p := procs[p].(at := Syncing(dev, block, b))];
            Manned(l', procs') && Counted(heads', l', procs') && AllOk(heads', l', procs')
  {
    var q := procs[p].(at := Syncing(dev, block, b));
    WithoutHas(l.ring, IndexIn(l.ring, b));
    TookCounts(heads, l, procs, p, q, b, heads', l');
    TookManned(l, procs, p, q, b, l');
    TookOks(heads, l, procs, p, q, b, heads', l');
  }

  lemma TookCounts(heads: seq<Head>, l: Lists, procs: seq<Proc>, p: nat, q: Proc, b: nat, heads': seq<Head>, l': Lists)
    requires Counted(heads, l, procs) && p < |procs| && b < |heads| && heads[b].count == 0 &&
        SameBlocks(Used(heads, b), heads')
    requires l'.taken == l.taken + [b] && forall x: nat :: RefsOf(q, x) == RefsOf(procs[p], x) + if x == b then 1 else 0
    ensures Counted(heads', l', procs[p := q])
  {
    forall x | 0 <= x < |heads| ensures heads'[x].count == Refs(procs[p := q], x) {
      RefsPut(procs, p, q, x);
      assert heads[x].count == Refs(procs, x) && heads'[x] == heads'[x];
    }
    forall x: nat | x in l'.taken && x < |heads| ensures heads'[x].count == 1 {
      assert heads'[x] == heads'[x] && (x in l.taken || x == b);
    }
  }

  lemma TookManned(l: Lists, procs: seq<Proc>, p: nat, q: Proc, b: nat, l': Lists)
    requires Manned(l, procs) && p < |procs| && !procs[p].at.Syncing? && q.at.Syncing? && q.at.tmp == b
    requires l'.taken == l.taken + [b] && l'.takers == l.takers + [p]
    ensures Manned(l', procs[p := q])
  {
    forall i | 0 <= i < |l.takers| ensures l.takers[i] != p {
      assert procs[l.takers[i]].at.Syncing?;
    }
  }

  lemma TookOks(heads: seq<Head>, l: Lists, procs: seq<Proc>, p: nat, q: Proc, b: nat, heads': seq<Head>, l': Lists)
    requires AllOk(heads, l, procs) && p < |procs| && b < |heads| && heads[b].count == Refs(procs, b) == 0 &&
        SameBlocks(Used(heads, b), heads')
    requires l'.taken == l.taken + [b] && l'.takers == l.takers + [p] && |l.takers| == |l.taken|
    requires (forall x: nat {:trigger x in l'.ring} :: x in l.ring && x != b ==> x in l'.ring)
    requires q.held == procs[p].held && q.at.Syncing? && q.at.tmp == b
    ensures AllOk(heads', l', procs[p := q])
  {
    assert forall x {:trigger heads'[x]} :: 0 <= x < |heads| ==> IsBlock(heads'[x], heads[x].dev, heads[x].blocknr);
    var procs' := procs[p := q];
    forall i {:trigger procs'[i]} | 0 <= i < |procs| ensures ProcOk(heads', l', i, procs'[i]) {
      RefsHeld(procs, i, b);
      assert ProcOk(heads, l, i, procs[i]);
      TakersMore(l, i, l', p, b);
      OkTaken(heads, l, i, procs[i], b, heads', l');
    }
  }

  lemma TakersMore(l: Lists, i: nat, l': Lists, p: nat, b: nat)
    requires l'.taken == l.taken + [b] && l'.takers == l.takers + [p] && |l.takers| == |l.taken|
    ensures forall x: nat {:trigger TakerAt(l', i, x)} :: TakerAt(l, i, x) ==> TakerAt(l', i, x)
    ensures TakerAt(l', p, b)
  {
    forall x: nat | TakerAt(l, i, x) ensures TakerAt(l', i, x) {
      var j :| 0 <= j < |l.taken| && j < |l.takers| && l.takers[j] == i && l.taken[j] == x;
      assert l'.takers[j] == i && l'.taken[j] == x;
    }
    assert l'.takers[|l.takers|] == p && l'.taken[|l.taken|] == b;
  }

  // ---------- Giving a taken buffer back ----------

  /** The process has the buffer for its block, or has lost it. */
  ghost predicate Outcome(old_: Proc, q: Proc, b: nat, x: Head) {
    || (x.count == 1 && q == Proc(Ready, old_.held + [Grip(b, x.dev, x.blocknr)]))
    || (x.count == 0 && q.held == old_.held && q.at.FreeWait?)
  }

  lemma OutcomeRefs(old_: Proc, q: Proc, b: nat, x: Head, y: nat)
    requires Outcome(old_, q, b, x) && old_.at.Syncing? && old_.at.tmp == b
    ensures RefsOf(q, y) == if y == b then RefsOf(old_, y) - 1 + x.count else RefsOf(old_, y)
  {
    GripsMore(old_.held, Grip(b, x.dev, x.blocknr), y);
  }

  lemma Gave(heads: seq<Head>, hash: seq<int>, free: int, l: Lists, procs: seq<Proc>, p: nat, b: nat, t: nat, x: Head,
      q: Proc)
    requires Inv(heads, hash, free, l, procs) && p < |procs| && b < |heads| && procs[p].at.Syncing? &&
        procs[p].at.tmp == b
    requires t < |l.taken| == |l.takers| && l.takers[t] == p && l.taken[t] == b
    requires x.nextFree == heads[b].nextFree && Absent(heads[b := x], l, x.dev, x.blocknr) && Outcome(procs[p], q, b, x)
    ensures var h1 := heads[b := x];
            && 0 <= free < |heads| && 0 <= h1[free].prevFree < |heads| && |hash| == NR_HASH && hash[HashOf(x)] < |heads|
            && |l.chains| == NR_HASH
            && Inv(Inserted(h1, hash, free, b), HashWith(h1, hash, b), free, ListsWith(h1, l, b, t), procs[p := q])
            && SameBlocks(h1, Inserted(h1, hash, free, b))
  {
    var h1 := heads[b := x];
    assert b in l.taken;
    SoundTaken(heads, hash, free, l, b, x);
    Replaced(h1, hash, free, l, b, t);
    var heads', l' := Inserted(h1, hash, free, b), ListsWith(h1, l, b, t);
    GaveCounts(heads, hash, free, l, procs, p, b, t, x, q, heads', l');
    GaveManned(l, procs, p, b, t, q, l');
    GaveOks(heads, hash, free, l, procs, p, b, t, x, q, heads', l');
  }

  lemma GaveCounts(heads: seq<Head>, hash: seq<int>, free: int, l: Lists, procs: seq<Proc>, p: nat, b: nat, t: nat,
      x: Head, q: Proc,
                   heads': seq<Head>, l': Lists)
    requires Inv(heads, hash, free, l, procs) && p < |procs| && b < |heads| && procs[p].at.Syncing? &&
        procs[p].at.tmp == b
    requires t < |l.taken| && l.taken[t] == b && l'.taken == Without(l.taken, t) && Outcome(procs[p], q, b, x) &&
        SameBlocks(heads[b := x], heads')
    ensures Counted(heads', l', procs[p := q])
  {
    WithoutHas(l.taken, t);
    assert b in l.taken && heads[b].count == 1;
    forall y | 0 <= y < |heads| ensures heads'[y].count == Refs(procs[p := q], y) {
      RefsPut(procs, p, q, y);
      OutcomeRefs(procs[p], q, b, x, y);
      assert heads[y].count == Refs(procs, y) && heads'[y] == heads'[y];
    }
    forall y: nat | y in l'.taken && y < |heads| ensures heads'[y].count == 1 {
      assert heads'[y] == heads'[y] && y in l.taken && y != b;
    }
  }

  lemma GaveManned(l: Lists, procs: seq<Proc>, p: nat, b: nat, t: nat, q: Proc, l': Lists)
    requires Manned(l, procs) && p < |procs| && t < |l.taken| && l.takers[t] == p && !q.at.Syncing?
    requires l'.taken == Without(l.taken, t) && l'.takers == Without(l.takers, t)
    ensures Manned(l', procs[p := q])
  {
    WithoutHas(l.takers, t);
    forall i | 0 <= i < |l'.takers|
      ensures l'.takers[i] < |procs| && procs[p := q][l'.takers[i]].at.Syncing? &&
          procs[p := q][l'.takers[i]].at.tmp == l'.taken[i]
    {
      WithoutAt(l.takers, t, i);
      WithoutAt(l.taken, t, i);
      assert l.takers[From(i, t)] != p;
    }
  }

  lemma GaveOks(heads: seq<Head>, hash: seq<int>, free: int, l: Lists, procs: seq<Proc>, p: nat, b: nat, t: nat,
      x: Head, q: Proc,
                heads': seq<Head>, l': Lists)
    requires Inv(heads, hash, free, l, procs) && p < |procs| && b < |heads| && procs[p].at.Syncing? &&
        procs[p].at.tmp == b
    requires t < |l.taken| && l.takers[t] == p && l.taken[t] == b && Outcome(procs[p], q, b, x) &&
        SameBlocks(heads[b := x], heads')
    requires l'.ring == l.ring + [b] && l'.taken == Without(l.taken, t) && l'.takers == Without(l.takers, t)
    ensures AllOk(heads', l', procs[p := q])
  {
    assert b in l.taken && b !in l.ring;
    hide IsRing, Chained, Unique, Stale, Counted;
    var procs' := procs[p := q];
    forall i {:trigger procs'[i]} | 0 <= i < |procs| ensures ProcOk(heads', l', i, procs'[i]) {
      assert ProcOk(heads, l, i, procs[i]);
      if i != p {
        GaveOther(heads, l, i, procs[i], p, b, t, x, heads', l');
      } else {
        GaveSelf(heads, l, p, procs[p], q, b, x, heads', l');
      }
    }
  }

  lemma GaveOther(heads: seq<Head>, l: Lists, i: nat, o: Proc, p: nat, b: nat, t: nat, x: Head, heads': seq<Head>,
      l': Lists)
    requires ProcOk(heads, l, i, o) && i != p && b < |heads| && b !in l.ring && t < |l.taken| == |l.takers| &&
        l.takers[t] == p && l.taken[t] == b
    requires SameBlocks(heads[b := x], heads') && l'.ring == l.ring + [b] && l'.taken == Without(l.taken, t) &&
        l'.takers == Without(l.takers, t)
    ensures ProcOk(heads', l', i, o)
  {
    forall j | 0 <= j < |o.held| ensures GripOk(heads', l', o.held[j]) {
      assert GripOk(heads, l, o.held[j]) && heads'[o.held[j].buf] == heads'[o.held[j].buf];
    }
    match o.at
    case HashWait(_, _, y) => assert heads'[y] == heads'[y];
    case Syncing(_, _, y) =>
      var j :| 0 <= j < |l.taken| && j < |l.takers| && l.takers[j] == i && l.taken[j] == y;
      var j' := if j < t then j else j - 1;
      WithoutAt(l.takers, t, j');
      WithoutAt(l.taken, t, j');
      assert l'.takers[j'] == i && l'.taken[j'] == y;
    case _ =>
  }

  lemma GaveSelf(heads: seq<Head>, l: Lists, p: nat, o: Proc, q: Proc, b: nat, x: Head, heads': seq<Head>, l': Lists)
    requires ProcOk(heads, l, p, o) && b < |heads| && b !in l.ring && Outcome(o, q, b, x) &&
        SameBlocks(heads[b := x], heads') && l'.ring == l.ring + [b]
    ensures ProcOk(heads', l', p, q)
  {
    forall j | 0 <= j < |q.held| ensures GripOk(heads', l', q.held[j]) {
      if j < |o.held| {
        assert q.held[j] == o.held[j] && GripOk(heads, l, o.held[j]) && heads'[o.held[j].buf] == heads'[o.held[j].buf];
      } else {
        assert heads'[b] == heads'[b];
      }
    }
  }

  // ---------- What a step of one process may change ----------

  /** The process has no reference of its own. */
  predicate Loose(at: Place) {
    at.Ready? || at.ScanWait? || at.FreeWait?
  }

  ghost predicate Others(procs: seq<Proc>, procs': seq<Proc>, p: nat) {
    |procs'| == |procs| && forall q {:trigger procs'[q]} :: 0 <= q < |procs| && q != p ==> procs'[q] == procs[q]
  }

  predicate Seeks(at: Place, dev: Short, block: Short) {
    match at
    case Ready => false
    case HashWait(d, b, _) => d == dev && b == block
    case ScanWait(d, b, _) => d == dev && b == block
    case FreeWait(d, b) => d == dev && b == block
    case Syncing(d, b, _) => d == dev && b == block
    case ReleaseWait(_) => false
  }

  /** The process has got the block in a buffer, or sleeps and still wants it. */
  predicate Pursues(o: Proc, q: Proc, dev: Short, block: Short) {
    || (q.held == o.held && Seeks(q.at, dev, block))
    || (q.at.Ready? && |q.held| == |o.held| + 1 && q.held == o.held + [Grip(q.held[|o.held|].buf, dev, block)])
  }

  /** A buffer in use keeps its block, unless process `p` is reusing it. */
  ghost predicate Steady(heads: seq<Head>, procs: seq<Proc>, p: nat, heads': seq<Head>) {
    && |heads'| == |heads| && p < |procs|
    && (forall b {:trigger heads'[b]} :: 0 <= b < |heads| && heads[b].count > 0 && !Reusing(procs[p].at, b) ==>
         IsBlock(heads'[b], heads[b].dev, heads[b].blocknr))
  }

  predicate Reusing(at: Place, b: nat) {
    at.Syncing? && at.tmp == b
  }

  ghost predicate Grown(heads: seq<Head>, heads': seq<Head>) {
    |heads'| == |heads| && forall b {:trigger heads'[b]} :: 0 <= b < |heads| ==> heads'[b].count >= heads[b].count
  }

  lemma SteadySelf(heads: seq<Head>, procs: seq<Proc>, p: nat)
    requires p < |procs|
    ensures Steady(heads, procs, p, heads)
  {
  }

  lemma SameSteady(heads: seq<Head>, procs: seq<Proc>, p: nat, heads': seq<Head>)
    requires SameLinks(heads, heads') && p < |procs|
    ensures Steady(heads, procs, p, heads')
  {
  }

  lemma SameLinksSelf(heads: seq<Head>)
    ensures SameLinks(heads, heads)
  {
  }

  lemma TakenSteady(h0: seq<Head>, h1: seq<Head>, heads: seq<Head>, procs0: seq<Proc>, p: nat, tmp: nat)
    requires tmp < |h0| && h1 == Used(h0, tmp) && SameBlocks(h1, heads) && p < |procs0|
    ensures Steady(h0, procs0, p, heads) && Grown(h0, heads)
  {
    forall b | 0 <= b < |h0| ensures IsBlock(heads[b], h0[b].dev, h0[b].blocknr) && heads[b].count >= h0[b].count {
      assert heads[b] == heads[b];
    }
  }

  lemma TakenPursues(o: Proc, dev: Short, block: Short, tmp: nat)
    ensures Pursues(o, Proc(Syncing(dev, block, tmp), o.held), dev, block)
  {
  }

  lemma SteadyTwice(h0: seq<Head>, procs0: seq<Proc>, h2: seq<Head>, procs2: seq<Proc>, p: nat, heads: seq<Head>,
      tmp: nat)
    requires Steady(h0, procs0, p, h2) && Grown(h0, h2) && Steady(h2, procs2, p, heads) && tmp < |h0| &&
        h0[tmp].count == 0
    requires p < |procs0| && !procs0[p].at.Syncing? && procs2[p].at.Syncing? && procs2[p].at.tmp == tmp
    ensures Steady(h0, procs0, p, heads)
  {
    forall b | 0 <= b < |h0| && h0[b].count > 0 ensures IsBlock(heads[b], h0[b].dev, h0[b].blocknr) {
      assert h2[b] == h2[b] && heads[b] == heads[b];
    }
  }

  lemma PursuesTwice(procs0: seq<Proc>, procs2: seq<Proc>, procs: seq<Proc>, p: nat, dev: Short, block: Short)
    requires Others(procs0, procs2, p) && Others(procs2, procs, p) && p < |procs0|
    requires procs2[p].held == procs0[p].held && Pursues(procs2[p], procs[p], dev, block)
    ensures Others(procs0, procs, p) && Pursues(procs0[p], procs[p], dev, block)
  {
    forall q | 0 <= q < |procs0| && q != p ensures procs[q] == procs0[q] {
      assert procs[q] == procs[q] && procs2[q] == procs2[q];
    }
  }

  lemma InsertedSteady(h0: seq<Head>, h1: seq<Head>, heads: seq<Head>, procs0: seq<Proc>, p: nat, tmp: nat)
    requires tmp < |h0| && |h1| == |h0| && h1 == h0[tmp := h1[tmp]] && SameBlocks(h1, heads) && p < |procs0|
    requires procs0[p].at.Syncing? && procs0[p].at.tmp == tmp
    ensures Steady(h0, procs0, p, heads)
  {
    forall b | 0 <= b < |h0| && b != tmp ensures IsBlock(heads[b], h0[b].dev, h0[b].blocknr) {
      assert heads[b] == heads[b] && h1[b] == h0[b];
    }
  }

  lemma InsertedPursues(procs0: seq<Proc>, p: nat, q: Proc)
    requires p < |procs0| && procs0[p].at.Syncing? &&
        q == Proc(Ready, procs0[p].held + [Grip(procs0[p].at.tmp, procs0[p].at.dev, procs0[p].at.block)])
    ensures Others(procs0, procs0[p := q], p) && Pursues(procs0[p], q, procs0[p].at.dev, procs0[p].at.block) &&
        procs0[p := q][p] == q && q.at.Ready?
  {
  }

  lemma AgainSteady(h0: seq<Head>, procs0: seq<Proc>, h2: seq<Head>, p: nat, heads: seq<Head>)
    requires Steady(h0, procs0, p, h2) && SameLinks(h2, heads)
    ensures Steady(h0, procs0, p, heads)
  {
    forall b | 0 <= b < |h0| && h0[b].count > 0 && !(procs0[p].at.Syncing? && procs0[p].at.tmp == b)
      ensures IsBlock(heads[b], h0[b].dev, h0[b].blocknr)
    {
      assert h2[b] == h2[b] && heads[b] == heads[b];
    }
  }

  lemma Replacing(procs: seq<Proc>, p: nat, q: Proc)
    requires p < |procs|
    ensures Others(procs, procs[p := q], p) && |procs[p := q]| == |procs| && procs[p := q][p] == q
  {
  }

  // ---------- The steps, with the invariant ----------

  lemma MovedAway(heads: seq<Head>, hash: seq<int>, free: int, l: Lists, procs: seq<Proc>, p: nat, at: Place)
    requires Inv(heads, hash, free, l, procs) && p < |procs| && Loose(procs[p].at) && Loose(at) &&
        PlaceOk(heads, l, p, at)
    ensures Inv(heads, hash, free, l, procs[p := procs[p].(at := at)])
  {
    assert ProcOk(heads, l, p, procs[p]);
    assert forall b: nat :: RefsOf(procs[p].(at := at), b) == RefsOf(procs[p], b);
    hide Sound;
    Moved(heads, hash, free, l, procs, p, procs[p].(at := at), heads);
  }

  lemma PresentAt(heads: seq<Head>, l: Lists, dev: Short, block: Short, b: nat)
    requires b < |heads| && b in l.ring && dev != 0 && IsBlock(heads[b], dev, block)
    ensures !Absent(heads, l, dev, block)
  {
  }

  lemma Referenced(heads: seq<Head>, hash: seq<int>, free: int, l: Lists, procs: seq<Proc>, p: nat, dev: Short,
      block: Short, b: nat)
    requires Inv(heads, hash, free, l, procs) && p < |procs| && Loose(procs[p].at)
    requires b < |heads| && b in l.ring && dev != 0 && IsBlock(heads[b], dev, block)
    ensures var heads' := heads[b := heads[b].(count := heads[b].count + 1)];
            SameLinks(heads, heads') && Inv(heads', hash, free, l, procs[p := procs[p].(at := HashWait(dev, block, b))])
  {
    var heads' := heads[b := heads[b].(count := heads[b].count + 1)];
    assert b !in l.taken;
    hide Sound;
    assert ProcOk(heads, l, p, procs[p]);
    OkSame(heads, l, p, procs[p], heads');
    Moved(heads, hash, free, l, procs, p, procs[p].(at := HashWait(dev, block, b)), heads');
  }

  lemma GotHold(heads: seq<Head>, hash: seq<int>, free: int, l: Lists, procs: seq<Proc>, p: nat)
    requires Inv(heads, hash, free, l, procs) && p < |procs| && procs[p].at.HashWait?
    ensures var at := procs[p].at;
            && at.buf < |heads| && IsBlock(heads[at.buf], at.dev, at.block)
            && Inv(heads, hash, free, l, procs[p := Proc(Ready, procs[p].held + [Grip(at.buf, at.dev, at.block)])])
  {
    hide Sound;
    var at := procs[p].at;
    var g := Grip(at.buf, at.dev, at.block);
    var q := Proc(Ready, procs[p].held + [g]);
    assert ProcOk(heads, l, p, procs[p]);
    forall b: nat ensures RefsOf(q, b) == RefsOf(procs[p], b) {
      GripsMore(procs[p].held, g, b);
    }
    assert ProcOk(heads, l, p, q) by {
      forall i | 0 <= i < |q.held| ensures GripOk(heads, l, q.held[i]) {
        assert i < |procs[p].held| ==> q.held[i] == procs[p].held[i];
      }
    }
    Moved(heads, hash, free, l, procs, p, q, heads);
  }

  lemma LetGo(heads: seq<Head>, hash: seq<int>, free: int, l: Lists, procs: seq<Proc>, p: nat, i: nat)
    requires Inv(heads, hash, free, l, procs) && p < |procs| && procs[p].at.Ready? && i < |procs[p].held|
    ensures var b := procs[p].held[i].buf;
            b < |heads| && Inv(heads, hash, free, l, procs[p := Proc(ReleaseWait(b), Dropped(procs[p].held, i))])
  {
    hide Sound;
    var held := procs[p].held;
    var q := Proc(ReleaseWait(held[i].buf), Dropped(held, i));
    assert ProcOk(heads, l, p, procs[p]);
    assert GripOk(heads, l, held[i]);
    forall b: nat ensures RefsOf(q, b) == RefsOf(procs[p], b) {
      GripsLess(held, i, b);
    }
    assert ProcOk(heads, l, p, q) by {
      forall j | 0 <= j < |q.held| ensures GripOk(heads, l, q.held[j]) {
        assert q.held[j] == held[if j < i then j else j + 1];
      }
    }
    Moved(heads, hash, free, l, procs, p, q, heads);
  }

  lemma Unreferenced(heads: seq<Head>, hash: seq<int>, free: int, l: Lists, procs: seq<Proc>, p: nat)
    requires Inv(heads, hash, free, l, procs) && p < |procs| && procs[p].at.ReleaseWait?
    ensures var b := procs[p].at.buf;
            b < |heads| && heads[b].count > 0 &&
            var heads' := heads[b := heads[b].(count := heads[b].count - 1)];
            SameLinks(heads, heads') && Inv(heads', hash, free, l, procs[p := procs[p].(at := Ready)])
  {
    var b := procs[p].at.buf;
    assert ProcOk(heads, l, p, procs[p]);
    assert b !in l.taken;
    hide Sound;
    RefsPut(procs, p, procs[p], b);
    assert heads[b].count == Refs(procs, b);
    var heads' := heads[b := heads[b].(count := heads[b].count - 1)];
    OkSame(heads, l, p, procs[p], heads');
    Moved(heads, hash, free, l, procs, p, procs[p].(at := Ready), heads');
  }

  predicate Linkable(heads: seq<Head>, b: nat) {
    && b < |heads| && heads[b].next < |heads| && heads[b].prev < |heads|
    && |Unhashed(heads, b)| == |heads| && 0 <= Unhashed(heads, b)[b].prevFree < |heads| &&
        0 <= Unhashed(heads, b)[b].nextFree < |heads|
  }

  /** The buffers and the head of the free list after `remove_from_queues`. */
  function Off(heads: seq<Head>, b: nat): seq<Head> {
    if Linkable(heads, b) then Unlinked(Unhashed(heads, b), b) else heads
  }

  function OffFree(heads: seq<Head>, free: int, b: nat): int {
    if Linkable(heads, b) then FreeWithout(Unhashed(heads, b), free, b) else free
  }

  lemma TakeReady(heads: seq<Head>, hash: seq<int>, free: int, l: Lists, procs: seq<Proc>, p: nat, dev: Short,
      block: Short, b: nat)
    requires Inv(heads, hash, free, l, procs) && p < |procs| && b < |heads| && heads[b].count == 0 && Loose(procs[p].at)
    ensures b in l.ring && |l.ring| > 1 && |l.chains| == NR_HASH && !procs[p].at.Syncing? && |hash| == NR_HASH
    ensures var h1 := Used(heads, b);
            && Sound(h1, hash, free, l) && |h1| == |heads|
            && Inv(Off(h1, b), HashWithout(h1, hash, b), OffFree(h1, free, b), ListsWithout(h1, l, b, p),
                   procs[p := Proc(Syncing(dev, block, b), procs[p].held)])
            && SameBlocks(h1, Off(h1, b)) && Distinct(l.ring)
            && ListsWithout(h1, l, b, p).ring == Without(l.ring, IndexIn(l.ring, b))
  {
    Took(heads, hash, free, l, procs, p, dev, block, b);
    var h1 := Used(heads, b);
    assert SameLinks(heads, h1);
    SoundSame(heads, hash, free, l, h1);
    assert Linkable(h1, b);
  }

  /** The place of a buffer that process `p` has taken. */
  lemma TakenBy(heads: seq<Head>, hash: seq<int>, free: int, l: Lists, procs: seq<Proc>, p: nat) returns (t: nat)
    requires Inv(heads, hash, free, l, procs) && p < |procs| && procs[p].at.Syncing?
    ensures t < |l.taken| == |l.takers| && l.takers[t] == p && l.taken[t] == procs[p].at.tmp &&
        procs[p].at.tmp < |heads| && procs[p].at.tmp in l.taken
  {
    assert ProcOk(heads, l, p, procs[p]);
    assert TakerAt(l, p, procs[p].at.tmp);
    t :| 0 <= t < |l.taken| && t < |l.takers| && l.takers[t] == p && l.taken[t] == procs[p].at.tmp;
  }

  lemma RenamedSound(heads: seq<Head>, hash: seq<int>, free: int, l: Lists, procs: seq<Proc>, b: nat, x: Head)
    requires Inv(heads, hash, free, l, procs) && b in l.taken && b < |heads| && x.nextFree == heads[b].nextFree
    ensures Sound(heads[b := x], hash, free, l)
  {
    SoundTaken(heads, hash, free, l, b, x);
  }

  lemma InsertReady(h0: seq<Head>, hash: seq<int>, free: int, l: Lists, procs: seq<Proc>, p: nat, b: nat, t: nat,
      h1: seq<Head>, q: Proc)
    requires Inv(h0, hash, free, l, procs) && p < |procs| && procs[p].at.Syncing? && procs[p].at.tmp == b && b < |h0|
    requires t < |l.taken| == |l.takers| && l.takers[t] == p && l.taken[t] == b
    requires var at := procs[p].at;
             h1 == h0[b := h0[b].(dev := at.dev, blocknr := at.block, dirt := false, uptodate := false)] &&
                 Absent(h1, l, at.dev, at.block)
    requires q == Proc(Ready, procs[p].held + [Grip(b, procs[p].at.dev, procs[p].at.block)])
    ensures Sound(h1, hash, free, l) && Absent(h1, l, h1[b].dev, h1[b].blocknr) && |h1| == |h0|
    ensures 0 <= free < |h1| && 0 <= h1[free].prevFree < |h1| && |hash| == NR_HASH && hash[HashOf(h1[b])] < |h1| &&
        |l.chains| == NR_HASH
    ensures Inv(Inserted(h1, hash, free, b), HashWith(h1, hash, b), free, ListsWith(h1, l, b, t), procs[p := q])
    ensures SameBlocks(h1, Inserted(h1, hash, free, b)) && ListsWith(h1, l, b, t).ring == l.ring + [b] &&
        b !in l.ring && h0[b].count == 1
  {
    var x := h0[b].(dev := procs[p].at.dev, blocknr := procs[p].at.block, dirt := false, uptodate := false);
    assert b in l.taken && h0[b].count == 1;
    RenamedSound(h0, hash, free, l, procs, b, x);
    Gave(h0, hash, free, l, procs, p, b, t, x, q);
  }

  lemma BeatenReady(h0: seq<Head>, hash: seq<int>, free: int, l: Lists, procs: seq<Proc>, p: nat, b: nat, t: nat,
      h1: seq<Head>, h2: seq<Head>, q: Proc,
                    dev: Short, block: Short)
    requires Inv(h0, hash, free, l, procs) && p < |procs| && procs[p].at.Syncing? && procs[p].at.tmp == b && b < |h0|
    requires t < |l.taken| == |l.takers| && l.takers[t] == p && l.taken[t] == b
    requires |h1| == |h0| && h1 == h0[b := h1[b]] && h1[b].nextFree == h0[b].nextFree &&
        h2 == h1[b := h1[b].(dev := 0, blocknr := 0, count := 0)]
    requires !Absent(h1, l, dev, block) && q == procs[p].(at := FreeWait(dev, block))
    ensures Sound(h2, hash, free, l) && Absent(h2, l, h2[b].dev, h2[b].blocknr) && |h2| == |h0| && Loose(q.at)
    ensures 0 <= free < |h2| && 0 <= h2[free].prevFree < |h2| && |hash| == NR_HASH && hash[HashOf(h2[b])] < |h2| &&
        |l.chains| == NR_HASH
    ensures Inv(Inserted(h2, hash, free, b), HashWith(h2, hash, b), free, ListsWith(h2, l, b, t), procs[p := q])
    ensures SameBlocks(h2, Inserted(h2, hash, free, b)) &&
        !Absent(Inserted(h2, hash, free, b), ListsWith(h2, l, b, t), dev, block)
    ensures ListsWith(h2, l, b, t).ring == l.ring + [b] && b !in l.ring
  {
    var x := h1[b].(dev := 0, blocknr := 0, count := 0);
    assert h2 == h0[b := x] && b in l.taken;
    RenamedSound(h0, hash, free, l, procs, b, x);
    Gave(h0, hash, free, l, procs, p, b, t, x, q);
    var y: nat :| y in l.ring && y < |h1| && dev != 0 && IsBlock(h1[y], dev, block);
    assert y != b;
    var h3 := Inserted(h2, hash, free, b);
    assert h3[y] == h3[y] && y in ListsWith(h2, l, b, t).ring;
  }

  lemma InvSound(heads: seq<Head>, hash: seq<int>, free: int, l: Lists, procs: seq<Proc>)
    requires Inv(heads, hash, free, l, procs)
    ensures Sound(heads, hash, free, l)
  {
  }

  // ---------- The search of the free list ----------

  /** How far a buffer is from the end of the list; taken ones lead to later ones or onto the list. */
  function Far(l: Lists, b: nat): nat {
    if b in l.ring then |l.ring| - IndexIn(l.ring, b)
    else if b in l.taken then |l.ring| + |l.taken| - IndexIn(l.taken, b)
    else 0
  }

  predicate InUse(heads: seq<Head>, b: nat) {
    b < |heads| && heads[b].count > 0
  }

  lemma FarStart(heads: seq<Head>, hash: seq<int>, free: int, l: Lists)
    requires Sound(heads, hash, free, l)
    ensures |l.ring| > 0 && free == l.ring[0] && 0 <= free < |heads|
  {
  }

  lemma IndexUnique(s: seq<nat>, k: nat)
    requires Distinct(s) && k < |s|
    ensures s[k] in s && IndexIn(s, s[k]) == k
  {
    var i := IndexIn(s, s[k]);
    assert s[i] == s[k];
  }

  lemma FarNext(heads: seq<Head>, hash: seq<int>, free: int, l: Lists, b: nat, k: nat)
    requires Sound(heads, hash, free, l) && b < |heads|
    ensures var next := heads[b].nextFree;
            && 0 <= next < |heads| && (next != free ==> Far(l, next) < Far(l, b))
            && (k < |l.ring| && b == l.ring[k] ==>
                if next == free then k + 1 == |l.ring| else k + 1 < |l.ring| && next == l.ring[k + 1])
  {
    hide Chained, Unique;
    if b in l.ring {
      FarRing(heads, free, l, b, IndexIn(l.ring, b));
      if k < |l.ring| && b == l.ring[k] {
        IndexUnique(l.ring, k);
      }
    } else {
      assert b in l.taken;
      FarTaken(heads, l, b, IndexIn(l.taken, b));
    }
  }

  lemma FarRing(heads: seq<Head>, free: int, l: Lists, b: nat, k: nat)
    requires IsRing(heads, free, l.ring) && k < |l.ring| && b == l.ring[k]
    ensures b < |heads| && var next := heads[b].nextFree;
            && 0 <= next < |heads| && (next != free ==> Far(l, next) < Far(l, b))
            && (if next == free then k + 1 == |l.ring| else k + 1 < |l.ring| && next == l.ring[k + 1])
  {
    RingAt(heads, free, l.ring, k);
    IndexUnique(l.ring, k);
    var n := Nx(k, |l.ring|);
    IndexUnique(l.ring, n);
    assert n != 0 ==> l.ring[n] != l.ring[0];
  }

  lemma FarTaken(heads: seq<Head>, l: Lists, b: nat, i: nat)
    requires Stale(heads, l) && Parted(|heads|, l) && i < |l.taken| && b == l.taken[i] && b !in l.ring
    ensures b < |heads| && 0 <= heads[b].nextFree < |heads| && Far(l, heads[b].nextFree) < Far(l, b)
  {
    assert StaleAt(heads, l, i);
    IndexUnique(l.taken, i);
    var x := heads[b].nextFree;
    if x in l.ring {
      assert IndexIn(l.ring, x) < |l.ring|;
    } else {
      TailHas(l.taken, i + 1, x);
      var m :| i + 1 <= m < |l.taken| && l.taken[m] == x;
      IndexUnique(l.taken, m);
    }
  }

  lemma NoneFree(heads: seq<Head>, hash: seq<int>, free: int, l: Lists, procs: seq<Proc>)
    requires Inv(heads, hash, free, l, procs) && AllUsed(heads, l, 0, |l.ring|)
    ensures forall b {:trigger heads[b]} :: 0 <= b < |heads| ==> heads[b].count > 0
  {
    hide IsRing, Chained, Unique, Stale, Manned, AllOk;
    forall b: nat | b < |heads| ensures heads[b].count > 0 {
      if b in l.ring {
        var i :| 0 <= i < |l.ring| && l.ring[i] == b;
      } else {
        assert b in l.taken;
      }
    }
  }

  // ---------- What `getblk` does between two sleeps ----------

  /** The two agree but for their links. */
  predicate SameData(x: Head, y: Head) {
    x.dev == y.dev && x.blocknr == y.blocknr && x.uptodate == y.uptodate && x.dirt == y.dirt && x.count == y.count &&
    x.lock == y.lock
  }

  /** No buffers but these two have changed, apart from links. */
  ghost predicate Only(heads: seq<Head>, heads': seq<Head>, b: nat, c: nat) {
    |heads'| == |heads| && forall x {:trigger heads'[x]} :: 0 <= x < |heads| && x != b && x != c ==>
      SameData(heads[x], heads'[x])
  }

  predicate Carries(x: Head, dev: Short, block: Short, count: nat) {
    x.dev == dev && x.blocknr == block && !x.dirt && !x.uptodate && x.count == count
  }

  /** A buffer that can be found by this block. */
  predicate IsAt(heads: seq<Head>, l: Lists, b: nat, dev: Short, block: Short) {
    b in l.ring && b < |heads| && dev != 0 && IsBlock(heads[b], dev, block)
  }

  /** No other buffer than `b` can be found by this block. */
  ghost predicate Alone(heads: seq<Head>, l: Lists, b: nat, dev: Short, block: Short) {
    forall y: nat {:trigger IsAt(heads, l, y, dev, block)} :: IsAt(heads, l, y, dev, block) ==> y == b
  }

  /** The process found its block in buffer `y`: it counts as a user, and waits if the buffer is locked. */
  predicate Joins(heads: seq<Head>, l: Lists, q: Proc, y: nat, heads': seq<Head>, q': Proc, dev: Short, block: Short) {
    && IsAt(heads, l, y, dev, block) && |heads'| == |heads|
    && SameData(heads'[y], heads[y].(count := heads[y].count + 1))
    && q' == if heads[y].lock then q.(at := HashWait(dev, block, y)) else Proc(Ready, q.held + [Grip(y, dev, block)])
  }

  /** The block is in the cache, and the process shares its buffer. */
  ghost predicate Shared(heads: seq<Head>, l: Lists, q: Proc, heads': seq<Head>, q': Proc, dev: Short, block: Short) {
    exists y: nat {:trigger Joins(heads, l, q, y, heads', q', dev, block)} ::
      Joins(heads, l, q, y, heads', q', dev, block) && Only(heads, heads', y, y)
  }

  /** Buffer `b` carries the block now and belongs to the process.  If another buffer does, the process shares that
      one, and `b` is empty. */
  ghost predicate Reused(heads: seq<Head>, l: Lists, q: Proc, b: nat, heads': seq<Head>, q': Proc, dev: Short,
      block: Short) {
    && b < |heads| == |heads'|
    && if Alone(heads, l, b, dev, block) then
         && q' == Proc(Ready, q.held + [Grip(b, dev, block)])
         && Carries(heads'[b], dev, block, 1) && Only(heads, heads', b, b)
       else
         Carries(heads'[b], 0, 0, 0) && exists y: nat {:trigger Joins(heads, l, q, y, heads', q', dev, block)} ::
           y != b && Joins(heads, l, q, y, heads', q', dev, block) && Only(heads, heads', b, y)
  }

  /** Nobody uses the `i`-th buffer of the free list: the process waits for it, writes back what it holds, or reuses
      it at once, and then it is the last of the list. */
  ghost predicate Grabbed(heads: seq<Head>, l: Lists, q: Proc, i: nat, heads': seq<Head>, l': Lists, q': Proc,
      dev: Short, block: Short) {
    && i < |l.ring| && l.ring[i] < |heads| == |heads'|
    && var b := l.ring[i];
    && heads[b].count == 0
    && if heads[b].lock then
         q' == q.(at := ScanWait(dev, block, b)) && heads' == heads && l' == l
       else if heads[b].dirt then
         && q' == Proc(Syncing(dev, block, b), q.held) && l'.ring == Without(l.ring, i)
         && Only(heads, heads', b, b) && SameData(heads[b].(count := 1), heads'[b])
       else
         l'.ring == Without(l.ring, i) + [b] && Reused(heads, l, q, b, heads', q', dev, block)
  }

  ghost predicate AllUsed(heads: seq<Head>, l: Lists, k: nat, n: nat) {
    forall j {:trigger l.ring[j]} :: k <= j < n <= |l.ring| ==> InUse(heads, l.ring[j])
  }

  /** The search of the free list from its `k`-th buffer on: the first that nobody uses, or a sleep if all are used. */
  ghost predicate Searched(heads: seq<Head>, l: Lists, q: Proc, k: nat, heads': seq<Head>, l': Lists, q': Proc,
      dev: Short, block: Short) {
    || (exists i: nat {:trigger Grabbed(heads, l, q, i, heads', l', q', dev, block)} ::
          k <= i && AllUsed(heads, l, k, i) && Grabbed(heads, l, q, i, heads', l', q', dev, block))
    || (AllUsed(heads, l, k, |l.ring|) && q' == q.(at := FreeWait(dev, block)) && heads' == heads && l' == l)
  }

  /** `getblk` up to its next sleep. */
  ghost predicate Asked(heads: seq<Head>, l: Lists, q: Proc, heads': seq<Head>, l': Lists, q': Proc, dev: Short,
      block: Short) {
    if Absent(heads, l, dev, block) then Searched(heads, l, q, 0, heads', l', q', dev, block)
    else Shared(heads, l, q, heads', q', dev, block) && l' == l
  }

  /** What is left of `getblk` after `sync_dev`. */
  ghost predicate Finished(heads: seq<Head>, l: Lists, q: Proc, heads': seq<Head>, l': Lists, q': Proc) {
    && q.at.Syncing?
    && l'.ring == l.ring + [q.at.tmp] && Reused(heads, l, q, q.at.tmp, heads', q', q.at.dev, q.at.block)
  }

  /** `getblk` goes on behind buffer `b`, which it has waited for.  If the buffer has been taken meanwhile, its old
      link leads back to some place of the free list. */
  ghost predicate Continued(heads: seq<Head>, l: Lists, q: Proc, b: nat, heads': seq<Head>, l': Lists, q': Proc,
      dev: Short, block: Short) {
    exists k: nat {:trigger Searched(heads, l, q, k, heads', l', q', dev, block)} ::
      (b in l.ring ==> k == IndexIn(l.ring, b)) && Searched(heads, l, q, k, heads', l', q', dev, block)
  }

  /** What a process does when it is woken. */
  ghost predicate Resumed(heads: seq<Head>, l: Lists, q: Proc, heads': seq<Head>, l': Lists, q': Proc) {
    match q.at
    case Ready => Same(heads, l, q, heads', l', q')
    case HashWait(dev, block, b) =>
      && b < |heads| && heads' == heads && l' == l
      && q' == if heads[b].lock then q else Proc(Ready, q.held + [Grip(b, dev, block)])
    case ScanWait(dev, block, b) =>
      b < |heads| && if heads[b].lock then Same(heads, l, q, heads', l', q')
                     else Continued(heads, l, q, b, heads', l', q', dev, block)
    case FreeWait(dev, block) => Asked(heads, l, q, heads', l', q', dev, block)
    case Syncing(_, _, _) => Finished(heads, l, q, heads', l', q')
    case ReleaseWait(b) => LetLoose(heads, l, b, q.held, heads', l', q')
  }

  predicate Same(heads: seq<Head>, l: Lists, q: Proc, heads': seq<Head>, l': Lists, q': Proc) {
    heads' == heads && l' == l && q' == q
  }

  /** `brelse` up to its next sleep: a locked buffer is waited for, and then has one user less. */
  predicate LetLoose(heads: seq<Head>, l: Lists, b: nat, held: seq<Grip>, heads': seq<Head>, l': Lists, q': Proc) {
    && b < |heads| == |heads'| && l' == l
    && if heads[b].lock then
         heads' == heads && q' == Proc(ReleaseWait(b), held)
       else
         && heads[b].count == heads'[b].count + 1 && heads' == heads[b := heads[b].(count := heads'[b].count)]
         && q' == Proc(Ready, held)
  }

  lemma TakenOnly(heads: seq<Head>, heads': seq<Head>, b: nat)
    requires b < |heads| && SameBlocks(Used(heads, b), heads') && heads[b].count == 0
    ensures Only(heads, heads', b, b) && SameData(heads[b].(count := 1), heads'[b]) && heads'[b].dirt == heads[b].dirt
  {
    forall x | 0 <= x < |heads| && x != b ensures SameData(heads[x], heads'[x]) {
      assert heads'[x] == heads'[x];
    }
    assert heads'[b] == heads'[b];
  }

  lemma JoinsKept(heads: seq<Head>, l: Lists, q: Proc, y: nat, heads': seq<Head>, q': Proc, dev: Short, block: Short,
      h0: seq<Head>, l0: Lists, q0: Proc)
    requires Joins(heads, l, q, y, heads', q', dev, block) && |h0| == |heads| && SameData(h0[y], heads[y])
    requires y in l0.ring && q0.held == q.held
    ensures Joins(h0, l0, q0, y, heads', q', dev, block)
  {
  }

  /** The buffer that has been taken is none that the search for the block finds. */
  lemma AbsentAlone(heads: seq<Head>, l: Lists, b: nat, h2: seq<Head>, l2: Lists, dev: Short, block: Short)
    requires |h2| == |heads| && Only(heads, h2, b, b)
    requires forall x: nat {:trigger x in l2.ring} :: x in l2.ring <==> x in l.ring && x != b
    ensures Absent(h2, l2, dev, block) <==> Alone(heads, l, b, dev, block)
  {
    forall y: nat | y < |heads| && y != b ensures IsAt(h2, l2, y, dev, block) <==> IsAt(heads, l, y, dev, block) {
      assert h2[y] == h2[y] && (y in l2.ring <==> y in l.ring);
    }
    if Alone(heads, l, b, dev, block) {
      forall y: nat | y in l2.ring && y < |h2| ensures !(dev != 0 && IsBlock(h2[y], dev, block)) {
        assert IsAt(h2, l2, y, dev, block) <==> IsAt(heads, l, y, dev, block);
      }
    } else {
      var y: nat :| IsAt(heads, l, y, dev, block) && y != b;
      assert IsAt(h2, l2, y, dev, block);
    }
  }

  /** The buffer has its new block. */
  lemma FinishedAlone(h0: seq<Head>, l: Lists, q: Proc, h1: seq<Head>, heads': seq<Head>, l': Lists, q': Proc)
    requires q.at.Syncing? && q.at.tmp < |h0| && q.at.tmp !in l.ring && h0[q.at.tmp].count == 1
    requires h1 == h0[q.at.tmp := h0[q.at.tmp].(dev := q.at.dev, blocknr := q.at.block, dirt := false,
                 uptodate := false)]
    requires SameBlocks(h1, heads') && Absent(h1, l, q.at.dev, q.at.block) && l'.ring == l.ring + [q.at.tmp]
    requires q' == Proc(Ready, q.held + [Grip(q.at.tmp, q.at.dev, q.at.block)])
    ensures Finished(h0, l, q, heads', l', q')
  {
    var b := q.at.tmp;
    forall x | 0 <= x < |h0| ensures SameData(h1[x], heads'[x]) {
      assert heads'[x] == heads'[x];
    }
    forall y: nat ensures !IsAt(h0, l, y, q.at.dev, q.at.block) {
      assert y in l.ring ==> y != b;
    }
  }

  /** The buffer has been given up for the one that the second search finds. */
  lemma FinishedShared(h0: seq<Head>, l: Lists, q: Proc, h1: seq<Head>, h2: seq<Head>, l': Lists, q2: Proc,
      heads': seq<Head>, q': Proc)
    requires q.at.Syncing? && q.at.tmp < |h0| && q.at.tmp !in l.ring
    requires |h1| == |h0| && h1 == h0[q.at.tmp := h1[q.at.tmp]] && Carries(h1[q.at.tmp], 0, 0, 0)
    requires SameBlocks(h1, h2) && l'.ring == l.ring + [q.at.tmp] && q2.held == q.held
    requires Shared(h2, l', q2, heads', q', q.at.dev, q.at.block)
    ensures Finished(h0, l, q, heads', l', q')
  {
    var b, dev, block := q.at.tmp, q.at.dev, q.at.block;
    var y: nat :| Joins(h2, l', q2, y, heads', q', dev, block) && Only(h2, heads', y, y);
    assert y != b by { assert h2[b] == h2[b]; }
    assert y in l.ring;
    forall x | 0 <= x < |h0| ensures SameData(h1[x], h2[x]) {
      assert h2[x] == h2[x];
    }
    JoinsKept(h2, l', q2, y, heads', q', dev, block, h0, l, q);
    assert IsAt(h0, l, y, dev, block);
    forall x | 0 <= x < |h0| && x != b && x != y ensures SameData(h0[x], heads'[x]) {
      assert heads'[x] == heads'[x];
    }
    assert heads'[b] == heads'[b];
  }

  /** The free list begins with its first buffer. */
  lemma ListStart(heads: seq<Head>, hash: seq<int>, free: int, l: Lists, procs: seq<Proc>)
    requires Inv(heads, hash, free, l, procs)
    ensures 0 <= free < |heads| && free in l.ring && IndexIn(l.ring, free) == 0
  {
  }

  /** The search has come to buffer `b`, and has passed all from the `k0`-th to the `k`-th of the free list.  As long as
      it is on taken buffers it has passed none. */
  ghost predicate Passed(heads: seq<Head>, l: Lists, b: nat, k0: nat, k: nat) {
    && k0 <= k && AllUsed(heads, l, k0, k)
    && if b in l.ring then k < |l.ring| && b == l.ring[k] else k0 == k == 0
  }

  lemma PassedNone(heads: seq<Head>, l: Lists, b: nat) returns (k0: nat, k: nat)
    ensures Passed(heads, l, b, k0, k) && (b in l.ring ==> k0 == IndexIn(l.ring, b))
  {
    k := if b in l.ring then IndexIn(l.ring, b) else 0;
    k0 := k;
  }

  /** One buffer on; at the end all from the `k0`-th have been passed. */
  lemma PassedNext(heads: seq<Head>, hash: seq<int>, free: int, l: Lists, b: nat, k0: nat, k: nat)
      returns (k0': nat, k': nat)
    requires Sound(heads, hash, free, l) && b < |heads| && heads[b].count > 0 && Passed(heads, l, b, k0, k)
    ensures var next := heads[b].nextFree;
            && 0 <= next < |heads| && (next != free ==> Far(l, next) < Far(l, b))
            && (b in l.ring ==> k0' == k0 && next in l.ring)
            && if next == free then AllUsed(heads, l, k0', |l.ring|) else Passed(heads, l, next, k0', k')
  {
    FarNext(heads, hash, free, l, b, k);
    FarStart(heads, hash, free, l);
    hide Sound;
    var next := heads[b].nextFree;
    if b in l.ring {
      k0', k' := k0, k + 1;
    } else if next == free {
      k0', k' := |l.ring|, |l.ring|;
    } else {
      k0', k' := PassedNone(heads, l, next);
    }
  }

  /** The first buffer that nobody uses is where the search is now. */
  lemma FirstUnused(heads: seq<Head>, hash: seq<int>, free: int, l: Lists, procs: seq<Proc>, b: nat, k0: nat, k: nat)
    requires Inv(heads, hash, free, l, procs) && b < |heads| && heads[b].count == 0 && Passed(heads, l, b, k0, k)
    ensures b in l.ring && k0 <= k && AllUsed(heads, l, k0, k) && IndexIn(l.ring, b) == k
  {
    UnusedIsFree(heads, hash, free, l, procs, b);
    IndexUnique(l.ring, k);
  }

  lemma SearchedAt(heads: seq<Head>, l: Lists, q: Proc, k: nat, i: nat, heads': seq<Head>, l': Lists, q': Proc,
      dev: Short, block: Short)
    requires k <= i && AllUsed(heads, l, k, i) && Grabbed(heads, l, q, i, heads', l', q', dev, block)
    ensures Searched(heads, l, q, k, heads', l', q', dev, block)
  {
  }

  lemma SearchedAll(heads: seq<Head>, l: Lists, q: Proc, k: nat, q': Proc, dev: Short, block: Short)
    requires AllUsed(heads, l, k, |l.ring|) && q' == q.(at := FreeWait(dev, block))
    ensures Searched(heads, l, q, k, heads, l, q', dev, block)
  {
  }

  function Emptied(heads: seq<Head>, b: nat): seq<Head>
    requires b < |heads|
  {
    heads[b := heads[b].(dev := 0, blocknr := 0, count := 0)]
  }

  lemma AskedNew(heads: seq<Head>, l: Lists, q: Proc, k: nat, heads': seq<Head>, l': Lists, q': Proc, dev: Short,
      block: Short)
    requires Absent(heads, l, dev, block) && k == 0 && Searched(heads, l, q, k, heads', l', q', dev, block)
    ensures Asked(heads, l, q, heads', l', q', dev, block)
  {
  }

  lemma AskedOld(heads: seq<Head>, l: Lists, q: Proc, heads': seq<Head>, q': Proc, dev: Short, block: Short)
    requires Shared(heads, l, q, heads', q', dev, block)
    ensures Asked(heads, l, q, heads', l, q', dev, block)
  {
    var y: nat :| Joins(heads, l, q, y, heads', q', dev, block) && Only(heads, heads', y, y);
    PresentAt(heads, l, dev, block, y);
  }

  /** A buffer that has to be written back is taken first. */
  lemma GrabbedDirty(heads: seq<Head>, l: Lists, q: Proc, b: nat, heads': seq<Head>, l': Lists, q': Proc, dev: Short,
      block: Short)
    requires b in l.ring && b < |heads| && heads[b].count == 0 && !heads[b].lock && heads[b].dirt
    requires Only(heads, heads', b, b) && SameData(heads[b].(count := 1), heads'[b])
    requires l'.ring == Without(l.ring, IndexIn(l.ring, b)) && q' == Proc(Syncing(dev, block, b), q.held)
    ensures Grabbed(heads, l, q, IndexIn(l.ring, b), heads', l', q', dev, block)
  {
  }

  /** A clean buffer is taken and reused without a sleep. */
  lemma GrabbedClean(heads: seq<Head>, l: Lists, q: Proc, b: nat, h2: seq<Head>, l2: Lists, q2: Proc,
      heads': seq<Head>, l': Lists, q': Proc, dev: Short, block: Short)
    requires b in l.ring && b < |heads| && heads[b].count == 0 && !heads[b].lock && !heads[b].dirt && Distinct(l.ring)
    requires Only(heads, h2, b, b) && l2.ring == Without(l.ring, IndexIn(l.ring, b))
    requires q2 == Proc(Syncing(dev, block, b), q.held) && Finished(h2, l2, q2, heads', l', q')
    ensures Grabbed(heads, l, q, IndexIn(l.ring, b), heads', l', q', dev, block)
  {
    WithoutHas(l.ring, IndexIn(l.ring, b));
    AbsentAlone(heads, l, b, h2, l2, dev, block);
    AbsentAlone(h2, l2, b, h2, l2, dev, block);
    if Alone(h2, l2, b, dev, block) {
      OnlyTwice(heads, h2, heads', b, b);
    } else {
      var y: nat :| y != b && Joins(h2, l2, q2, y, heads', q', dev, block) && Only(h2, heads', b, y);
      assert h2[y] == h2[y] && y in l2.ring;
      JoinsKept(h2, l2, q2, y, heads', q', dev, block, heads, l, q);
      OnlyTwice(heads, h2, heads', b, y);
    }
  }

  lemma OnlyTwice(heads: seq<Head>, h2: seq<Head>, heads': seq<Head>, b: nat, y: nat)
    requires Only(heads, h2, b, b) && Only(h2, heads', b, y)
    ensures Only(heads, heads', b, y)
  {
    forall x | 0 <= x < |heads| && x != b && x != y ensures SameData(heads[x], heads'[x]) {
      assert h2[x] == h2[x] && heads'[x] == heads'[x];
    }
  }

  // ---------- Flags, and what the invariant means ----------

  lemma FlagsChanged(heads: seq<Head>, hash: seq<int>, free: int, l: Lists, procs: seq<Proc>, heads': seq<Head>)
    requires Inv(heads, hash, free, l, procs) && SameLinks(heads, heads')
    requires forall b {:trigger heads'[b]} :: 0 <= b < |heads| ==> heads'[b].count == heads[b].count
    ensures Inv(heads', hash, free, l, procs)
  {
    hide Sound;
    SoundSame(heads, hash, free, l, heads');
    forall b | 0 <= b < |heads| ensures heads'[b].count == Refs(procs, b) {
      assert heads[b].count == Refs(procs, b) && heads'[b] == heads'[b];
    }
    forall i | 0 <= i < |procs| ensures ProcOk(heads', l, i, procs[i]) {
      OkSame(heads, l, i, procs[i], heads');
    }
  }

  /** A buffer that can be found by its block. */
  ghost predicate IsHashed(heads: seq<Head>, l: Lists, b: nat) {
    b < |heads| && |l.chains| == NR_HASH && b in l.chains[HashOf(heads[b])]
  }

  /** In no reachable state do two buffers that can be found carry the same block. */
  lemma OneBuffer(heads: seq<Head>, hash: seq<int>, free: int, l: Lists, procs: seq<Proc>, a: nat, b: nat)
    requires Inv(heads, hash, free, l, procs) && IsHashed(heads, l, a) && IsHashed(heads, l, b)
    requires IsBlock(heads[b], heads[a].dev, heads[a].blocknr)
    ensures a == b
  {
    assert ChainHas(heads, l, HashOf(heads[a])) && ChainHas(heads, l, HashOf(heads[b]));
  }

  /** What processes hold carries the block they asked for, so they share one buffer for one block. */
  lemma HeldBlocks(heads: seq<Head>, hash: seq<int>, free: int, l: Lists, procs: seq<Proc>, p: nat, i: nat, q: nat,
      j: nat)
    requires Inv(heads, hash, free, l, procs) && p < |procs| && q < |procs| && i < |procs[p].held| &&
        j < |procs[q].held|
    ensures var g, h := procs[p].held[i], procs[q].held[j];
            && g.buf < |heads| && IsBlock(heads[g.buf], g.dev, g.block) &&
                (g.dev != 0 ==> IsHashed(heads, l, g.buf)) && heads[g.buf].count > 0
            && (g.dev != 0 && (g.dev, g.block) == (h.dev, h.block) ==> g.buf == h.buf)
  {
    assert ProcOk(heads, l, p, procs[p]) && ProcOk(heads, l, q, procs[q]);
    var g, h := procs[p].held[i], procs[q].held[j];
    assert GripOk(heads, l, g) && GripOk(heads, l, h);
    assert ChainHas(heads, l, HashOf(heads[g.buf]));
    RefsPut(procs, p, procs[p], g.buf);
    GripCounts(procs[p].held, i);
    assert heads[g.buf].count == Refs(procs, g.buf);
  }

  /** A buffer in use that nobody is about to reuse keeps its block. */
  ghost predicate Kept(heads: seq<Head>, l: Lists, heads': seq<Head>) {
    |heads'| == |heads| && forall b: nat {:trigger heads'[b]} :: b < |heads| && heads[b].count > 0 && b !in l.taken ==>
      IsBlock(heads'[b], heads[b].dev, heads[b].blocknr)
  }

  lemma KeptSteady(heads: seq<Head>, hash: seq<int>, free: int, l: Lists, procs: seq<Proc>, p: nat, heads': seq<Head>)
    requires Inv(heads, hash, free, l, procs) && Steady(heads, procs, p, heads')
    ensures Kept(heads, l, heads')
  {
    if procs[p].at.Syncing? {
      var t := TakenBy(heads, hash, free, l, procs, p);
    }
  }

  lemma KeptSame(heads: seq<Head>, l: Lists, heads': seq<Head>)
    requires SameLinks(heads, heads')
    ensures Kept(heads, l, heads')
  {
  }
}
