/**
 The buffer cache of `fs/buffer.c`, with processes that sleep in the middle of its operations.
 */
module BufferCache {
  import opened BufferQueues
  import opened BufferStates
  import opened BufferUsers

  class Cache {
    var heads: seq<Head>        // `start_buffer`
    var hash: seq<int>          // `hash_table`
    var freeList: int
    var procs: seq<Proc>
    ghost var l: Lists

    ghost predicate Valid()
      reads this
    {
      Inv(heads, hash, freeList, l, procs)
    }

    /** `buffer_init`, for `n` buffers and `tasks` processes. */
    constructor (n: nat, tasks: nat)
      requires tasks < n
      ensures Valid() && |heads| == n && |procs| == tasks
      ensures forall p {:trigger procs[p]} :: 0 <= p < tasks ==> procs[p] == Proc(Ready, [])
      ensures freeList == 0 && |l.ring| == n && forall i {:trigger l.ring[i]} :: 0 <= i < n ==> l.ring[i] == i
      ensures forall b {:trigger heads[b]} :: 0 <= b < n ==> Carries(heads[b], 0, 0, 0) && !heads[b].lock
    {
      var h := [];
      var i := 0;
      while i < n
        invariant 0 <= i == |h| <= n
        invariant forall j {:trigger h[j]} :: 0 <= j < i ==>
            h[j] == Head(0, 0, false, false, 0, false, NULL, NULL, j - 1, j + 1)
      {
        h := h + [Head(0, 0, false, false, 0, false, NULL, NULL, i - 1, i + 1)];
        i := i + 1;
      }
      h := SetPrevFree(h, 0, n - 1);
      h := SetNextFree(h, n - 1, 0);
      heads, freeList := h, 0;
      hash := seq(NR_HASH, _ => NULL);
      procs := seq(tasks, _ => Proc(Ready, []));
      l := Lists(Count(n), seq(NR_HASH, _ => []), [], []);
      new;
      StartInv(heads, hash, l, procs, n);
    }

    // ---------- Queues ----------

    /** `remove_from_queues` */
    method RemoveFromQueues(b: nat)
      requires Sound(heads, hash, freeList, l) && b in l.ring && |l.ring| > 1 && b < |heads|
      modifies this`heads, this`hash, this`freeList
      ensures b < |old(heads)| && |old(hash)| == NR_HASH && heads == Off(old(heads), b)
      ensures hash == HashWithout(old(heads), old(hash), b) && freeList == OffFree(old(heads), old(freeList), b)
    {
      Removed(heads, hash, freeList, l, b, 0);
      hide Sound;
      var bh := heads[b];
      Unhash(b);
      if hash[HashFn(bh.dev, bh.blocknr)] == b {
        hash := hash[HashFn(bh.dev, bh.blocknr) := bh.next];
      }
      // "Free block list corrupted" cannot happen
      assert heads[b].prevFree != NULL && heads[b].nextFree != NULL;
      var nextFree, prevFree := heads[b].nextFree, heads[b].prevFree;
      heads := SetNextFree(heads, prevFree, nextFree);
      heads := SetPrevFree(heads, nextFree, prevFree);
      if freeList == b {
        freeList := nextFree;
      }
    }

    /** Buffer `b` leaves its hash chain, but for the head of the chain. */
    method Unhash(b: nat)
      requires b < |heads| && heads[b].next < |heads| && heads[b].prev < |heads|
      modifies this`heads
      ensures heads == Unhashed(old(heads), b)
    {
      var bh := heads[b];
      if bh.next != NULL {
        heads := SetPrev(heads, bh.next, bh.prev);
      }
      if bh.prev != NULL {
        heads := SetNext(heads, bh.prev, bh.next);
      }
    }

    /** `insert_into_queues`.  Where the source stores through a null `b_next`, nothing happens here. */
    method InsertIntoQueues(b: nat, ghost t: nat)
      requires Sound(heads, hash, freeList, l) && t < |l.taken| == |l.takers| && l.taken[t] == b && b < |heads|
      requires Absent(heads, l, heads[b].dev, heads[b].blocknr)
      modifies this`heads, this`hash
      ensures 0 <= freeList < |old(heads)| && 0 <= old(heads)[freeList].prevFree < |old(heads)| &&
          |old(hash)| == NR_HASH && old(hash)[HashOf(old(heads)[b])] < |old(heads)|
      ensures heads == Inserted(old(heads), old(hash), freeList, b) && hash == HashWith(old(heads), old(hash), b)
    {
      Replaced(heads, hash, freeList, l, b, t);
      hide Sound, Absent;
      ghost var h0, hash0 := heads, hash;
      var last := heads[freeList].prevFree;
      heads := SetNextFree(heads, b, freeList);
      heads := SetPrevFree(heads, b, last);
      heads := SetNextFree(heads, last, b);
      heads := SetPrevFree(heads, freeList, b);
      assert heads == Linked(h0, freeList, b);
      ghost var h1 := heads;
      LinkedBlock(h0, freeList, b);
      hide Linked;
      heads := SetPrev(heads, b, NULL);
      heads := SetNext(heads, b, NULL);
      if heads[b].dev != 0 {
        var h := HashFn(heads[b].dev, heads[b].blocknr);
        var first := hash[h];
        heads := SetNext(heads, b, first);
        hash := hash[h := b];
        if first != NULL {
          heads := SetPrev(heads, first, b);
        }
        HashedSteps(h1, first, b);
      }
    }

    /** `find_buffer` */
    method FindBuffer(dev: Short, block: Short) returns (b: int)
      requires Sound(heads, hash, freeList, l)
      ensures b != NULL ==> 0 <= b < |heads| && b in l.ring && dev != 0 && IsBlock(heads[b], dev, block)
      ensures b == NULL ==> Absent(heads, l, dev, block)
    {
      var h := HashFn(dev, block);
      FirstInside(heads, hash, l, h);
      ghost var s, i := l.chains[h], 0;
      var tmp := hash[h];
      while tmp != NULL
        invariant 0 <= i <= |s| && tmp == (if i < |s| then s[i] else NULL)
        invariant forall j {:trigger s[j]} :: 0 <= j < i ==> !(s[j] < |heads| && IsBlock(heads[s[j]], dev, block))
        decreases |s| - i
      {
        ChainAt(heads, hash[h], s, i);
        if heads[tmp].dev == dev && heads[tmp].blocknr == block {
          assert s[i] in s;
          return tmp;
        }
        tmp := heads[tmp].next;
        i := i + 1;
      }
      forall x: nat | x in l.ring && x < |heads| ensures !(dev != 0 && IsBlock(heads[x], dev, block)) {
        assert x in s <==> heads[x].dev != 0 && HashFn(heads[x].dev, heads[x].blocknr) == h;
      }
      b := NULL;
    }

    // ---------- Operations, up to the next sleep ----------

    /** Process `p` sleeps elsewhere, or is done. */
    method Go(p: nat, at: Place)
      requires Valid() && p < |procs| && Loose(procs[p].at) && Loose(at) && PlaceOk(heads, l, p, at)
      modifies this`procs
      ensures Valid() && procs == old(procs)[p := old(procs)[p].(at := at)]
    {
      MovedAway(heads, hash, freeList, l, procs, p, at);
      procs := procs[p := procs[p].(at := at)];
    }

    /** `get_hash_table`, until its `wait_on_buffer` sleeps or it is done. */
    method GetHashTable(p: nat, dev: Short, block: Short) returns (found: bool)
      requires Valid() && p < |procs| && Loose(procs[p].at)
      modifies this`heads, this`procs
      ensures Valid() && SameLinks(old(heads), heads)
      ensures found ==>
          Others(old(procs), procs, p) && Pursues(old(procs)[p], procs[p], dev, block) &&
              (procs[p].at.Ready? || procs[p].at.HashWait?)
      ensures found ==> Shared(old(heads), l, old(procs)[p], heads, procs[p], dev, block)
      ensures !found ==> heads == old(heads) && procs == old(procs) && Absent(heads, l, dev, block)
      ensures old(!Absent(heads, l, dev, block)) ==> found
    {
      var b := FindBuffer(dev, block);
      if b == NULL {
        return false;
      }
      PresentAt(heads, l, dev, block, b);
      Referenced(heads, hash, freeList, l, procs, p, dev, block, b);
      hide Inv, Absent;
      assert IsAt(heads, l, b, dev, block);
      heads := heads[b := heads[b].(count := heads[b].count + 1)];
      procs := procs[p := procs[p].(at := HashWait(dev, block, b))];
      if !heads[b].lock {
        HashDone(p);
      }
      found := true;
      assert Joins(old(heads), l, old(procs)[p], b, heads, procs[p], dev, block) && Only(old(heads), heads, b, b);
    }

    /** The rest of `get_hash_table`.  The buffer is still the one looked for: its count has kept it. */
    method HashDone(p: nat)
      requires Valid() && p < |procs| && procs[p].at.HashWait?
      modifies this`procs
      ensures Valid() && var at := old(procs)[p].at;
              procs == old(procs)[p := Proc(Ready, old(procs)[p].held + [Grip(at.buf, at.dev, at.block)])]
    {
      var at := procs[p].at;
      GotHold(heads, hash, freeList, l, procs, p);
      hide Inv;
      if heads[at.buf].dev != at.dev || heads[at.buf].blocknr != at.block {
        assert false;                        // brelse(bh); goto repeat
      }
      procs := procs[p := Proc(Ready, procs[p].held + [Grip(at.buf, at.dev, at.block)])];
    }

    /** `getblk`, until it sleeps or is done. */
    method Getblk(p: nat, dev: Short, block: Short)
      requires Valid() && p < |procs| && Loose(procs[p].at)
      modifies this
      ensures Valid() && Steady(old(heads), old(procs), p, heads) && Others(old(procs), procs, p) &&
          Pursues(old(procs)[p], procs[p], dev, block)
      ensures Asked(old(heads), old(l), old(procs)[p], heads, l, procs[p], dev, block)
      ensures procs[p].at.FreeWait? ==> forall b {:trigger heads[b]} :: 0 <= b < |heads| ==> heads[b].count > 0
    {
      ghost var h0, procs0 := heads, procs;
      var found := GetHashTable(p, dev, block);
      SameSteady(h0, procs0, p, heads);
      hide *;
      if !found {
        ListStart(heads, hash, freeList, l, procs);
        ghost var k := Scan(p, dev, block, freeList);
        AskedNew(h0, old(l), procs0[p], k, heads, l, procs[p], dev, block);
      } else {
        AskedOld(h0, l, procs0[p], heads, procs[p], dev, block);
      }
    }

    /** The search of the free list from `start` on. */
    method Scan(p: nat, dev: Short, block: Short, start: int) returns (ghost k0: nat)
      requires Valid() && p < |procs| && Loose(procs[p].at) && 0 <= start < |heads|
      modifies this
      ensures Valid() && Steady(old(heads), old(procs), p, heads) && Others(old(procs), procs, p) &&
          Pursues(old(procs)[p], procs[p], dev, block)
      ensures start in old(l.ring) ==> k0 == IndexIn(old(l.ring), start)
      ensures Searched(old(heads), old(l), old(procs)[p], k0, heads, l, procs[p], dev, block)
      ensures start == old(freeList) && procs[p].at.FreeWait? ==> forall b {:trigger heads[b]} :: 0 <= b < |heads| ==>
          heads[b].count > 0
    {
      var tmp := start;
      InvSound(heads, hash, freeList, l, procs);
      FarStart(heads, hash, freeList, l);
      hide Inv, Sound, Searched, Grabbed, Passed;
      ghost var k: nat;
      k0, k := PassedNone(heads, l, tmp);
      while true
        invariant 0 <= tmp < |heads| && heads == old(heads) && procs == old(procs) && l == old(l) &&
            freeList == old(freeList) && hash == old(hash)
        invariant start in l.ring ==> k0 == IndexIn(l.ring, start) && tmp in l.ring
        invariant Passed(heads, l, tmp, k0, k)
        decreases Far(l, tmp)
      {
        if heads[tmp].count == 0 {
          FirstUnused(heads, hash, freeList, l, procs, tmp, k0, k);
          Try(p, dev, block, tmp);
          SearchedAt(old(heads), old(l), old(procs)[p], k0, k, heads, l, procs[p], dev, block);
          return;
        }
        k0, k := PassedNext(heads, hash, freeList, l, tmp, k0, k);
        tmp := heads[tmp].nextFree;
        if tmp == freeList {
          break;
        }
      }
      if start == freeList {
        NoneFree(heads, hash, freeList, l, procs);
      }
      Go(p, FreeWait(dev, block));           // "Sleeping on free buffer .."
      SteadySelf(heads, old(procs), p);
      SearchedAll(heads, l, old(procs)[p], k0, procs[p], dev, block);
    }

    /** `getblk` has found a buffer that nobody uses. */
    method Try(p: nat, dev: Short, block: Short, tmp: nat)
      requires Valid() && p < |procs| && Loose(procs[p].at) && tmp < |heads| && heads[tmp].count == 0
      modifies this
      ensures Valid() && Steady(old(heads), old(procs), p, heads) && Others(old(procs), procs, p) &&
          Pursues(old(procs)[p], procs[p], dev, block)
      ensures !procs[p].at.FreeWait? && tmp in old(l.ring)
      ensures Grabbed(old(heads), old(l), old(procs)[p], IndexIn(old(l.ring), tmp), heads, l, procs[p], dev, block)
    {
      if heads[tmp].lock {                   // locked: sleep on it
        UnusedIsFree(heads, hash, freeList, l, procs, tmp);
        hide Inv;
        Go(p, ScanWait(dev, block, tmp));
        SteadySelf(heads, old(procs), p);
      } else {
        hide *;
        Take(p, dev, block, tmp);
      }
    }

    /** `getblk` has found a buffer to reuse. */
    method Take(p: nat, dev: Short, block: Short, tmp: nat)
      requires Valid() && p < |procs| && Loose(procs[p].at) && tmp < |heads| && heads[tmp].count == 0 &&
          !heads[tmp].lock
      modifies this
      ensures Valid() && Steady(old(heads), old(procs), p, heads) && Others(old(procs), procs, p) &&
          Pursues(old(procs)[p], procs[p], dev, block)
      ensures !procs[p].at.FreeWait? && tmp in old(l.ring)
      ensures Grabbed(old(heads), old(l), old(procs)[p], IndexIn(old(l.ring), tmp), heads, l, procs[p], dev, block)
    {
      ghost var h0, l0, procs0 := heads, l, procs;
      TakeOff(p, dev, block, tmp);
      ghost var h2, l2, procs2 := heads, l, procs;
      hide *;
      if heads[tmp].dirt {
        GrabbedDirty(h0, l0, procs0[p], tmp, heads, l, procs[p], dev, block);
        return;                              // sync_dev may sleep
      }
      Finish(p);
      GrabbedClean(h0, l0, procs0[p], tmp, h2, l2, procs2[p], heads, l, procs[p], dev, block);
      SteadyTwice(h0, procs0, h2, procs2, p, heads, tmp);
      PursuesTwice(procs0, procs2, procs, p, dev, block);
    }

    /** The buffer is marked as used and leaves the lists. */
    method TakeOff(p: nat, dev: Short, block: Short, tmp: nat)
      requires Valid() && p < |procs| && Loose(procs[p].at) && tmp < |heads| && heads[tmp].count == 0
      modifies this
      ensures Valid() && Steady(old(heads), old(procs), p, heads) && Grown(old(heads), heads) &&
          !old(procs)[p].at.Syncing?
      ensures Others(old(procs), procs, p) && |procs| == |old(procs)| && |heads| == |old(heads)|
      ensures procs[p] == Proc(Syncing(dev, block, tmp), old(procs)[p].held) &&
          Pursues(old(procs)[p], procs[p], dev, block)
      ensures tmp in old(l.ring) && Distinct(old(l.ring)) &&
          l.ring == Without(old(l.ring), IndexIn(old(l.ring), tmp))
      ensures Only(old(heads), heads, tmp, tmp) &&
          SameData(old(heads)[tmp].(count := 1), heads[tmp]) && heads[tmp].dirt == old(heads)[tmp].dirt
    {
      ghost var h0, procs0, l0 := heads, procs, l;
      ghost var h1 := Used(heads, tmp);
      TakeReady(heads, hash, freeList, l, procs, p, dev, block, tmp);
      hide *;
      heads := Used(heads, tmp);             // tmp->b_count++
      RemoveFromQueues(tmp);
      l := ListsWithout(h1, l0, tmp, p);
      var q := Proc(Syncing(dev, block, tmp), procs[p].held);
      procs := procs[p := q];
      TakenSteady(h0, h1, heads, procs0, p, tmp);
      TakenOnly(h0, heads, tmp);
      Replacing(procs0, p, q);
      TakenPursues(procs0[p], dev, block, tmp);
    }

    /** The rest of `getblk`, after `sync_dev`. */
    method Finish(p: nat)
      requires Valid() && p < |procs| && procs[p].at.Syncing?
      modifies this
      ensures Valid() && Steady(old(heads), old(procs), p, heads) && Others(old(procs), procs, p)
      ensures Pursues(old(procs)[p], procs[p], old(procs)[p].at.dev, old(procs)[p].at.block) && !procs[p].at.FreeWait?
      ensures Finished(old(heads), old(l), old(procs)[p], heads, l, procs[p])
    {
      ghost var h0, procs0 := heads, procs;
      var at := procs[p].at;
      var tmp := at.tmp;
      ghost var t := TakenBy(heads, hash, freeList, l, procs, p);
      // the search as it stands now
      var x := heads[tmp].(dev := at.dev, blocknr := at.block, dirt := false, uptodate := false);
      heads := heads[tmp := x];
      RenamedSound(h0, hash, freeList, l, procs, tmp, x);
      var found := FindBuffer(at.dev, at.block);
      if found != NULL {                     // another process cached the block during the sleep
        PresentAt(heads, l, at.dev, at.block, found);
        Beaten(p, tmp, t, h0);
      } else {
        Insert(p, tmp, t, h0);
      }
    }

    /** Process `p` has its buffer: it becomes visible under its new block. */
    method Insert(p: nat, tmp: nat, ghost t: nat, ghost h0: seq<Head>)
      requires Inv(h0, hash, freeList, l, procs) && p < |procs| && procs[p].at.Syncing? && procs[p].at.tmp == tmp &&
          tmp < |h0|
      requires t < |l.taken| == |l.takers| && l.takers[t] == p && l.taken[t] == tmp
      requires var at := procs[p].at;
               var x := h0[tmp].(dev := at.dev, blocknr := at.block, dirt := false, uptodate := false);
               heads == h0[tmp := x] && Absent(heads, l, at.dev, at.block)
      modifies this
      ensures Valid() && Steady(h0, old(procs), p, heads) && Others(old(procs), procs, p)
      ensures Pursues(old(procs)[p], procs[p], old(procs)[p].at.dev, old(procs)[p].at.block) && procs[p].at.Ready?
      ensures Finished(h0, old(l), old(procs)[p], heads, l, procs[p])
    {
      ghost var procs0, l0, h1 := procs, l, heads;
      var at := procs[p].at;
      var q := Proc(Ready, procs[p].held + [Grip(tmp, at.dev, at.block)]);
      InsertReady(h0, hash, freeList, l, procs, p, tmp, t, heads, q);
      hide *;
      InsertIntoQueues(tmp, t);
      l := ListsWith(h1, l0, tmp, t);
      procs := procs[p := q];
      InsertedSteady(h0, h1, heads, procs0, p, tmp);
      InsertedPursues(procs0, p, q);
      FinishedAlone(h0, l0, procs0[p], h1, heads, l, q);
    }

    /** The block has got another buffer: free this one and try again. */
    method Beaten(p: nat, tmp: nat, ghost t: nat, ghost h0: seq<Head>)
      requires Inv(h0, hash, freeList, l, procs) && p < |procs| && procs[p].at.Syncing? && procs[p].at.tmp == tmp &&
          tmp < |h0|
      requires t < |l.taken| == |l.takers| && l.takers[t] == p && l.taken[t] == tmp
      requires var at := procs[p].at;
               var x := h0[tmp].(dev := at.dev, blocknr := at.block, dirt := false, uptodate := false);
               heads == h0[tmp := x] && !Absent(heads, l, at.dev, at.block)
      modifies this
      ensures Valid() && Steady(h0, old(procs), p, heads) && Others(old(procs), procs, p)
      ensures Pursues(old(procs)[p], procs[p], old(procs)[p].at.dev, old(procs)[p].at.block) && !procs[p].at.FreeWait?
      ensures Finished(h0, old(l), old(procs)[p], heads, l, procs[p])
    {
      ghost var procs0, l0, h1 := procs, l, heads;
      var at := procs[p].at;
      GiveUp(p, tmp, t, h0);
      ghost var h2, procs2 := heads, procs;
      hide *;
      var found := GetHashTable(p, at.dev, at.block);        // goto repeat
      AgainSteady(h0, procs0, h2, p, heads);
      PursuesTwice(procs0, procs2, procs, p, at.dev, at.block);
      FinishedShared(h0, l0, procs0[p], Emptied(h1, tmp), h2, l, procs2[p], heads, procs[p]);
    }

    /** The buffer goes back to the lists without a block. */
    method GiveUp(p: nat, tmp: nat, ghost t: nat, ghost h0: seq<Head>)
      requires Inv(h0, hash, freeList, l, procs) && p < |procs| && procs[p].at.Syncing? && procs[p].at.tmp == tmp &&
          tmp < |h0|
      requires t < |l.taken| == |l.takers| && l.takers[t] == p && l.taken[t] == tmp
      requires var at := procs[p].at;
               var x := h0[tmp].(dev := at.dev, blocknr := at.block, dirt := false, uptodate := false);
               heads == h0[tmp := x] && !Absent(heads, l, at.dev, at.block)
      modifies this
      ensures var at := old(procs)[p].at;
              Valid() && !Absent(heads, l, at.dev, at.block) && Steady(h0, old(procs), p, heads) &&
              Others(old(procs), procs, p) && procs[p] == old(procs)[p].(at := FreeWait(at.dev, at.block)) &&
              |procs| == |old(procs)| && Loose(procs[p].at)
      ensures |h0| == |old(heads)| == |Emptied(old(heads), tmp)| && SameBlocks(Emptied(old(heads), tmp), heads) &&
          Carries(Emptied(old(heads), tmp)[tmp], 0, 0, 0) &&
          Emptied(old(heads), tmp) == h0[tmp := Emptied(old(heads), tmp)[tmp]]
      ensures tmp !in old(l.ring) && l.ring == old(l.ring) + [tmp]
    {
      ghost var procs0, l0 := procs, l;
      var at := procs[p].at;
      var q := procs[p].(at := FreeWait(at.dev, at.block));
      ghost var h1 := Emptied(heads, tmp);
      BeatenReady(h0, hash, freeList, l, procs, p, tmp, t, heads, h1, q, at.dev, at.block);
      assert Carries(h1[tmp], 0, 0, 0);
      hide *;
      heads := Emptied(heads, tmp);
      InsertIntoQueues(tmp, t);
      l := ListsWith(h1, l0, tmp, t);
      procs := procs[p := q];
      InsertedSteady(h0, h1, heads, procs0, p, tmp);
      Replacing(procs0, p, q);
    }

    /** `brelse` of the `i`-th buffer that the process holds. */
    method Brelse(p: nat, i: nat)
      requires Valid() && p < |procs| && procs[p].at.Ready? && i < |procs[p].held|
      modifies this`heads, this`procs
      ensures Valid() && SameLinks(old(heads), heads) && Others(old(procs), procs, p)
      ensures procs[p].held == Dropped(old(procs)[p].held, i) &&
          (procs[p].at.Ready? || procs[p].at == ReleaseWait(old(procs)[p].held[i].buf))
      ensures LetLoose(old(heads), l, old(procs)[p].held[i].buf, Dropped(old(procs)[p].held, i), heads, l, procs[p])
    {
      var b := procs[p].held[i].buf;
      LetGo(heads, hash, freeList, l, procs, p, i);
      hide Inv;
      procs := procs[p := Proc(ReleaseWait(b), Dropped(procs[p].held, i))];
      SameLinksSelf(heads);
      if !heads[b].lock {
        Released(p);
      }
    }

    /** The rest of `brelse`; whoever sleeps for a free buffer may go on. */
    method Released(p: nat)
      requires Valid() && p < |procs| && procs[p].at.ReleaseWait?
      modifies this`heads, this`procs
      ensures Valid() && SameLinks(old(heads), heads) && procs == old(procs)[p := old(procs)[p].(at := Ready)]
      ensures var b := old(procs)[p].at.buf;
              b < |old(heads)| && old(heads)[b].count > 0 &&
              heads == old(heads)[b := old(heads)[b].(count := old(heads)[b].count - 1)]
    {
      var b := procs[p].at.buf;
      Unreferenced(heads, hash, freeList, l, procs, p);
      hide Inv;
      assert heads[b].count > 0;             // "Trying to free free buffer" cannot happen
      heads := heads[b := heads[b].(count := heads[b].count - 1)];
      procs := procs[p := procs[p].(at := Ready)];
    }

    // ---------- Whole runs ----------

    /** Process `p` wakes up; if what it waits for has not happened, it sleeps again. */
    method Resume(p: nat)
      requires Valid() && p < |procs|
      modifies this
      ensures Valid() && Steady(old(heads), old(procs), p, heads) && Others(old(procs), procs, p)
      ensures forall dev: Short, block: Short {:trigger Seeks(old(procs)[p].at, dev, block)} ::
                Seeks(old(procs)[p].at, dev, block) ==> Pursues(old(procs)[p], procs[p], dev, block)
      ensures Resumed(old(heads), old(l), old(procs)[p], heads, l, procs[p])
    {
      PlaceInside(heads, hash, freeList, l, procs, p);
      hide Inv, Asked, Finished, Searched;
      SteadySelf(heads, procs, p);
      var at := procs[p].at;
      match at {
        case Ready =>
        case HashWait(_, _, b) =>
          if !heads[b].lock {
            HashDone(p);
          }
        case ScanWait(dev, block, b) =>
          if !heads[b].lock {
            ghost var k := Scan(p, dev, block, b);
          }
        case FreeWait(dev, block) =>
          Getblk(p, dev, block);
        case Syncing(_, _, _) =>
          Finish(p);
        case ReleaseWait(b) =>
          if !heads[b].lock {
            ghost var h0 := heads;
            Released(p);
            SameSteady(h0, old(procs), p, heads);
          }
      }
    }

    /** The disk driver, an interrupt or the holder of a buffer sets its flags. */
    method SetFlags(b: nat, lock: bool, dirt: bool, uptodate: bool)
      requires Valid() && b < |heads|
      modifies this`heads
      ensures Valid() && heads == old(heads)[b := old(heads)[b].(lock := lock, dirt := dirt, uptodate := uptodate)]
    {
      ghost var h := heads[b := heads[b].(lock := lock, dirt := dirt, uptodate := uptodate)];
      FlagsChanged(heads, hash, freeList, l, procs, h);
      hide Inv;
      heads := heads[b := heads[b].(lock := lock, dirt := dirt, uptodate := uptodate)];
    }

    /** One event, if it can happen. */
    method Step(e: Event)
      requires Valid()
      modifies this
      ensures Valid() && |procs| == |old(procs)| && |heads| == |old(heads)|
      ensures Kept(old(heads), old(l), heads)
      ensures e.Get? && e.p < |procs| && old(procs)[e.p].at.Ready? ==>
          Pursues(old(procs)[e.p], procs[e.p], e.dev, e.block)
      ensures Happened(e, old(heads), old(l), old(procs), heads, l, procs)
    {
      ghost var h0, hash0, free0, l0, procs0 := heads, hash, freeList, l, procs;
      KeptSame(heads, l, heads);
      hide Inv, Kept, Asked, Shared, LetLoose, Resumed;
      match e {
        case Get(p, dev, block) =>
          if p < |procs| && procs[p].at.Ready? {
            Getblk(p, dev, block);
            KeptSteady(h0, hash0, free0, l0, procs0, p, heads);
          }
        case Find(p, dev, block) =>
          if p < |procs| && procs[p].at.Ready? {
            var _ := GetHashTable(p, dev, block);
            KeptSame(h0, l0, heads);
          }
        case Release(p, i) =>
          if p < |procs| && procs[p].at.Ready? && i < |procs[p].held| {
            Brelse(p, i);
            KeptSame(h0, l0, heads);
          }
        case Wake(p) =>
          if p < |procs| {
            Resume(p);
            KeptSteady(h0, hash0, free0, l0, procs0, p, heads);
          }
        case Flags(b, lock, dirt, uptodate) =>
          if b < |heads| {
            SetFlags(b, lock, dirt, uptodate);
            KeptSame(h0, l0, heads);
          }
      }
    }

    /** Any interleaving of any operations; `ms` are the states between the events. */
    method Run(es: seq<Event>) returns (ghost ms: seq<Moment>)
      requires Valid()
      modifies this
      ensures Valid() && |ms| == |es| + 1
      ensures ms[0] == Moment(old(heads), old(l), old(procs)) && ms[|es|] == Moment(heads, l, procs)
      ensures forall i {:trigger es[i]} :: 0 <= i < |es| ==> Goes(es[i], ms[i], ms[i + 1])
    {
      ms := [Moment(heads, l, procs)];
      var i := 0;
      while i < |es|
        invariant 0 <= i <= |es| && Valid() && |ms| == i + 1
        invariant ms[0] == Moment(old(heads), old(l), old(procs)) && ms[i] == Moment(heads, l, procs)
        invariant forall j {:trigger es[j]} :: 0 <= j < i ==> Goes(es[j], ms[j], ms[j + 1])
      {
        hide Inv, Happened, Kept;
        Step(es[i]);
        ms := ms + [Moment(heads, l, procs)];
        i := i + 1;
      }
    }
  }

  /** With two buffers, the first two blocks asked for get the first and the second buffer. */
  method FirstTwo() returns (c: Cache)
    ensures c.Valid() && |c.procs| == 1 && c.procs[0] == Proc(Ready, [Grip(0, 1, 10), Grip(1, 1, 11)])
  {
    hide Inv, Asked, Steady, Pursues, Absent, Only, Carries, Without;
    c := new Cache(2, 1);
    ghost var h0, l0, q0 := c.heads, c.l, c.procs[0];
    NoBlocks(h0, l0, 1, 10);
    c.Getblk(0, 1, 10);
    FirstFree(h0, l0, q0, c.heads, c.l, c.procs[0], 1, 10);
    ghost var h1, l1, q1 := c.heads, c.l, c.procs[0];
    OneBlock(h0, l0, h1, l1, 10, 11);
    c.Getblk(0, 1, 11);
    FirstFree(h1, l1, q1, c.heads, c.l, c.procs[0], 1, 11);
  }

  lemma NoBlocks(heads: seq<Head>, l: Lists, dev: Short, block: Short)
    requires forall b {:trigger heads[b]} :: 0 <= b < |heads| ==> Carries(heads[b], 0, 0, 0) && !heads[b].lock
    ensures Absent(heads, l, dev, block)
    ensures forall b {:trigger heads[b]} :: 0 <= b < |heads| ==> heads[b].count == 0 && !heads[b].dirt
  {
  }

  lemma OneBlock(heads: seq<Head>, l: Lists, heads': seq<Head>, l': Lists, block: Short, other: Short)
    requires |heads| == |heads'| == 2 && |l.ring| == 2 && l.ring[0] == 0 && l.ring[1] == 1 && other != block
    requires Carries(heads[1], 0, 0, 0) && !heads[1].lock
    requires Carries(heads'[0], 1, block, 1) && Only(heads, heads', 0, 0)
    requires l'.ring == Without(l.ring, 0) + [0]
    ensures Absent(heads', l', 1, other) && l'.ring == [1, 0]
    ensures heads'[1].count == 0 && !heads'[1].lock && !heads'[1].dirt
  {
    assert SameData(heads[1], heads'[1]) by { assert heads'[1] == heads'[1]; }
  }

  /** If the head of the free list is unused, clean and not locked, it is the buffer that a new block gets. */
  lemma FirstFree(heads: seq<Head>, l: Lists, q: Proc, heads': seq<Head>, l': Lists, q': Proc, dev: Short, block: Short)
    requires Absent(heads, l, dev, block) && Asked(heads, l, q, heads', l', q', dev, block)
    requires |l.ring| > 0 && l.ring[0] < |heads| &&
        heads[l.ring[0]].count == 0 && !heads[l.ring[0]].lock && !heads[l.ring[0]].dirt
    ensures q' == Proc(Ready, q.held + [Grip(l.ring[0], dev, block)]) && l'.ring == Without(l.ring, 0) + [l.ring[0]]
    ensures Only(heads, heads', l.ring[0], l.ring[0]) && Carries(heads'[l.ring[0]], dev, block, 1)
  {
    assert !InUse(heads, l.ring[0]);
    forall y: nat ensures !IsAt(heads, l, y, dev, block) {
      assert y in l.ring ==> y >= |heads| || !(dev != 0 && IsBlock(heads[y], dev, block));
    }
  }

  datatype Event =
    | Get(p: nat, dev: Short, block: Short)
    | Find(p: nat, dev: Short, block: Short)
    | Release(p: nat, i: nat)
    | Wake(p: nat)
    | Flags(b: nat, lock: bool, dirt: bool, uptodate: bool)

  /** What an event does; one that cannot happen now does nothing. */
  ghost predicate Happened(e: Event, heads: seq<Head>, l: Lists, procs: seq<Proc>, heads': seq<Head>, l': Lists,
      procs': seq<Proc>) {
    match e
    case Get(p, dev, block) =>
      if p < |procs| && procs[p].at.Ready? then
        Others(procs, procs', p) && Asked(heads, l, procs[p], heads', l', procs'[p], dev, block)
      else heads' == heads && l' == l && procs' == procs
    case Find(p, dev, block) =>
      if p < |procs| && procs[p].at.Ready? && !Absent(heads, l, dev, block) then
        Others(procs, procs', p) && Shared(heads, l, procs[p], heads', procs'[p], dev, block) && l' == l
      else heads' == heads && l' == l && procs' == procs
    case Release(p, i) =>
      if p < |procs| && procs[p].at.Ready? && i < |procs[p].held| then
        Others(procs, procs', p) &&
        LetLoose(heads, l, procs[p].held[i].buf, Dropped(procs[p].held, i), heads', l', procs'[p])
      else heads' == heads && l' == l && procs' == procs
    case Wake(p) =>
      if p < |procs| then Others(procs, procs', p) && Resumed(heads, l, procs[p], heads', l', procs'[p])
      else heads' == heads && l' == l && procs' == procs
    case Flags(b, lock, dirt, uptodate) =>
      && l' == l && procs' == procs
      && heads' == if b < |heads| then heads[b := heads[b].(lock := lock, dirt := dirt, uptodate := uptodate)]
                   else heads
  }

  /** The cache and its processes between two events. */
  datatype Moment = Moment(heads: seq<Head>, l: Lists, procs: seq<Proc>)

  ghost predicate Goes(e: Event, s: Moment, s': Moment) {
    Happened(e, s.heads, s.l, s.procs, s'.heads, s'.l, s'.procs)
  }

  lemma PlaceInside(heads: seq<Head>, hash: seq<int>, free: int, l: Lists, procs: seq<Proc>, p: nat)
    requires Inv(heads, hash, free, l, procs) && p < |procs|
    ensures match procs[p].at
      case HashWait(_, _, b) => b < |heads|
      case ScanWait(_, _, b) => b < |heads|
      case ReleaseWait(b) => b < |heads|
      case _ => true
  {
    assert ProcOk(heads, l, p, procs[p]);
  }

  lemma LinkedBlock(heads: seq<Head>, free: nat, b: nat)
    requires b < |heads| && free < |heads| && 0 <= heads[free].prevFree < |heads|
    ensures |Linked(heads, free, b)| == |heads| && Linked(heads, free, b)[b].dev == heads[b].dev &&
        Linked(heads, free, b)[b].blocknr == heads[b].blocknr
  {
  }

  lemma HashedSteps(heads: seq<Head>, first: int, b: nat)
    requires b < |heads| && NULL <= first < |heads|
    ensures Hashed(heads, first, b) == SetPrev(SetNext(SetNext(SetPrev(heads, b, NULL), b, NULL), b, first), first, b)
  {
  }

  function Count(n: nat): (s: seq<nat>)
    ensures |s| == n && forall i :: 0 <= i < n ==> s[i] == i
  {
    seq(n, i => i)
  }

  lemma StartInv(heads: seq<Head>, hash: seq<int>, l: Lists, procs: seq<Proc>, n: nat)
    requires |procs| < n == |heads| && |hash| == NR_HASH && l == Lists(Count(n), seq(NR_HASH, _ => []), [], [])
    requires forall h {:trigger hash[h]} :: 0 <= h < NR_HASH ==> hash[h] == NULL
    requires forall p {:trigger procs[p]} :: 0 <= p < |procs| ==> procs[p] == Proc(Ready, [])
    requires forall j {:trigger heads[j]} :: 0 <= j < n ==>
               heads[j] == Head(0, 0, false, false, 0, false, NULL, NULL, if j == 0 then n - 1
                   else j - 1, if j == n - 1 then 0 else j + 1)
    ensures Inv(heads, hash, 0, l, procs)
  {
    forall i: nat | i < n ensures RingLink(heads, l.ring, i) {
    }
    forall b: nat | b < n ensures b in l.ring {
      assert l.ring[b] == b;
    }
    forall h | 0 <= h < NR_HASH ensures IsChain(heads, hash[h], l.chains[h]) && ChainHas(heads, l, h) {
    }
    forall b | 0 <= b < n ensures heads[b].count == Refs(procs, b) {
      NoRefs(procs, b);
    }
  }

  lemma {:induction false} NoRefs(procs: seq<Proc>, b: nat)
    requires forall p {:trigger procs[p]} :: 0 <= p < |procs| ==> procs[p] == Proc(Ready, [])
    ensures Refs(procs, b) == 0
  {
    if procs != [] {
      assert procs[0] == Proc(Ready, []);
      forall p | 0 <= p < |procs[1..]| ensures procs[1..][p] == Proc(Ready, []) {
        assert procs[1..][p] == procs[p + 1];
      }
      NoRefs(procs[1..], b);
    }
  }
}
