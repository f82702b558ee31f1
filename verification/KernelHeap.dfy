/**
 The heap of the CSOS kernel (`ksrc/kmalloc.c`): a table of free chunks, best fit, and merging of
 neighbours.
 */
module KernelHeap {
  const MAX_CHUNKS: nat := 2048

  /** Lengths for which `len + 4` does not wrap around. */
  type Length = n: nat | n < 0xFFFF_FFFC

  datatype Chunk = Chunk(present: bool, begin: int, end: int)

  predicate Apart(b1: int, e1: int, b2: int, e2: int) {
    e1 <= b2 || e2 <= b1 || b1 == e1 || b2 == e2
  }

  predicate Within(lo: int, hi: int, b: int, e: int) {
    lo <= b <= e <= hi
  }

  /** A slot that the allocator looks at and that holds a chunk. */
  predicate Visible(chunks: seq<Chunk>, n: nat, i: int) {
    0 <= i < n <= |chunks| && chunks[i].present
  }

  /** A block with its header. */
  predicate Block(live: map<int, nat>, p: int) {
    p in live
  }

  ghost predicate FreeApart(lo: int, hi: int, chunks: seq<Chunk>, n: nat) {
    && (forall i {:trigger Visible(chunks, n, i)} :: Visible(chunks, n, i) ==>
        Within(lo, hi, chunks[i].begin, chunks[i].end))
    && (forall i, j {:trigger Visible(chunks, n, i), Visible(chunks, n, j)} ::
         Visible(chunks, n, i) && Visible(chunks, n, j) && i != j ==>
           Apart(chunks[i].begin, chunks[i].end, chunks[j].begin, chunks[j].end))
  }

  ghost predicate LiveApart(lo: int, hi: int, live: map<int, nat>) {
    && (forall p: int {:trigger Block(live, p)} :: Block(live, p) ==> Within(lo, hi, p - 4, p + live[p]))
    && (forall p: int, r: int {:trigger Block(live, p), Block(live, r)} ::
         Block(live, p) && Block(live, r) && p != r ==> Apart(p - 4, p + live[p], r - 4, r + live[r]))
  }

  /** A range that belongs to no block. */
  ghost predicate ClearOf(live: map<int, nat>, b: int, e: int) {
    forall p: int {:trigger Block(live, p)} :: Block(live, p) ==> Apart(b, e, p - 4, p + live[p])
  }

  ghost predicate Separate(lo: int, hi: int, chunks: seq<Chunk>, n: nat, live: map<int, nat>) {
    && n <= |chunks| == MAX_CHUNKS && FreeApart(lo, hi, chunks, n) && LiveApart(lo, hi, live)
    && (forall i {:trigger Visible(chunks, n, i)} :: Visible(chunks, n, i) ==>
        ClearOf(live, chunks[i].begin, chunks[i].end))
  }

  /** The chunk in slot `c`, seen by the allocator or not, overlaps nothing else. */
  ghost predicate Floating(lo: int, hi: int, chunks: seq<Chunk>, n: nat, live: map<int, nat>, c: nat) {
    && c < |chunks| && Within(lo, hi, chunks[c].begin, chunks[c].end) && ClearOf(live, chunks[c].begin, chunks[c].end)
    && (forall i {:trigger Visible(chunks, n, i)} :: Visible(chunks, n, i) && i != c ==>
        Apart(chunks[c].begin, chunks[c].end, chunks[i].begin, chunks[i].end))
  }

  predicate BigEnough(chunks: seq<Chunk>, n: nat, len: nat, i: int) {
    Visible(chunks, n, i) && chunks[i].end - chunks[i].begin >= len + 4
  }

  /** A smallest chunk that is big enough. */
  ghost predicate BestFit(chunks: seq<Chunk>, n: nat, len: nat, k: int) {
    BigEnough(chunks, n, len, k) && forall i {:trigger BigEnough(chunks, n, len, i)} :: BigEnough(chunks, n, len, i) ==>
      chunks[k].end - chunks[k].begin <= chunks[i].end - chunks[i].begin
  }

  /** The block was cut from the beginning of chunk `k`; nothing else changed. */
  predicate Carved(chunks: seq<Chunk>, chunks': seq<Chunk>, k: int, len: nat, p: int) {
    0 <= k < |chunks| && p == chunks[k].begin + 4 &&
    var begin := chunks[k].begin + len + 4;
    chunks' == chunks[k := Chunk(begin != chunks[k].end, begin, chunks[k].end)]
  }

  predicate Holds(c: Chunk, x: int) {
    c.begin <= x < c.end
  }

  /** The allocator can hand out the byte at `x`. */
  predicate FreeByte(chunks: seq<Chunk>, n: nat, x: int) {
    exists i {:trigger Visible(chunks, n, i)} :: 0 <= i < |chunks| && Visible(chunks, n, i) && Holds(chunks[i], x)
  }

  /** The bytes from `b` to `e` could be handed out, and now just they cannot. */
  ghost predicate BytesTaken(chunks: seq<Chunk>, chunks': seq<Chunk>, n: nat, b: int, e: int) {
    forall x {:trigger FreeByte(chunks, n, x)} {:trigger FreeByte(chunks', n, x)} ::
      (FreeByte(chunks', n, x) <==> FreeByte(chunks, n, x) && !(b <= x < e)) && (b <= x < e ==> FreeByte(chunks, n, x))
  }

  /** A visible chunk begins at `e` or ends at `b`. */
  predicate Touched(chunks: seq<Chunk>, n: nat, b: int, e: int) {
    exists i {:trigger Visible(chunks, n, i)} :: 0 <= i < |chunks| && Visible(chunks, n, i) &&
        (chunks[i].begin == e || chunks[i].end == b)
  }

  /** `_kfree` puts its chunk into a slot that the allocator looks at. */
  predicate SeesSlot(chunks: seq<Chunk>, n: nat) {
    n < |chunks| && (chunks[n].present || exists i :: 0 <= i < n && !chunks[i].present)
  }

  /** Some slot of the whole table, looked at or not, holds a chunk with the byte at `x`. */
  predicate InTable(chunks: seq<Chunk>, x: int) {
    exists i :: 0 <= i < |chunks| && chunks[i].present && Holds(chunks[i], x)
  }

  ghost predicate InBlock(live: map<int, nat>, x: int) {
    exists p: int {:trigger Block(live, p)} :: Block(live, p) && p - 4 <= x < p + live[p]
  }

  predicate Covers(chunks: seq<Chunk>, n: nat, c: nat, x: int) {
    FreeByte(chunks, n, x) || (c < |chunks| && Holds(chunks[c], x))
  }

  datatype Op = Alloc(len: Length) | Free(p: int)

  /** What the allocator looks at, and the blocks in use. */
  datatype Moment = Moment(chunks: seq<Chunk>, n: nat, live: map<int, nat>)

  /** A new block at `p` takes its bytes, and four in front of it, from a smallest chunk that has as many. */
  ghost predicate Cut(s: Moment, s': Moment, len: nat, p: int) {
    && p !in s.live && s'.live == s.live[p := len] && s'.n == s.n
    && (exists k :: BestFit(s.chunks, s.n, len, k) && Carved(s.chunks, s'.chunks, k, len, p))
    && BytesTaken(s.chunks, s'.chunks, s.n, p - 4, p + len)
  }

  /** The block at `p` is gone; if the allocator sees its chunk, its bytes but the last four are free again. */
  ghost predicate Freed(s: Moment, s': Moment, p: int)
    requires p in s.live
  {
    && s'.live == s.live - {p}
    && forall x :: FreeByte(s'.chunks, s'.n, x) <==>
         FreeByte(s.chunks, s.n, x) ||
         (p - 4 <= x < p - 4 + s.live[p] &&
          (SeesSlot(s.chunks, s.n) || Touched(s.chunks, s.n, p - 4, p - 4 + s.live[p])))
  }

  /** What an operation does; a release needs room in the table. */
  ghost predicate Does(op: Op, s: Moment, s': Moment) {
    match op
    case Alloc(len) =>
      if exists i :: 0 <= i < s.n <= |s.chunks| && s.chunks[i].present && s.chunks[i].end - s.chunks[i].begin >= len + 4
      then exists p :: Cut(s, s', len, p)
      else s' == s
    case Free(p) => if p in s.live && s.n < MAX_CHUNKS then Freed(s, s', p) else s' == s
  }

  class Heap {
    const lo: int
    const hi: int
    var chunks: seq<Chunk>
    var nChunks: nat
    var headers: map<int, nat>        // the length words in front of the blocks
    ghost var live: map<int, nat>     // blocks in use, by address, with their lengths

    ghost predicate Valid()
      reads this
    {
      Separate(lo, hi, chunks, nChunks, live) && forall p: int {:trigger Block(live, p)} :: Block(live, p) ==>
          p - 4 in headers && headers[p - 4] == live[p]
    }

    /** The byte at `x` belongs neither to a chunk nor to a block. */
    ghost predicate Lost(x: int)
      reads this
    {
      !InTable(chunks, x) && !InBlock(live, x)
    }

    /** `kmalloc_init` */
    constructor (begin: int, len: nat)
      ensures Valid() && live == map[] && nChunks == 1 && lo == begin && hi == begin + len
      ensures |chunks| == MAX_CHUNKS && chunks[0] == Chunk(true, begin, begin + len)
      ensures forall i :: 0 < i < MAX_CHUNKS ==> !chunks[i].present
    {
      lo, hi := begin, begin + len;
      chunks := seq(MAX_CHUNKS, i => if i == 0 then Chunk(true, begin, begin + len) else Chunk(false, 0, 0));
      nChunks := 1;
      headers := map[];
      live := map[];
    }

    /** The search of `_kmalloc`. */
    method FindChunk(len: Length) returns (chunk: nat, found: bool)
      requires Valid()
      ensures found ==> BestFit(chunks, nChunks, len, chunk)
      ensures !found ==> forall i {:trigger BigEnough(chunks, nChunks, len, i)} :: !BigEnough(chunks, nChunks, len, i)
    {
      var chunksz := 0;
      chunk := 0;
      var i: nat := 0;
      while i < nChunks
        invariant i <= nChunks
        invariant chunksz == 0 ==> forall j {:trigger BigEnough(chunks, nChunks, len, j)} :: j < i ==>
            !BigEnough(chunks, nChunks, len, j)
        invariant chunksz != 0 ==>
            BigEnough(chunks, nChunks, len, chunk) && chunksz == chunks[chunk].end - chunks[chunk].begin
        invariant chunksz != 0 ==>
            forall j {:trigger BigEnough(chunks, nChunks, len, j)} :: j < i && BigEnough(chunks, nChunks, len, j) ==>
                    chunksz <= chunks[j].end - chunks[j].begin
      {
        if chunks[i].present {
          var chunksize := chunks[i].end - chunks[i].begin;
          if chunksize >= len + 4 {
            if chunksz == 0 || chunksize < chunksz {
              chunk := i;
              chunksz := chunksize;
            }
            if chunksize == len + 4 {
              return i, true;
            }
          }
        }
        i := i + 1;
      }
      found := chunksz != 0;
    }

    /** `_kmalloc`; 0 if no chunk is big enough. */
    method Kmalloc(len: Length) returns (p: int, ok: bool)
      requires Valid()
      modifies this`chunks, this`headers, this`live
      ensures Valid() && (ok <==> exists i :: BigEnough(old(chunks), nChunks, len, i))
      ensures ok <==> exists i :: 0 <= i < nChunks <= |old(chunks)| && old(chunks)[i].present &&
                                  old(chunks)[i].end - old(chunks)[i].begin >= len + 4
      ensures !ok ==> live == old(live) && chunks == old(chunks)
      ensures ok ==> p !in old(live) && live == old(live)[p := len]
      ensures ok ==> exists k :: BestFit(old(chunks), nChunks, len, k) && Carved(old(chunks), chunks, k, len, p)
      ensures ok ==> BytesTaken(old(chunks), chunks, nChunks, p - 4, p + len)
      ensures forall x :: old(Lost(x)) ==> Lost(x)
    {
      hide FreeByte, BytesTaken;
      var k: nat;
      k, ok := FindChunk(len);
      if !ok {
        forall i | 0 <= i < nChunks && chunks[i].present ensures chunks[i].end - chunks[i].begin < len + 4 {
          assert !BigEnough(chunks, nChunks, len, i);
        }
        return 0, false;
      }
      ghost var chunks0, live0 := chunks, live;
      var c := chunks[k];
      p := c.begin + 4;
      Allocated(lo, hi, chunks, nChunks, live, k, len);
      chunks := chunks[k := Chunk(c.begin + len + 4 != c.end, c.begin + len + 4, c.end)];
      headers := headers[c.begin := len];
      live := live[p := len];
      assert BigEnough(chunks0, nChunks, len, k);
      assert 0 <= k < nChunks <= |chunks0| && chunks0[k].present && chunks0[k].end - chunks0[k].begin >= len + 4;
      assert BestFit(chunks0, nChunks, len, k) && Carved(chunks0, chunks, k, len, p);
      assert chunks == chunks0[k := Chunk(p + len != chunks0[k].end, p + len, chunks0[k].end)];
      CarvedBytes(lo, hi, chunks0, nChunks, live0, k, len, p);
      forall x | old(Lost(x)) ensures Lost(x) {
        StillLost(chunks0, live0, k, len, x);
      }
      forall r: int | Block(live, r) ensures r - 4 in headers && headers[r - 4] == live[r] {
        assert r == p || Block(live0, r);
      }
    }

    /** `_kfree` of a block in use; there is room in the table for one more chunk.  The block can be
        allocated again but for its last four bytes; not one byte of it, though, if every slot in use
        holds a chunk, the next one does not, and no neighbour is free. */
    method Kfree(p: int)
      requires Valid() && p in live && nChunks < MAX_CHUNKS
      modifies this`chunks, this`nChunks, this`live
      ensures Valid() && live == old(live) - {p} && |chunks| == |old(chunks)|
      ensures nChunks == old(nChunks) + if forall i :: 0 <= i <= old(nChunks) ==> old(chunks)[i].present then 1 else 0
      ensures forall i :: old(nChunks) < i < |chunks| ==> chunks[i] == old(chunks)[i]
      ensures forall x :: old(Lost(x)) ==> Lost(x)
      ensures old(!SeesSlot(chunks, nChunks) && !Touched(chunks, nChunks, p - 4, p - 4 + live[p])) ==>
                chunks == old(chunks)[nChunks := Chunk(true, p - 4, p - 4 + old(live)[p])]
      ensures forall x :: FreeByte(chunks, nChunks, x) <==>
                (old(FreeByte(chunks, nChunks, x)) ||
                 (p - 4 <= x < p - 4 + old(live)[p] &&
                  old(SeesSlot(chunks, nChunks) || Touched(chunks, nChunks, p - 4, p - 4 + live[p]))))
    {
      var begin := p - 4;
      assert Block(live, p);
      var len := headers[begin];
      var end := begin + len;
      Released(lo, hi, chunks, nChunks, live, p);
      ghost var live0 := live;
      live := live - {p};
      forall r: int | Block(live, r) ensures r - 4 in headers && headers[r - 4] == live[r] {
        assert Block(live0, r);
      }
      var slot := FreeSlot();
      SlotFilled(lo, hi, chunks, old(nChunks), nChunks, live, slot, begin, end);
      BytesFilled(chunks, old(nChunks), nChunks, slot, begin, end);
      ghost var chunks0 := chunks;
      chunks := chunks[slot := Chunk(true, begin, end)];
      ghost var chunks1 := chunks;
      Merge(slot);
      forall x | old(Lost(x)) ensures Lost(x) {
        assert !InBlock(live, x) by {
          assert forall r: int {:trigger Block(live, r)} :: Block(live, r) ==> Block(live0, r);
        }
        assert InTable(chunks1, x) ==> InTable(chunks0, x) || begin <= x < end;
        assert Block(live0, p);
      }
    }

    /** Two blocks are allocated and freed again; the bytes of the first are in no slot any more, and stay lost. */
    static method Leak(ops: seq<Op>) returns (h: Heap, p: int)
      ensures fresh(h) && h.Valid() && h.lo <= p < h.hi && h.Lost(p)
    {
      h := new Heap(0, 100);
      var ok, q;
      assert BigEnough(h.chunks, 1, 10, 0);
      p, ok := h.Kmalloc(10);
      assert BigEnough(h.chunks, 1, 10, 0);
      q, ok := h.Kmalloc(10);
      assert h.chunks[0] == Chunk(true, 28, 100) && p == 4 && q == 18;
      h.Kfree(p);
      assert h.chunks[1] == Chunk(true, 0, 10) && h.nChunks == 1 && h.chunks[0] == Chunk(true, 28, 100);
      assert !FreeByte(h.chunks, h.nChunks, p);
      h.Kfree(q);
      assert h.nChunks == 2 && h.live == map[] && !FreeByte(h.chunks, h.nChunks, p);
      assert h.Lost(p) by {
        forall i | 0 <= i < |h.chunks| && h.chunks[i].present ensures !Holds(h.chunks[i], p) {
          assert i < 2 && Visible(h.chunks, h.nChunks, i);
        }
      }
      ghost var ms := h.Run(ops, {});
    }

    ghost function Snap(): Moment
      reads this
    {
      Moment(chunks, nChunks, live)
    }

    /** Any sequence of allocations, and of releases of blocks in use while the table has room; at first the
        blocks `inUse` are.  What is lost stays lost.  `ms` are the states between the operations. */
    method Run(ops: seq<Op>, inUse: set<int>) returns (ghost ms: seq<Moment>)
      requires Valid() && inUse == live.Keys
      modifies this
      ensures Valid() && forall x :: old(Lost(x)) ==> Lost(x)
      ensures |ms| == |ops| + 1 && ms[0] == old(Snap()) && ms[|ops|] == Snap()
      ensures forall i {:trigger ops[i]} :: 0 <= i < |ops| ==> Does(ops[i], ms[i], ms[i + 1])
    {
      var blocks := inUse;
      ms := [Snap()];
      var i := 0;
      hide Separate, Does, InTable, InBlock, FreeByte;
      while i < |ops|
        invariant 0 <= i <= |ops| && Valid() && blocks == live.Keys
        invariant |ms| == i + 1 && ms[0] == old(Snap()) && ms[i] == Snap()
        invariant forall j {:trigger ops[j]} :: 0 <= j < i ==> Does(ops[j], ms[j], ms[j + 1])
        invariant forall x :: old(Lost(x)) ==> Lost(x)
      {
        blocks := Step(ops[i], blocks);
        ms := ms + [Snap()];
        i := i + 1;
      }
    }

    /** One operation, if it can happen. */
    method Step(op: Op, blocks: set<int>) returns (r: set<int>)
      requires Valid() && blocks == live.Keys
      modifies this
      ensures Valid() && r == live.Keys && Does(op, old(Snap()), Snap())
      ensures forall x :: old(Lost(x)) ==> Lost(x)
    {
      hide Separate, InTable, InBlock, FreeByte, Touched, SeesSlot, BestFit, Carved, BytesTaken;
      r := blocks;
      match op {
        case Alloc(len) =>
          var p, ok := Kmalloc(len);
          if ok {
            r := r + {p};
            assert Cut(old(Snap()), Snap(), len, p);
          }
        case Free(p) =>
          if p in blocks && nChunks < MAX_CHUNKS {
            Kfree(p);
            r := r - {p};
          }
      }
    }

    /** The search for a slot in `_kfree`.  If all visible slots are taken it may return one that stays
        invisible. */
    method FreeSlot() returns (slot: nat)
      requires nChunks < MAX_CHUNKS == |chunks|
      modifies this`nChunks
      ensures slot < MAX_CHUNKS && slot <= old(nChunks)
      ensures if nChunks == old(nChunks) then !chunks[slot].present
              else nChunks == old(nChunks) + 1 && slot == old(nChunks)
      ensures slot < nChunks <==> old(SeesSlot(chunks, nChunks))
      ensures nChunks == old(nChunks) + if forall i :: 0 <= i <= old(nChunks) ==> chunks[i].present then 1 else 0
    {
      slot := nChunks;
      nChunks := nChunks + 1;
      var i: nat := 0;
      while i < nChunks
        invariant i <= nChunks == old(nChunks) + 1 && slot == old(nChunks)
        invariant forall j :: 0 <= j < i ==> chunks[j].present
      {
        if !chunks[i].present {
          nChunks := nChunks - 1;
          return i;
        }
        i := i + 1;
      }
    }

    /** `mm_fix_chunk`, again and again. */
    method Merge(slot: nat)
      requires Valid() && Floating(lo, hi, chunks, nChunks, live, slot)
      modifies this`chunks
      ensures Valid() && |chunks| == |old(chunks)|
      ensures forall x :: InTable(chunks, x) ==> old(InTable(chunks, x)) || Holds(old(chunks)[slot], x)
      ensures forall i :: nChunks <= i < |chunks| && i != slot ==> chunks[i] == old(chunks)[i]
      ensures old(!Touched(chunks, nChunks, chunks[slot].begin, chunks[slot].end)) ==> chunks == old(chunks)
      ensures forall x :: FreeByte(chunks, nChunks, x) <==>
                (old(FreeByte(chunks, nChunks, x)) ||
                 (Holds(old(chunks)[slot], x) && old(Touched(chunks, nChunks, chunks[slot].begin, chunks[slot].end))))
    {
      var c: nat := slot;
      var again := true;
      while again
        invariant Valid() && Floating(lo, hi, chunks, nChunks, live, c) && |chunks| == |old(chunks)|
        invariant forall x :: Covers(chunks, nChunks, c, x) <==> Covers(old(chunks), nChunks, slot, x)
        invariant forall x :: InTable(chunks, x) || Holds(chunks[c], x) ==>
            InTable(old(chunks), x) || Holds(old(chunks)[slot], x)
        invariant (c == slot || c < nChunks) && forall i :: nChunks <= i < |chunks| && i != slot ==>
            chunks[i] == old(chunks)[i]
        invariant chunks == old(chunks) && c == slot ==> again || Alone(chunks, nChunks, c)
        invariant chunks != old(chunks) || c != slot ==>
                    (Visible(chunks, nChunks, c) || chunks[c].begin == chunks[c].end) &&
                    old(Touched(chunks, nChunks, chunks[slot].begin, chunks[slot].end))
        decreases again, Present(chunks), if c < |chunks| && chunks[c].present then 0 else 1
      {
        again, c := FixChunk(c);
      }
      if chunks != old(chunks) || c != slot {
        forall x ensures FreeByte(chunks, nChunks, x) <==> Covers(old(chunks), nChunks, slot, x) {
          assert Covers(chunks, nChunks, c, x) <==> FreeByte(chunks, nChunks, x);
        }
      } else {
        assert !Touched(chunks, nChunks, chunks[slot].begin, chunks[slot].end);
      }
    }

    /** `mm_fix_chunk` */
    method FixChunk(c: nat) returns (merged: bool, next: nat)
      requires Valid() && Floating(lo, hi, chunks, nChunks, live, c)
      modifies this`chunks
      ensures Valid() && Floating(lo, hi, chunks, nChunks, live, next) && |chunks| == |old(chunks)| && c < |chunks|
      ensures merged ==>
          Fewer(old(chunks), chunks, c, next) && old(Touched(chunks, nChunks, chunks[c].begin, chunks[c].end))
      ensures merged ==> (Visible(chunks, nChunks, next) || chunks[next].begin == chunks[next].end)
      ensures forall x :: Covers(chunks, nChunks, next, x) <==> Covers(old(chunks), nChunks, c, x)
      ensures !merged ==> chunks == old(chunks) && next == c && Alone(chunks, nChunks, c)
      ensures forall x :: InTable(chunks, x) ==> InTable(old(chunks), x) || Holds(old(chunks)[c], x)
      ensures (next == c || next < nChunks) && forall i :: nChunks <= i < |chunks| && i != c ==>
          chunks[i] == old(chunks)[i]
    {
      var begin, end := chunks[c].begin, chunks[c].end;
      var i: nat := 0;
      while i < nChunks
        invariant i <= nChunks && chunks == old(chunks)
        invariant forall j {:trigger Visible(chunks, nChunks, j)} :: j < i && Visible(chunks, nChunks, j) ==>
                    chunks[j].begin != end && chunks[j].end != begin
      {
        if chunks[i].present {
          assert Visible(chunks, nChunks, i);
          if chunks[i].begin == end {
            Joined(lo, hi, chunks, nChunks, live, c, i, chunks[i].(begin := begin));
            JoinedBytes(lo, hi, chunks, nChunks, live, c, i, chunks[i].(begin := begin));
            chunks := chunks[i := chunks[i].(begin := begin)];
            chunks := chunks[c := chunks[c].(present := false)];
            return true, i;
          }
          if chunks[i].end == begin {
            Joined(lo, hi, chunks, nChunks, live, c, i, chunks[i].(end := end));
            JoinedBytes(lo, hi, chunks, nChunks, live, c, i, chunks[i].(end := end));
            chunks := chunks[i := chunks[i].(end := end)];
            chunks := chunks[c := chunks[c].(present := false)];
            return true, i;
          }
        }
        i := i + 1;
      }
      return false, c;
    }
  }

  /** No visible chunk begins where chunk `c` ends, or ends where it begins. */
  ghost predicate Alone(chunks: seq<Chunk>, n: nat, c: nat) {
    c < |chunks| && forall i {:trigger Visible(chunks, n, i)} :: Visible(chunks, n, i) ==>
      chunks[i].begin != chunks[c].end && chunks[i].end != chunks[c].begin
  }

  /** Merging comes to an end. */
  predicate Fewer(chunks: seq<Chunk>, chunks': seq<Chunk>, c: nat, next: nat) {
    && c < |chunks| && next < |chunks'|
    && (Present(chunks') < Present(chunks) || (Present(chunks') == Present(chunks) && !chunks[c].present &&
        chunks'[next].present))
  }

  function Present(chunks: seq<Chunk>): nat {
    if chunks == [] then 0 else (if chunks[0].present then 1 else 0) + Present(chunks[1..])
  }

  lemma {:induction false} PresentPut(chunks: seq<Chunk>, i: nat, x: Chunk)
    requires i < |chunks|
    ensures Present(chunks[i := x]) == Present(chunks) - (if chunks[i].present then 1 else 0) +
        (if x.present then 1 else 0)
  {
    if i == 0 {
      assert chunks[0 := x][1..] == chunks[1..];
    } else {
      PresentPut(chunks[1..], i - 1, x);
      assert chunks[i := x][1..] == chunks[1..][i - 1 := x];
    }
  }

  lemma Allocated(lo: int, hi: int, chunks: seq<Chunk>, n: nat, live: map<int, nat>, k: nat, len: nat)
    requires Separate(lo, hi, chunks, n, live) && BigEnough(chunks, n, len, k)
    ensures var c := chunks[k];
            && c.begin + 4 !in live
            && Separate(lo, hi, chunks[k := Chunk(c.begin + len + 4 != c.end, c.begin + len + 4, c.end)], n,
                live[c.begin + 4 := len])
  {
    var c := chunks[k];
    var p := c.begin + 4;
    var chunks', live' := chunks[k := Chunk(c.begin + len + 4 != c.end, c.begin + len + 4, c.end)], live[p := len];
    assert Visible(chunks, n, k);
    assert !Block(live, p);
    forall i | Visible(chunks', n, i) ensures Visible(chunks, n, i) {
    }
    forall r: int | Block(live', r) ensures r == p || Block(live, r) {
    }
  }

  /** Of the bytes that can be handed out just those of the block with its header are gone. */
  lemma CarvedBytes(lo: int, hi: int, chunks: seq<Chunk>, n: nat, live: map<int, nat>, k: nat, len: nat, p: int)
    requires Separate(lo, hi, chunks, n, live) && BigEnough(chunks, n, len, k) && p == chunks[k].begin + 4
    ensures var chunks' := chunks[k := Chunk(p + len != chunks[k].end, p + len, chunks[k].end)];
            BytesTaken(chunks, chunks', n, p - 4, p + len)
  {
    var chunks' := chunks[k := Chunk(p + len != chunks[k].end, p + len, chunks[k].end)];
    assert Visible(chunks, n, k);
    forall x ensures FreeByte(chunks', n, x) <==> FreeByte(chunks, n, x) && !(p - 4 <= x < p + len) {
      if FreeByte(chunks', n, x) {
        var i :| 0 <= i < |chunks'| && Visible(chunks', n, i) && Holds(chunks'[i], x);
        assert Visible(chunks, n, i) && Holds(chunks[i], x);
      }
      if FreeByte(chunks, n, x) && !(p - 4 <= x < p + len) {
        var i :| 0 <= i < |chunks| && Visible(chunks, n, i) && Holds(chunks[i], x);
        assert Visible(chunks', n, i) && Holds(chunks'[i], x);
      }
    }
    forall x | p - 4 <= x < p + len ensures FreeByte(chunks, n, x) {
      assert Holds(chunks[k], x);
    }
  }

  lemma StillLost(chunks: seq<Chunk>, live: map<int, nat>, k: nat, len: nat, x: int)
    requires k < |chunks| && chunks[k].present && chunks[k].begin + len + 4 <= chunks[k].end
    requires !InTable(chunks, x) && !InBlock(live, x)
    ensures var c := chunks[k];
            && !InTable(chunks[k := Chunk(c.begin + len + 4 != c.end, c.begin + len + 4, c.end)], x)
            && !InBlock(live[c.begin + 4 := len], x)
  {
    var c := chunks[k];
    assert !Holds(c, x);
    var live' := live[c.begin + 4 := len];
    forall p: int | Block(live', p) ensures !(p - 4 <= x < p + live'[p]) {
      assert p == c.begin + 4 || Block(live, p);
    }
  }

  lemma Released(lo: int, hi: int, chunks: seq<Chunk>, n: nat, live: map<int, nat>, p: int)
    requires Separate(lo, hi, chunks, n, live) && p in live
    ensures Separate(lo, hi, chunks, n, live - {p})
    ensures Within(lo, hi, p - 4, p - 4 + live[p]) && ClearOf(live - {p}, p - 4, p - 4 + live[p])
    ensures forall i {:trigger Visible(chunks, n, i)} :: Visible(chunks, n, i) ==>
        Apart(p - 4, p - 4 + live[p], chunks[i].begin, chunks[i].end)
  {
    assert Block(live, p);
    forall r: int | Block(live - {p}, r) ensures Block(live, r) && r != p && (live - {p})[r] == live[r] {
    }
  }

  lemma SlotFilled(lo: int, hi: int, chunks: seq<Chunk>, n: nat, n': nat, live: map<int, nat>, slot: nat, b: int,
      e: int)
    requires Separate(lo, hi, chunks, n, live) && slot < |chunks| && n' <= |chunks| && slot <= n
    requires if n' == n then !chunks[slot].present else n' == n + 1 && slot == n
    requires Within(lo, hi, b, e) && ClearOf(live, b, e)
    requires forall i {:trigger Visible(chunks, n, i)} :: Visible(chunks, n, i) ==>
        Apart(b, e, chunks[i].begin, chunks[i].end)
    ensures var chunks' := chunks[slot := Chunk(true, b, e)];
            Separate(lo, hi, chunks', n', live) && Floating(lo, hi, chunks', n', live, slot)
  {
    var chunks' := chunks[slot := Chunk(true, b, e)];
    forall i | Visible(chunks', n', i) && i != slot ensures Visible(chunks, n, i) {
    }
  }

  lemma Joined(lo: int, hi: int, chunks: seq<Chunk>, n: nat, live: map<int, nat>, c: nat, i: nat, x: Chunk)
    requires Separate(lo, hi, chunks, n, live) && Floating(lo, hi, chunks, n, live, c) && Visible(chunks, n, i) &&
        x.present
    requires || (chunks[i].begin == chunks[c].end && x == chunks[i].(begin := chunks[c].begin))
             || (chunks[i].end == chunks[c].begin && x == chunks[i].(end := chunks[c].end))
    ensures var chunks1 := chunks[i := x];
            var chunks2 := chunks1[c := chunks1[c].(present := false)];
            Separate(lo, hi, chunks2, n, live) && Floating(lo, hi, chunks2, n, live, i) && Fewer(chunks, chunks2, c, i)
  {
    var chunks1 := chunks[i := x];
    var chunks2 := chunks1[c := chunks1[c].(present := false)];
    PresentPut(chunks, i, x);
    PresentPut(chunks1, c, chunks1[c].(present := false));
    forall j | Visible(chunks2, n, j) ensures j != c && Visible(chunks, n, j) && (j != i ==> chunks2[j] == chunks[j]) {
    }
  }

  lemma BytesFilled(chunks: seq<Chunk>, n: nat, n': nat, slot: nat, b: int, e: int)
    requires slot <= n < |chunks| && n' <= |chunks|
    requires if n' == n then !chunks[slot].present else n' == n + 1 && slot == n
    ensures var chunks' := chunks[slot := Chunk(true, b, e)];
            && (forall x :: Covers(chunks', n', slot, x) <==> FreeByte(chunks, n, x) || b <= x < e)
            && (slot < n' ==> forall x :: b <= x < e ==> FreeByte(chunks', n', x))
            && (slot >= n' ==> forall x :: FreeByte(chunks', n', x) <==> FreeByte(chunks, n, x))
            && (slot >= n' ==> (Touched(chunks', n', b, e) <==> Touched(chunks, n, b, e)))
  {
    var chunks' := chunks[slot := Chunk(true, b, e)];
    forall i ensures i != slot ==> (Visible(chunks', n', i) <==> Visible(chunks, n, i)) {
    }
    assert !Visible(chunks, n, slot) && (slot < n' ==> Visible(chunks', n', slot));
  }

  /** Joining two chunks keeps their bytes. */
  lemma JoinedBytes(lo: int, hi: int, chunks: seq<Chunk>, n: nat, live: map<int, nat>, c: nat, i: nat, x: Chunk)
    requires Separate(lo, hi, chunks, n, live) && Floating(lo, hi, chunks, n, live, c) && Visible(chunks, n, i) &&
        x.present
    requires || (chunks[i].begin == chunks[c].end && x == chunks[i].(begin := chunks[c].begin))
             || (chunks[i].end == chunks[c].begin && x == chunks[i].(end := chunks[c].end))
    ensures var chunks1 := chunks[i := x];
            var chunks2 := chunks1[c := chunks1[c].(present := false)];
            && (forall y :: Covers(chunks2, n, i, y) <==> Covers(chunks, n, c, y))
            && (Visible(chunks2, n, i) || chunks2[i].begin == chunks2[i].end)
            && Touched(chunks, n, chunks[c].begin, chunks[c].end)
  {
    var chunks2 := chunks[i := x][c := chunks[i := x][c].(present := false)];
    forall j ensures j != c ==> (Visible(chunks2, n, j) <==> Visible(chunks, n, j)) {
    }
    assert forall y :: Holds(chunks2[i], y) <==> Holds(chunks[i], y) || Holds(chunks[c], y);
  }
}
