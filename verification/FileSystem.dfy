/**
 `fs/bitmap.c` (blocks), `_bmap` of `fs/inode.c` and `fs/truncate.c` of Linux 0.01 as one object
 that owns the zone bitmap, the blocks of a device and the zone numbers of its inodes.  Reads
 succeed, and nobody else holds a block that is freed.
 */
module FileSystem {
  import opened BlockTree
  import opened BlockSteps
  import opened BlockFree

  class Device {
    const first: nat
    const nzones: nat
    const zmap: array<Bitmap>
    const blocks: array<Block>
    var files: map<nat, seq<nat>>

    ghost function Snap(): State
      reads this, zmap, blocks
    {
      State(first, nzones, zmap[..], blocks[..], files)
    }

    /** A new file system: no block is used, and only the reserved bit is set. */
    constructor (firstdatazone: nat, zones: nat, maps: nat, inodes: set<nat>)
      requires 0 < firstdatazone <= zones && 0 < maps <= 8
      ensures Inv(Snap()) && Shows(Snap(), map n | n in inodes :: map[]) && fresh(zmap) && fresh(blocks)
    {
      first, nzones := firstdatazone, zones;
      zmap := new Bitmap[8](i => if i < maps then Bits(seq(8192, k => i == 0 && k == 0)) else Missing);
      blocks := new Block[zones](_ => Zeros());
      files := map n | n in inodes :: NoZones();
      new;
      EmptyInv(Snap(), maps, inodes);
    }

    // ---------- The bitmap ----------

    /** `find_first_zero`: 8192 if every bit is set. */
    static method FindFirstZero(bits: seq<bool>) returns (j: nat)
      requires |bits| == 8192
      ensures j <= 8192 && (forall k :: 0 <= k < j ==> bits[k]) && (j < 8192 ==> !bits[j])
    {
      j := 0;
      while j < 8192 && bits[j]
        invariant j <= 8192 && forall k :: 0 <= k < j ==> bits[k]
      {
        j := j + 1;
      }
    }

    method SetBit(k: nat) returns (was: bool)
      requires Shape(Snap()) && HasBit(zmap[..], k)
      modifies zmap
      ensures was <==> BitAt(old(zmap[..]), k)
      ensures zmap[..] == SetBitAt(old(zmap[..]), k)
    {
      was := zmap[k / 8192].bits[k % 8192];
      zmap[k / 8192] := Bits(zmap[k / 8192].bits[k % 8192 := true]);
      assert zmap[..] == old(zmap[..])[k / 8192 := Bits(old(zmap[k / 8192]).bits[k % 8192 := true])];
    }

    method ClearBit(k: nat) returns (was: bool)
      requires Shape(Snap()) && HasBit(zmap[..], k)
      modifies zmap
      ensures was <==> BitAt(old(zmap[..]), k)
      ensures zmap[..] == ClearBitAt(old(zmap[..]), k)
    {
      was := zmap[k / 8192].bits[k % 8192];
      zmap[k / 8192] := Bits(zmap[k / 8192].bits[k % 8192 := false]);
      assert zmap[..] == old(zmap[..])[k / 8192 := Bits(old(zmap[k / 8192]).bits[k % 8192 := false])];
    }

    /** The first clear bit of the whole map, or 65536. */
    method FindBit() returns (k: nat)
      requires Shape(Snap())
      ensures k == 0x1_0000 || (HasBit(zmap[..], k) && !BitAt(zmap[..], k))
      ensures forall c: nat :: c < k && HasBit(zmap[..], c) ==> BitAt(zmap[..], c)
    {
      var i := 0;
      while i < 8
        invariant i <= 8
        invariant forall c: nat :: 0 <= c < i * 8192 && HasBit(zmap[..], c) ==> BitAt(zmap[..], c)
      {
        if zmap[i].Bits? {
          var j := FindFirstZero(zmap[i].bits);
          BelowZero(zmap[..], i, j);
          if j < 8192 {
            return i * 8192 + j;
          }
        }
        i := i + 1;
      }
      k := 0x1_0000;
      assert k == i * 8192;
    }

    /** `new_block`: the first free block, zeroed; 0 if all blocks are used, though then a bit that
        stands for no block may have been set. */
    method NewBlock() returns (b: nat)
      requires Inv(Snap())
      modifies zmap, blocks
      ensures b != 0 ==> InZone(old(Snap()), b) && HasBit(old(Snap()).zmap, b - (first - 1)) && !Used(old(Snap()), b)
                         && Snap() == Taken(old(Snap()), b)
      ensures b != 0 ==> forall c: nat :: InZone(Snap(), c) && c < b && HasBit(Snap().zmap, c - (first - 1)) ==>
          Used(Snap(), c)
      ensures b == 0 ==> Full(old(Snap())) && Stray(old(Snap()), Snap())
    {
      ghost var s := Snap();
      hide Unique, Inside, Counted;
      var k := FindBit();
      assert s.zmap == zmap[..];
      AllBelow(s, k);
      if k >= 0x1_0000 {
        return 0;
      }
      var was := SetBit(k);
      assert !was;                            // "new_block: bit already set"
      b := k + first - 1;
      if b >= nzones {
        return 0;
      }
      BitNotZero(s, k);
      blocks[b] := Zeros();
      assert blocks[..] == old(blocks[..])[b := Zeros()];
      SetBitOnly(s.zmap, k);
    }

    /** `free_block`; not `ok` where the code panics. */
    method FreeBlock(b: nat) returns (ok: bool)
      requires Shape(Snap()) && (InZone(Snap(), b) ==> HasBit(zmap[..], b - (first - 1)))
      modifies zmap
      ensures ok <==> InZone(old(Snap()), b) && Used(old(Snap()), b)
      ensures Snap() == if InZone(old(Snap()), b) then
          old(Snap()).(zmap := ClearBitAt(old(zmap[..]), b - (first - 1))) else old(Snap())
    {
      if b < first || b >= nzones {
        return false;                         // "trying to free block not in datazone"
      }
      ok := ClearBit(b - (first - 1));        // else "free_block: bit already cleared"
    }

    // ---------- Mapping a block ----------

    /** Zone `k` of an inode, taking a new block for it if asked to. */
    method MapZone(n: nat, k: nat, create: bool) returns (z: nat)
      requires Inv(Snap()) && n in files && k < 9
      modifies zmap, blocks, this`files
      ensures MapStep(old(Snap()), Snap(), ZoneSlot(n, k), z, create)
    {
      ghost var s := Snap();
      z := files[n][k];
      if create && z == 0 {
        z := NewBlock();
        if z != 0 {
          PlaceZone(s, n, k, z);
          files := files[n := PutAt(files[n], k, z)];
          assert Snap() == SetZone(Taken(s, z), n, k, z);
          GrownStep(s, Snap(), ZoneSlot(n, k), z);
        } else {
          StrayStep(s, Snap(), ZoneSlot(n, k));
        }
      }
    }

    /** A word of the table in block `t`, taking a new block for it if asked to. */
    method MapWord(t: nat, j: nat, create: bool, ghost x: Slot) returns (z: nat)
      requires Inv(Snap()) && (x.IndEntry? || x.DindTab? || x.DindEntry?) && j == Index(x) < 512
      requires t == Raw(Snap(), Parent(x)) != 0
      modifies zmap, blocks
      ensures MapStep(old(Snap()), Snap(), x, z, create)
    {
      ghost var s := Snap();
      WordOf(s, x);
      TableInside(s, Parent(x));
      z := blocks[t][j];
      if create && z == 0 {
        z := NewBlock();
        if z != 0 {
          PlaceWord(s, x, z);
          blocks[t] := PutAt(blocks[t], j, z);
          assert Snap() == SetWord(Taken(s, z), t, j, z);
          GrownStep(s, Snap(), x, z);
        } else {
          StrayStep(s, Snap(), x);
        }
      }
    }

    /** `_bmap`: the block of logical block `lb` of inode `n`; 0 if there is none, or no room for one. */
    method BMap(n: nat, lb: nat, create: bool) returns (r: nat)
      requires Inv(Snap()) && n in files && lb < LIMIT
      modifies zmap, blocks, this`files
      ensures Looked(old(Snap()), Snap(), SlotOf(n, lb), r, create)
      ensures Leads(Snap(), n, lb, r)
    {
      r := Look(n, lb, create);
      LookedLeads(old(Snap()), Snap(), n, lb, r, create);
    }

    method Look(n: nat, lb: nat, create: bool) returns (r: nat)
      requires Inv(Snap()) && n in files && lb < LIMIT
      modifies zmap, blocks, this`files
      ensures Looked(old(Snap()), Snap(), SlotOf(n, lb), r, create)
    {
      ghost var s := Snap();
      hide Inv, MapStep, Looked, Raw;
      if lb < 7 {
        r := MapZone(n, lb, create);
        StepLooked(s, Snap(), Direct(n, lb), r, create);
      } else if lb < 7 + 512 {
        var t := MapZone(n, 7, create);
        r := MapEntry(s, t, lb - 7, create, IndEntry(n, lb - 7));
      } else {
        var b := lb - 7 - 512;
        var t := MapZone(n, 8, create);
        r := MapDouble(s, n, t, b, create);
      }
    }

    /** The last table on the way: its word, or nothing if there is no table. */
    method MapEntry(ghost s: State, t: nat, j: nat, create: bool, ghost x: Slot) returns (r: nat)
      requires Inv(s) && (x.IndEntry? || x.DindEntry?) && j == Index(x) < 512
      requires MapStep(s, Snap(), Parent(x), t, create)
      modifies zmap, blocks
      ensures Looked(s, Snap(), x, r, create)
    {
      ghost var s1 := Snap();
      NoEntry(s, x);
      if t == 0 {
        NoTable(s, s1, Parent(x), x, create);
        return 0;
      }
      r := MapWord(t, j, create, x);
      StepLooked(s1, Snap(), x, r, create);
      ThroughTable(s, s1, Snap(), Parent(x), t, x, r, create);
    }

    /** Through the double-indirect table in block `t`. */
    method MapDouble(ghost s: State, n: nat, t: nat, b: nat, create: bool) returns (r: nat)
      requires Inv(s) && b < 512 * 512 && MapStep(s, Snap(), Dind(n), t, create)
      modifies zmap, blocks
      ensures Looked(s, Snap(), DindEntry(n, b / 512, b % 512), r, create)
    {
      ghost var s1 := Snap();
      ghost var p, x := DindTab(n, b / 512), DindEntry(n, b / 512, b % 512);
      NoEntry(s, p);
      NoEntry(s, x);
      if t == 0 {
        NoTable(s, s1, Dind(n), p, create);
        NoDouble(s, s1, p, x, create);
        return 0;
      }
      var u := MapWord(t, b / 512, create, p);
      r := MapEntry(s1, u, b % 512, create, x);
      ThroughTable(s, s1, Snap(), Dind(n), t, x, r, create);
    }

    // ---------- Freeing ----------

    /** Free the block of slot `x`; it cannot be free already. */
    method FreeSlot(ghost s: State, ghost gone: set<Slot>, ghost x: Slot, b: nat)
      requires Freeing(s, Snap(), gone) && x !in gone && b == Raw(s, x) != 0
      modifies zmap
      ensures Freeing(s, Snap(), gone + {x})
    {
      ghost var s1 := Snap();
      hide Raw, Used, HasBit;
      NotYetGone(s, s1, gone, x);
      var ok := FreeBlock(b);
      assert ok;
      OneMoreGone(s, s1, Snap(), gone, x);
    }

    /** `free_ind`: the blocks a table names, then the table. */
    method FreeInd(ghost s: State, ghost gone: set<Slot>, ghost x: Slot, t: nat)
      requires Freeing(s, Snap(), gone) && (x.Ind? || x.DindTab?) && t == Raw(s, x)
      requires forall y :: y in gone ==> y != x && forall j :: y != Child(x, j)
      modifies zmap
      ensures Freeing(s, Snap(), gone + Family(s, x))
    {
      if t == 0 {
        assert gone + {} == gone;
        return;
      }
      TableInside(s, x);
      assert gone + Kids(s, x, 0) == gone;
      for i := 0 to 512
        invariant Freeing(s, Snap(), gone + Kids(s, x, i))
      {
        FreeEntry(s, gone, x, t, i);
      }
      FreeSlot(s, gone + Kids(s, x, 512), x, t);
      assert gone + Kids(s, x, 512) + {x} == gone + Family(s, x);
    }

    method FreeEntry(ghost s: State, ghost gone: set<Slot>, ghost x: Slot, t: nat, i: nat)
      requires (x.Ind? || x.DindTab?) && t == Raw(s, x) && i < 512 && 0 < t < s.nzones
      requires Freeing(s, Snap(), gone + Kids(s, x, i)) && forall y :: y in gone ==> y != Child(x, i)
      modifies zmap
      ensures Freeing(s, Snap(), gone + Kids(s, x, i + 1))
    {
      var p := blocks[t][i];
      WordOf(s, Child(x, i));
      KidsNext(s, x, i);
      if p != 0 {
        FreeSlot(s, gone + Kids(s, x, i), Child(x, i), p);
        assert gone + Kids(s, x, i) + {Child(x, i)} == gone + Kids(s, x, i + 1);
      }
    }

    /** `free_dind` */
    method FreeDind(ghost s: State, ghost gone: set<Slot>, n: nat, t: nat)
      requires Freeing(s, Snap(), gone) && t == Raw(s, Dind(n))
      requires forall y :: y in gone ==> !y.Dind? && !y.DindTab? && !y.DindEntry?
      modifies zmap
      ensures Freeing(s, Snap(), gone + if t == 0 then {} else Families(s, n, 512) + {Dind(n)})
    {
      if t == 0 {
        assert gone + {} == gone;
        return;
      }
      TableInside(s, Dind(n));
      assert gone + Families(s, n, 0) == gone;
      for i := 0 to 512
        invariant Freeing(s, Snap(), gone + Families(s, n, i))
      {
        var p := blocks[t][i];
        WordOf(s, DindTab(n, i));
        NotBefore(s, gone, n, i);
        FreeInd(s, gone + Families(s, n, i), DindTab(n, i), p);
        assert gone + Families(s, n, i) + Family(s, DindTab(n, i)) == gone + Families(s, n, i + 1);
      }
      NotBefore(s, gone, n, 512);
      FreeSlot(s, gone + Families(s, n, 512), Dind(n), t);
      assert gone + Families(s, n, 512) + {Dind(n)} == gone + (Families(s, n, 512) + {Dind(n)});
    }

    /** `truncate` of a regular file or a directory. */
    method Truncate(n: nat)
      requires Inv(Snap()) && n in files
      modifies zmap, this`files
      ensures Truncated(old(Snap()), Snap(), n)
    {
      ghost var s := Snap();
      NoneGone(s);
      ghost var direct := Zones(s, n, 7);
      FreeDirects(s, n);
      hide Freeing, Raw, Family, Families, Truncated, Inv;
      FreeInd(s, direct, Ind(n), files[n][7]);
      FreeDind(s, direct + Family(s, Ind(n)), n, files[n][8]);
      ghost var s1 := Snap();
      files := files[n := PutAt(PutAt(files[n], 7, 0), 8, 0)];
      assert files[n] == NoZones();
      assert direct + Family(s, Ind(n)) + (if Raw(s, Dind(n)) == 0 then {} else Families(s, n, 512) + {Dind(n)}) ==
          All(s, n);
      FilesShape(s, files, n);
      ZonesAside(s, s1, All(s, n), files);
      TruncateDone(s, Snap(), n);
    }

    method FreeDirects(ghost s: State, n: nat)
      requires Freeing(s, Snap(), {}) && n in files && s == Snap()
      modifies zmap, this`files
      ensures Freeing(s, Snap(), Zones(s, n, 7)) && n in files && |files[n]| == 9 && files == s.files[n := files[n]]
      ensures forall k :: 0 <= k < 7 ==> files[n][k] == 0
      ensures files[n][7] == Raw(s, Ind(n)) && files[n][8] == Raw(s, Dind(n))
    {
      assert Zones(s, n, 0) == {};
      ghost var zs := files[n];
      assert |zs| == 9 && s.files == s.files[n := zs];
      hide Freeing;
      for i := 0 to 7
        invariant n in files && |files[n]| == 9 && files == s.files[n := files[n]]
        invariant forall k :: 0 <= k < 9 ==> files[n][k] == if k < i then 0 else zs[k]
        invariant Freeing(s, Snap(), Zones(s, n, i))
      {
        FreeDirect(s, n, i);
      }
    }

    method FreeDirect(ghost s: State, n: nat, i: nat)
      requires n in files && |files[n]| == 9 && i < 7 && files[n][i] == Raw(s, Direct(n, i))
      requires Freeing(s, Snap(), Zones(s, n, i))
      modifies zmap, this`files
      ensures Freeing(s, Snap(), Zones(s, n, i + 1)) && files == old(files)[n := PutAt(old(files[n]), i, 0)]
    {
      ZonesNext(s, n, i);
      var b := files[n][i];
      if b != 0 {
        FreeSlot(s, Zones(s, n, i), Direct(n, i), b);
      }
      ghost var s1 := Snap();
      files := files[n := PutAt(files[n], i, 0)];
      ZonesAside(s, s1, Zones(s, n, i + 1), files);
    }

    // ---------- Files ----------

    /** One word of `file_read`: a block that was never written reads as zeros. */
    method ReadWord(ghost m: Files, n: nat, lb: nat, off: nat) returns (w: nat)
      requires Inv(Snap()) && Shows(Snap(), m) && n in files && lb < LIMIT && off < 512
      modifies zmap, blocks, this`files
      ensures Snap() == old(Snap())
      ensures n in m && |At(m[n], lb)| == 512 && w == At(m[n], lb)[off]
      ensures w == FileWord(Snap(), n, lb, off)
    {
      ghost var s := Snap();
      var r := BMap(n, lb, false);
      assert Snap() == s;
      BlockInside(s, n, lb);
      assert View(s, n, lb) == At(m[n], lb);
      w := if r == 0 then 0 else blocks[r][off];
    }

    /** One word of `file_write`: not `ok` if there is no room, and then nothing has changed in any file. */
    method WriteWord(ghost m: Files, n: nat, lb: nat, off: nat, w: nat) returns (ok: bool)
      requires Inv(Snap()) && Shows(Snap(), m) && n in files && lb < LIMIT && off < 512
      modifies zmap, blocks, this`files
      ensures Inv(Snap()) && files.Keys == old(files).Keys && n in m
      ensures Shows(Snap(), if ok then Written(m, n, lb, off, w) else m)
      ensures if ok then OneWord(old(Snap()), Snap(), n, lb, off, w) else SameWords(old(Snap()), Snap())
      ensures !ok ==> Full(Snap())
    {
      ghost var s := Snap();
      var r := BMap(n, lb, true);
      ghost var s1 := Snap();
      BlockInside(s1, n, lb);
      ShowsSame(s, s1, m);
      assert View(s1, n, lb) == At(m[n], lb);
      if r == 0 {
        ShownSame(s, s1, m);
        return false;
      }
      ghost var page := PutAt(s1.blocks[r], off, w);
      WriteData(s1, SlotOf(n, lb), page);
      blocks[r] := PutAt(blocks[r], off, w);
      assert Snap() == s1.(blocks := s1.blocks[r := page]);
      ShowsWritten(s1, Snap(), m, n, lb, off, w);
      ok := true;
      WrittenOneWord(s, Snap(), m, n, lb, off, w);
    }

    method Step(ghost m: Files, e: Event) returns (out: Outcome)
      requires Inv(Snap()) && Shows(Snap(), m)
      modifies zmap, blocks, this`files
      ensures Inv(Snap()) && Shows(Snap(), IdealStep(m, e, out)) && WordsAfter(old(Snap()), e, out, Snap())
      ensures files.Keys == old(files).Keys && (out.Refused? <==> !Legal(old(files).Keys, e))
      ensures out.NoRoom? ==> Full(Snap())
    {
      ShownKeys(Snap(), m);
      hide Inv, Full, Shows, FileWord;
      ghost var s := Snap();
      if !Legal(files.Keys, e) {
        return Refused;
      }
      match e {
        case Create(n, lb) => out := Reserve(m, n, lb);
        case Read(n, lb, off) =>
          var w := ReadWord(m, n, lb, off);
          out := Word(w);
        case Write(n, lb, off, w) =>
          var ok := WriteWord(m, n, lb, off, w);
          out := if ok then Done else NoRoom;
        case Empty(n) =>
          Truncate(n);
          TruncatedShows(s, Snap(), m, n);
          TruncatedWords(s, Snap(), m, n);
          out := Done;
      }
    }

    method Reserve(ghost m: Files, n: nat, lb: nat) returns (out: Outcome)
      requires Inv(Snap()) && Shows(Snap(), m) && n in files && lb < LIMIT
      modifies zmap, blocks, this`files
      ensures Inv(Snap()) && Shows(Snap(), m) && SameWords(old(Snap()), Snap()) && files.Keys == old(files).Keys
      ensures (out.Done? && exists r :: r != 0 && Leads(Snap(), n, lb, r)) || (out.NoRoom? && Full(Snap()))
    {
      hide Inv, View, Raw, Full, Leads;
      ghost var s := Snap();
      var r := BMap(n, lb, true);
      LookedShows(s, Snap(), m, SlotOf(n, lb), r, true);
      ShownSame(s, Snap(), m);
      out := if r != 0 then Done else NoRoom;
    }

    /** Any run: each file holds what was written to it since it was last truncated, and the set bits
        are exactly the blocks in use. */
    method Run(ghost m: Files, es: seq<Event>) returns (outs: seq<Outcome>)
      requires Inv(Snap()) && Shows(Snap(), m)
      modifies zmap, blocks, this`files
      ensures Inv(Snap()) && |outs| == |es| && Shows(Snap(), IdealRun(m, es, outs)) && files.Keys == old(files).Keys
      ensures Recalls(old(Snap()), es, outs, Snap())
      ensures forall j :: 0 <= j < |es| ==> (outs[j].Refused? <==> !Legal(old(files).Keys, es[j]))
    {
      hide Inv, Shows, IdealStep, Recalls, WordsAfter, Legal;
      outs := [];
      RecallsNone(Snap());
      for j := 0 to |es|
        invariant Inv(Snap()) && |outs| == j && Shows(Snap(), IdealRun(m, es[..j], outs))
        invariant files.Keys == old(files).Keys && Recalls(old(Snap()), es[..j], outs, Snap())
        invariant forall i :: 0 <= i < j ==> (outs[i].Refused? <==> !Legal(old(files).Keys, es[i]))
      {
        ghost var m1, s1 := IdealRun(m, es[..j], outs), Snap();
        var out := Step(m1, es[j]);
        RunNext(m, es[..j], outs, es[j], out);
        RecallsNext(old(Snap()), es[..j], outs, s1, es[j], out, Snap());
        assert es[..j + 1] == es[..j] + [es[j]];
        outs := outs + [out];
      }
      assert es[..|es|] == es;
    }
  }

  /** Every block the map has a bit for is used. */
  ghost predicate Full(s: State)
    requires s.first > 0
  {
    forall b: nat {:trigger Used(s, b)} :: InZone(s, b) && HasBit(s.zmap, b - (s.first - 1)) ==> Used(s, b)
  }

  /** At most a bit was set that stands for no block. */
  ghost predicate Stray(s: State, s': State) {
    s' == s || exists k: nat ::
      HasBit(s.zmap, k) && k + s.first - 1 >= s.nzones && s' == s.(zmap := SetBitAt(s.zmap, k))
  }

  lemma BelowZero(zmap: seq<Bitmap>, i: nat, j: nat)
    requires i < |zmap| && zmap[i].Bits? && |zmap[i].bits| == 8192 && j <= 8192
    requires forall k :: 0 <= k < j ==> zmap[i].bits[k]
    ensures forall c: nat :: i * 8192 <= c < i * 8192 + j && HasBit(zmap, c) ==> BitAt(zmap, c)
    ensures j < 8192 ==> HasBit(zmap, i * 8192 + j) && (BitAt(zmap, i * 8192 + j) <==> zmap[i].bits[j])
  {
    forall c: nat | i * 8192 <= c < i * 8192 + j && HasBit(zmap, c) ensures BitAt(zmap, c) {
      assert c / 8192 == i && c % 8192 < j;
    }
    if j < 8192 {
      assert (i * 8192 + j) / 8192 == i && (i * 8192 + j) % 8192 == j;
    }
  }

  lemma AllBelow(s: State, k: nat)
    requires Shape(s) && forall c: nat :: c < k && HasBit(s.zmap, c) ==> BitAt(s.zmap, c)
    ensures forall b: nat {:trigger Used(s, b)} ::
              InZone(s, b) && b - (s.first - 1) < k && HasBit(s.zmap, b - (s.first - 1)) ==> Used(s, b)
    ensures k >= 0x1_0000 || k + s.first - 1 >= s.nzones ==> Full(s)
  {
    hide BitAt;
    forall b: nat | InZone(s, b) && HasBit(s.zmap, b - (s.first - 1))
      ensures b - (s.first - 1) < 0x1_0000
    {
      assert (b - (s.first - 1)) / 8192 < 8;
    }
  }

  /** Bit 0 is reserved, so the block found is not below the first data block. */
  lemma BitNotZero(s: State, k: nat)
    requires BitAt(s.zmap, 0) && HasBit(s.zmap, k) && !BitAt(s.zmap, k)
    ensures k > 0
  {
  }

  /** What looking up slot `x` and perhaps filling it did. */
  ghost predicate MapStep(s: State, s': State, x: Slot, z: nat, create: bool) {
    && Inv(s') && s'.files.Keys == s.files.Keys && s'.nzones == s.nzones && s'.first == s.first
    && z == Raw(s', x)
    && (!create || Raw(s, x) != 0 ==> s' == s)
    && (forall y {:trigger Raw(s', y)} :: y != x ==> Raw(s', y) == Raw(s, y))
    && (forall n, lb {:trigger View(s', n, lb)} :: View(s', n, lb) == View(s, n, lb))
    && (Raw(s, x) == 0 && z != 0 ==> Grown(s, s', x, z))
    && (forall b: nat {:trigger Used(s', b)} :: InZone(s, b) && Used(s, b) ==> Used(s', b))
    && (create && z == 0 ==> Full(s'))
  }

  lemma GrownStep(s: State, s': State, x: Slot, z: nat)
    requires Inv(s) && Grown(s, s', x, z) && z != 0
    ensures MapStep(s, s', x, z, true)
  {
    hide Raw, Used;
    forall b: nat | InZone(s, b) && Used(s, b) ensures Used(s', b) {
      assert Owned(s, b);
      var y :| Raw(s, y) == b;
      assert Raw(s', y) == b && InZone(s', b);
    }
  }

  // ---------- From steps to a lookup ----------

  /** What `_bmap` of the logical block with slot `x` did: no file reads differently, and no other
      logical block is mapped differently. */
  ghost predicate Looked(s: State, s': State, x: Slot, r: nat, create: bool) {
    && Inv(s') && s'.files.Keys == s.files.Keys && s'.nzones == s.nzones && s'.first == s.first
    && r == Raw(s', x)
    && (!create || Raw(s, x) != 0 ==> s' == s)
    && (forall y {:trigger Raw(s', y)} :: IsData(y) && y != x ==> Raw(s', y) == Raw(s, y))
    && (forall n, lb {:trigger View(s', n, lb)} :: View(s', n, lb) == View(s, n, lb))
    && (Raw(s, x) == 0 && r != 0 ==> InZone(s, r) && !Used(s, r) && s'.blocks[r] == Zeros())
    && (create && r == 0 ==> Full(s'))
  }

  lemma StepLooked(s: State, s': State, x: Slot, r: nat, create: bool)
    requires Inv(s) && MapStep(s, s', x, r, create)
    ensures Looked(s, s', x, r, create)
  {
    hide Raw, Used, View;
    if Raw(s, x) == 0 && r != 0 {
      assert Unique(s') && InZone(s, r);
      forall y ensures Raw(s, y) != r {
        assert y != x ==> Raw(s', y) == Raw(s, y);
      }
    }
  }

  /** A table was looked up first. */
  lemma ThroughTable(s: State, s1: State, s2: State, p: Slot, t: nat, x: Slot, r: nat, create: bool)
    requires Inv(s) && MapStep(s, s1, p, t, create) && !IsData(p) && (Raw(s, x) != 0 ==> Raw(s, p) != 0)
    requires Looked(s1, s2, x, r, create) && p != x && Raw(s1, x) == Raw(s, x)
    ensures Looked(s, s2, x, r, create)
  {
    hide Raw, Used, View, Full;
  }

  lemma NoTable(s: State, s1: State, p: Slot, x: Slot, create: bool)
    requires Inv(s) && MapStep(s, s1, p, 0, create) && p != x
    requires (x.IndEntry? || x.DindTab? || x.DindEntry?) && Parent(x) == p && !IsData(p)
    ensures Looked(s, s1, x, 0, create)
  {
    WordOf(s1, x);
    WordOf(s, x);
    assert Raw(s1, x) == 0;
    hide Raw, Used, View, Full;
  }

  lemma NoDouble(s: State, s1: State, p: Slot, x: Slot, create: bool)
    requires Looked(s, s1, p, 0, create) && x.DindEntry? && p == Parent(x) && Raw(s, p) == 0
    ensures Looked(s, s1, x, 0, create)
  {
    WordOf(s1, x);
    WordOf(s, x);
    hide Used, View, Full;
  }

  lemma NoEntry(s: State, x: Slot)
    requires x.IndEntry? || x.DindTab? || x.DindEntry?
    ensures Raw(s, Parent(x)) == 0 ==> Raw(s, x) == 0
  {
  }

  lemma StrayStep(s: State, s': State, x: Slot)
    requires Inv(s) && Full(s) && Stray(s, s') && Raw(s, x) == 0
    ensures MapStep(s, s', x, 0, true)
  {
    if s' != s {
      var k: nat :| HasBit(s.zmap, k) && k + s.first - 1 >= s.nzones && s' == s.(zmap := SetBitAt(s.zmap, k));
      StrayBit(s, k);
      assert forall c: nat :: HasBit(s'.zmap, c) <==> HasBit(s.zmap, c);
    }
  }

  lemma TableInside(s: State, p: Slot)
    requires Inv(s) && Raw(s, p) != 0
    ensures InZone(s, Raw(s, p)) && |s.blocks[Raw(s, p)]| == 512
  {
    assert Inside(s);
  }

  lemma KidsNext(s: State, x: Slot, i: nat)
    requires x.Ind? || x.DindTab?
    ensures Child(x, i) !in Kids(s, x, i)
    ensures Kids(s, x, i + 1) == Kids(s, x, i) + if Raw(s, Child(x, i)) != 0 then {Child(x, i)} else {}
  {
    assert forall j :: Child(x, j) == Child(x, i) ==> j == i;
    hide Raw, Child;
  }

  lemma ZonesNext(s: State, n: nat, i: nat)
    ensures Direct(n, i) !in Zones(s, n, i)
    ensures Zones(s, n, i + 1) == Zones(s, n, i) + if Raw(s, Direct(n, i)) != 0 then {Direct(n, i)} else {}
  {
    hide Raw;
  }

  /** Tables not reached yet are not gone. */
  lemma {:induction false} NotBefore(s: State, gone: set<Slot>, n: nat, i: nat)
    requires forall y :: y in gone ==> !y.Dind? && !y.DindTab? && !y.DindEntry?
    ensures Dind(n) !in gone + Families(s, n, i)
    ensures forall y :: y in gone + Families(s, n, i) ==> y != DindTab(n, i) && forall j :: y != Child(DindTab(n, i), j)
  {
    forall y | y in Families(s, n, i) ensures !y.Dind? && (y.DindTab? || y.DindEntry?) && y.j < i {
      FamiliesHold(s, n, i, y);
      var j :| 0 <= j < i && y in Family(s, DindTab(n, j));
      FamilyHolds(s, DindTab(n, j), y);
    }
  }

  lemma FilesShape(s: State, files: map<nat, seq<nat>>, n: nat)
    requires Inv(s) && n in files && |files[n]| == 9 && files == s.files[n := files[n]]
    ensures forall m :: m in files ==> |files[m]| == 9
  {
  }

  // ---------- The simple machine: a file is a map from block to contents ----------

  type File = map<nat, Block>
  type Files = map<nat, File>

  function At(f: File, lb: nat): Block {
    if lb in f then f[lb] else Zeros()
  }

  ghost predicate Shows(s: State, m: Files) {
    && m.Keys == s.files.Keys
    && forall n: nat, lb: nat {:trigger View(s, n, lb)} :: n in m ==> View(s, n, lb) == At(m[n], lb)
  }

  function Written(m: Files, n: nat, lb: nat, off: nat, w: nat): Files
    requires n in m
  {
    m[n := Put(m[n], lb, Poke(At(m[n], lb), off, w))]
  }

  function Put(f: File, lb: nat, page: Block): File {
    f[lb := page]
  }

  function Poke(page: Block, off: nat, w: nat): Block {
    if off < |page| then PutAt(page, off, w) else page
  }

  datatype Event =
    | Create(n: nat, lb: nat)
    | Read(n: nat, lb: nat, off: nat)
    | Write(n: nat, lb: nat, off: nat, w: nat)
    | Empty(n: nat)

  datatype Outcome = Done | Word(w: nat) | NoRoom | Refused

  predicate Legal(inodes: set<nat>, e: Event) {
    match e
    case Create(n, lb) => n in inodes && lb < LIMIT
    case Read(n, lb, off) => n in inodes && lb < LIMIT && off < 512
    case Write(n, lb, off, _) => n in inodes && lb < LIMIT && off < 512
    case Empty(n) => n in inodes
  }

  /** Reserving a block changes no file; neither does a write that finds no room. */
  function IdealStep(m: Files, e: Event, out: Outcome): Files {
    match e
    case Create(_, _) => m
    case Read(_, _, _) => m
    case Write(n, lb, off, w) => if out.Done? && n in m then Written(m, n, lb, off, w) else m
    case Empty(n) => if out.Done? then m[n := map[]] else m
  }

  function IdealRun(m: Files, es: seq<Event>, outs: seq<Outcome>): Files
    requires |es| == |outs|
  {
    if es == [] then m
    else IdealStep(IdealRun(m, es[..|es| - 1], outs[..|es| - 1]), es[|es| - 1], outs[|es| - 1])
  }

  lemma RunNext(m: Files, es: seq<Event>, outs: seq<Outcome>, e: Event, out: Outcome)
    requires |es| == |outs|
    ensures IdealRun(m, es + [e], outs + [out]) == IdealStep(IdealRun(m, es, outs), e, out)
  {
    assert (es + [e])[..|es|] == es && (outs + [out])[..|es|] == outs;
  }

  // ---------- Words of files ----------

  /** The word at `off` of a logical block; nothing was ever written to a hole. */
  function FileWord(s: State, n: nat, lb: nat, off: nat): nat {
    var b := Raw(s, SlotOf(n, lb));
    if b == 0 then 0 else if b < |s.blocks| && off < |s.blocks[b]| then s.blocks[b][off] else 0
  }

  predicate InFile(s: State, n: nat, off: nat) {
    n in s.files && off < 512
  }

  ghost predicate SameWords(s: State, s': State) {
    forall n: nat, lb: nat, off: nat {:trigger FileWord(s', n, lb, off)} :: InFile(s', n, off) ==>
      FileWord(s', n, lb, off) == FileWord(s, n, lb, off)
  }

  /** One word of one file has become `w`; every other word of every file is as before. */
  ghost predicate OneWord(s: State, s': State, n: nat, lb: nat, off: nat, w: nat) {
    forall k: nat, j: nat, o: nat {:trigger FileWord(s', k, j, o)} :: InFile(s', k, o) ==>
      FileWord(s', k, j, o) == if (k, j, o) == (n, lb, off) then w else FileWord(s, k, j, o)
  }

  /** What a file holds after event `e`: what was written there just now, nothing after truncation, or what was there
      before. */
  ghost predicate WordsAfter(s: State, e: Event, out: Outcome, s': State) {
    && (out.Done? ==> match e
        case Create(_, _) => SameWords(s, s')
        case Read(_, _, _) => false
        case Write(n, lb, off, w) => OneWord(s, s', n, lb, off, w)
        case Empty(n) =>
          forall k: nat, j: nat, o: nat {:trigger FileWord(s', k, j, o)} :: InFile(s', k, o) ==>
            FileWord(s', k, j, o) == if k == n then 0 else FileWord(s, k, j, o))
    && (!out.Done? ==> SameWords(s, s'))
    && (out.Word? ==> e.Read? && out.w == FileWord(s, e.n, e.lb, e.off))
  }

  /** The word that was written last at a place of a file since the file was truncated. */
  function Recalled(s: State, es: seq<Event>, outs: seq<Outcome>, n: nat, lb: nat, off: nat): nat
    requires |es| == |outs|
  {
    if es == [] then FileWord(s, n, lb, off)
    else
      var i := |es| - 1;
      match es[i]
      case Write(k, j, o, w) =>
        if outs[i].Done? && (k, j, o) == (n, lb, off) then w else Recalled(s, es[..i], outs[..i], n, lb, off)
      case Empty(k) => if outs[i].Done? && k == n then 0 else Recalled(s, es[..i], outs[..i], n, lb, off)
      case _ => Recalled(s, es[..i], outs[..i], n, lb, off)
  }

  /** Every file holds what was written last at each place, and every read found that. */
  ghost predicate Recalls(s: State, es: seq<Event>, outs: seq<Outcome>, s': State) {
    && |es| == |outs|
    && (forall n: nat, lb: nat, off: nat {:trigger FileWord(s', n, lb, off)} :: InFile(s', n, off) ==>
          FileWord(s', n, lb, off) == Recalled(s, es, outs, n, lb, off))
    && (forall x {:trigger outs[x]} :: 0 <= x < |es| && es[x].Read? && outs[x].Word? ==>
          outs[x].w == Recalled(s, es[..x], outs[..x], es[x].n, es[x].lb, es[x].off))
  }

  lemma RecallsNone(s: State)
    ensures Recalls(s, [], [], s)
  {
  }

  lemma RecallsNext(s: State, es: seq<Event>, outs: seq<Outcome>, s1: State, e: Event, out: Outcome, s2: State)
    requires Recalls(s, es, outs, s1) && WordsAfter(s1, e, out, s2) && s2.files.Keys == s1.files.Keys
    requires out.Refused? <==> !Legal(s1.files.Keys, e)
    ensures Recalls(s, es + [e], outs + [out], s2)
  {
    var es', outs' := es + [e], outs + [out];
    assert es'[..|es|] == es && outs'[..|es|] == outs;
    hide FileWord;
    forall n: nat, lb: nat, off: nat | InFile(s2, n, off)
      ensures FileWord(s2, n, lb, off) == Recalled(s, es', outs', n, lb, off)
    {
      assert InFile(s1, n, off);
    }
    RecallsReads(s, es, outs, s1, e, out, s2);
  }

  lemma RecallsReads(s: State, es: seq<Event>, outs: seq<Outcome>, s1: State, e: Event, out: Outcome, s2: State)
    requires Recalls(s, es, outs, s1) && WordsAfter(s1, e, out, s2)
    requires out.Refused? <==> !Legal(s1.files.Keys, e)
    ensures var es', outs' := es + [e], outs + [out];
            forall x {:trigger outs'[x]} :: 0 <= x < |es'| && es'[x].Read? && outs'[x].Word? ==>
              outs'[x].w == Recalled(s, es'[..x], outs'[..x], es'[x].n, es'[x].lb, es'[x].off)
  {
    hide FileWord, Recalled;
    var es', outs' := es + [e], outs + [out];
    forall x {:trigger outs'[x]} | 0 <= x < |es'| && es'[x].Read? && outs'[x].Word?
      ensures outs'[x].w == Recalled(s, es'[..x], outs'[..x], es'[x].n, es'[x].lb, es'[x].off)
    {
      assert es'[..x] == es[..x] && outs'[..x] == outs[..x];
      if x < |es| {
        assert es'[x] == es[x] && outs'[x] == outs[x];
      } else {
        assert es[..x] == es && outs[..x] == outs && InFile(s1, e.n, e.off);
      }
    }
  }

  lemma ShownKeys(s: State, m: Files)
    requires Shows(s, m)
    ensures m.Keys == s.files.Keys
  {
  }

  lemma ShownWord(s: State, m: Files, n: nat, lb: nat, off: nat)
    requires Inv(s) && Shows(s, m) && InFile(s, n, off)
    ensures n in m && |At(m[n], lb)| == 512 && FileWord(s, n, lb, off) == At(m[n], lb)[off]
  {
    BlockInside(s, n, lb);
    assert View(s, n, lb) == At(m[n], lb);
    hide Raw, SlotOf;
  }

  lemma ShownSame(s: State, s': State, m: Files)
    requires Inv(s) && Inv(s') && Shows(s, m) && Shows(s', m)
    ensures SameWords(s, s')
  {
    hide Inv, FileWord;
    forall n: nat, lb: nat, off: nat | InFile(s', n, off)
      ensures FileWord(s', n, lb, off) == FileWord(s, n, lb, off)
    {
      ShownWord(s', m, n, lb, off);
      ShownWord(s, m, n, lb, off);
    }
  }

  lemma WrittenOneWord(s: State, s': State, m: Files, n: nat, lb: nat, off: nat, w: nat)
    requires Inv(s) && Inv(s') && Shows(s, m) && InFile(s, n, off) && n in m && Shows(s', Written(m, n, lb, off, w))
    ensures OneWord(s, s', n, lb, off, w)
  {
    hide Inv, FileWord;
    ShownWord(s, m, n, lb, off);
    forall k: nat, j: nat, o: nat | InFile(s', k, o)
      ensures FileWord(s', k, j, o) == if (k, j, o) == (n, lb, off) then w else FileWord(s, k, j, o)
    {
      ShownWord(s', Written(m, n, lb, off, w), k, j, o);
      ShownWord(s, m, k, j, o);
    }
  }

  lemma TruncatedWords(s: State, s': State, m: Files, n: nat)
    requires Inv(s) && Inv(s') && Shows(s, m) && n in m && Shows(s', m[n := map[]])
    ensures WordsAfter(s, Empty(n), Done, s')
  {
    hide Inv, FileWord;
    forall k: nat, j: nat, o: nat | InFile(s', k, o)
      ensures FileWord(s', k, j, o) == if k == n then 0 else FileWord(s, k, j, o)
    {
      ShownWord(s', m[n := map[]], k, j, o);
      ShownWord(s, m, k, j, o);
    }
  }

  lemma LookedLeads(s: State, s': State, n: nat, lb: nat, r: nat, create: bool)
    requires Looked(s, s', SlotOf(n, lb), r, create) && n in s'.files && lb < LIMIT
    ensures Leads(s', n, lb, r)
  {
    hide Raw, View, Used, Full, Leads, Inv, SlotOf;
    SlotLeads(s', n, lb);
  }

  lemma BlockInside(s: State, n: nat, lb: nat)
    requires Inv(s)
    ensures Raw(s, SlotOf(n, lb)) < s.nzones && |View(s, n, lb)| == 512
    ensures Raw(s, SlotOf(n, lb)) != 0 ==> View(s, n, lb) == s.blocks[Raw(s, SlotOf(n, lb))]
  {
    assert Inside(s);
    if Raw(s, SlotOf(n, lb)) != 0 {
      assert InZone(s, Raw(s, SlotOf(n, lb)));
    }
  }

  lemma ShowsSame(s: State, s': State, m: Files)
    requires Shows(s, m) && s'.files.Keys == s.files.Keys
    requires forall n: nat, lb: nat :: View(s', n, lb) == View(s, n, lb)
    ensures Shows(s', m)
  {
    hide View;
  }

  lemma LookedShows(s: State, s': State, m: Files, x: Slot, r: nat, create: bool)
    requires Shows(s, m) && Looked(s, s', x, r, create)
    ensures Shows(s', m) && Inv(s') && r == Raw(s', x)
  {
    hide View, Raw, Full;
  }

  lemma ShowsWritten(s: State, s': State, m: Files, n: nat, lb: nat, off: nat, w: nat)
    requires Shows(s, m) && n in m && s'.files.Keys == s.files.Keys
    requires forall k: nat, j: nat :: View(s', k, j) == if SlotOf(k, j) == SlotOf(n, lb) then
        Poke(View(s, n, lb), off, w) else View(s, k, j)
    ensures Shows(s', Written(m, n, lb, off, w))
  {
    hide View;
    var m' := Written(m, n, lb, off, w);
    forall k: nat, j: nat | k in m' ensures View(s', k, j) == At(m'[k], j) {
      if SlotOf(k, j) == SlotOf(n, lb) {
        SlotInjective(k, j, n, lb);
      }
      assert View(s, k, j) == At(m[k], j);
      assert View(s, n, lb) == At(m[n], lb);
    }
  }

  lemma TruncatedShows(s: State, s': State, m: Files, n: nat)
    requires Shows(s, m) && n in m && Truncated(s, s', n)
    ensures Shows(s', m[n := map[]]) && Inv(s')
  {
    hide View, Raw, Used;
    forall k: nat, j: nat | k in m ensures View(s', k, j) == At(m[n := map[]][k], j) {
      assert View(s, k, j) == At(m[k], j);
    }
  }

  lemma EmptyInv(s: State, maps: nat, inodes: set<nat>)
    requires Shape(s) && 0 < maps <= 8
    requires forall i :: 0 <= i < 8 ==> s.zmap[i] == if i < maps then Bits(seq(8192, k => i == 0 && k == 0))
        else Missing
    requires s.files == map n | n in inodes :: NoZones()
    requires forall b :: 0 <= b < s.nzones ==> s.blocks[b] == Zeros()
    ensures Inv(s) && Shows(s, map n | n in inodes :: map[])
  {
    forall x ensures Raw(s, x) == 0 {
    }
    assert forall b: nat :: InZone(s, b) ==> !Used(s, b);
  }
}
