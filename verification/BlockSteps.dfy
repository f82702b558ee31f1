/**
 Taking a block, giving it a place, and writing to it: what each does to the block tree.
 */
module BlockSteps {
  import opened BlockTree

  function SetBitAt(zmap: seq<Bitmap>, k: nat): seq<Bitmap>
    requires k / 8192 < |zmap| && zmap[k / 8192].Bits? && k % 8192 < |zmap[k / 8192].bits|
  {
    zmap[k / 8192 := Bits(zmap[k / 8192].bits[k % 8192 := true])]
  }

  function ClearBitAt(zmap: seq<Bitmap>, k: nat): seq<Bitmap>
    requires k / 8192 < |zmap| && zmap[k / 8192].Bits? && k % 8192 < |zmap[k / 8192].bits|
  {
    zmap[k / 8192 := Bits(zmap[k / 8192].bits[k % 8192 := false])]
  }

  lemma SetBitOnly(zmap: seq<Bitmap>, k: nat)
    requires k / 8192 < |zmap| && zmap[k / 8192].Bits? && k % 8192 < |zmap[k / 8192].bits|
    ensures forall c :: BitAt(SetBitAt(zmap, k), c) <==> BitAt(zmap, c) || c == k
  {
    forall c: nat ensures BitAt(SetBitAt(zmap, k), c) <==> BitAt(zmap, c) || c == k {
      if c / 8192 == k / 8192 && c % 8192 == k % 8192 {
        assert c == k;
      }
    }
  }

  lemma ClearBitOnly(zmap: seq<Bitmap>, k: nat)
    requires k / 8192 < |zmap| && zmap[k / 8192].Bits? && k % 8192 < |zmap[k / 8192].bits|
    ensures forall c :: BitAt(ClearBitAt(zmap, k), c) <==> BitAt(zmap, c) && c != k
  {
    forall c: nat ensures BitAt(ClearBitAt(zmap, k), c) <==> BitAt(zmap, c) && c != k {
      if c / 8192 == k / 8192 && c % 8192 == k % 8192 {
        assert c == k;
      }
    }
  }

  /** Bit `k` of the map exists. */
  predicate HasBit(zmap: seq<Bitmap>, k: nat) {
    k / 8192 < |zmap| && zmap[k / 8192].Bits? && k % 8192 < |zmap[k / 8192].bits|
  }

  /** `new_block` found block `b`: its bit is set and its contents are zero. */
  function Taken(s: State, b: nat): State
    requires Shape(s) && InZone(s, b) && HasBit(s.zmap, b - (s.first - 1))
  {
    s.(zmap := SetBitAt(s.zmap, b - (s.first - 1)), blocks := s.blocks[b := Zeros()])
  }

  lemma TakenFacts(s: State, b: nat)
    requires Inv(s) && InZone(s, b) && HasBit(s.zmap, b - (s.first - 1)) && !Used(s, b)
    ensures var s' := Taken(s, b);
            && Shape(s') && (forall x :: Raw(s', x) == Raw(s, x)) && (forall x :: Raw(s, x) != b)
            && (forall c :: InZone(s, c) ==> (Used(s', c) <==> Used(s, c) || c == b)) && BitAt(s'.zmap, 0)
  {
    SetBitOnly(s.zmap, b - (s.first - 1));
    assert !Owned(s, b);
    var s' := Taken(s, b);
    forall x ensures Raw(s', x) == Raw(s, x) && Raw(s, x) != b {
      RawTaken(s, b, x);
    }
  }

  /** A block that has no place is no table. */
  lemma RawTaken(s: State, b: nat, x: Slot)
    requires Shape(s) && InZone(s, b) && HasBit(s.zmap, b - (s.first - 1)) && !Owned(s, b)
    ensures Raw(Taken(s, b), x) == Raw(s, x) && Raw(s, x) != b
  {
    match x
    case Direct(_, _) =>
    case Ind(n) =>
    case IndEntry(n, j) => assert Raw(s, Ind(n)) != b;
    case Dind(n) =>
    case DindTab(n, j) => assert Raw(s, Dind(n)) != b;
    case DindEntry(n, j, k) => assert Raw(s, Dind(n)) != b && Raw(s, DindTab(n, j)) != b;
  }

  // ---------- A place in the inode ----------

  function ZoneSlot(n: nat, k: nat): Slot {
    if k < 7 then Direct(n, k) else if k == 7 then Ind(n) else Dind(n)
  }

  function SetZone(s: State, n: nat, k: nat, b: nat): State
    requires n in s.files && k < |s.files[n]|
  {
    s.(files := s.files[n := PutAt(s.files[n], k, b)])
  }

  function PutAt(ws: seq<nat>, k: nat, w: nat): seq<nat>
    requires k < |ws|
  {
    ws[k := w]
  }

  /** An empty block becomes zone `k` of inode `n`. */
  lemma SetZoneRaw(s: State, n: nat, k: nat, b: nat, y: Slot)
    requires Shape(s) && n in s.files && k < 9 && s.files[n][k] == 0 && InZone(s, b) && s.blocks[b] == Zeros()
    ensures Raw(SetZone(s, n, k, b), y) == if y == ZoneSlot(n, k) then b else Raw(s, y)
  {
  }

  // ---------- A place in a table ----------

  /** The table that holds a slot. */
  function Parent(x: Slot): (p: Slot)
    requires x.IndEntry? || x.DindTab? || x.DindEntry?
    ensures !IsData(p)
  {
    match x
    case IndEntry(n, _) => Ind(n)
    case DindTab(n, _) => Dind(n)
    case DindEntry(n, j, _) => DindTab(n, j)
  }

  function Index(x: Slot): nat
    requires x.IndEntry? || x.DindTab? || x.DindEntry?
  {
    match x
    case IndEntry(_, j) => j
    case DindTab(_, j) => j
    case DindEntry(_, _, k) => k
  }

  function SetWord(s: State, t: nat, j: nat, w: nat): State
    requires t < |s.blocks| && j < |s.blocks[t]|
  {
    s.(blocks := s.blocks[t := PutAt(s.blocks[t], j, w)])
  }

  lemma WordOf(s: State, x: Slot)
    requires x.IndEntry? || x.DindTab? || x.DindEntry?
    ensures Raw(s, x) == Word(s, Raw(s, Parent(x)), Index(x))
  {
  }

  /** Word `x` of a table is set to an empty block; tables are distinct, so no other slot changes. */
  lemma SetWordRaw(s: State, x: Slot, b: nat, y: Slot)
    requires Shape(s) && Unique(s) && (x.IndEntry? || x.DindTab? || x.DindEntry?) && Index(x) < 512
    requires 0 < Raw(s, Parent(x)) < s.nzones && Raw(s, x) == 0
    requires InZone(s, b) && s.blocks[b] == Zeros() && forall z :: Raw(s, z) != b
    ensures Raw(SetWord(s, Raw(s, Parent(x)), Index(x), b), y) == if y == x then b else Raw(s, y)
  {
    var t := Raw(s, Parent(x));
    var s' := SetWord(s, t, Index(x), b);
    assert forall c, j :: Word(s', c, j) == if c == t && j == Index(x) then b else Word(s, c, j);
    assert forall n, k :: Zone(s', n, k) == Zone(s, n, k);
    hide Word, Zone;
    match y
    case Direct(_, _) =>
    case Ind(_) =>
    case Dind(_) =>
    case IndEntry(n, j) => assert Raw(s, Ind(n)) == t ==> Ind(n) == Parent(x);
    case DindTab(n, j) => assert Raw(s, Dind(n)) == t ==> Dind(n) == Parent(x);
    case DindEntry(n, j, k) =>
      assert Raw(s, Dind(n)) == t ==> Dind(n) == Parent(x);
      assert Raw(s, DindTab(n, j)) == t ==> DindTab(n, j) == Parent(x);
      WordZero(s, b, k);
  }

  lemma WordZero(s: State, b: nat, j: nat)
    requires Shape(s) && InZone(s, b) && s.blocks[b] == Zeros()
    ensures Word(s, b, j) == 0 && Word(s, 0, j) == 0
  {
  }

  // ---------- What files show ----------

  /** If data slots keep their blocks and these their contents, and a new slot holds zeros, every file
      reads as before. */
  lemma ViewsKept(s: State, s': State)
    requires Shape(s) && Shape(s') && s'.nzones == s.nzones
    requires forall x :: IsData(x) ==>
               || (Raw(s', x) == Raw(s, x) && (0 < Raw(s, x) < s.nzones ==>
                   s'.blocks[Raw(s, x)] == s.blocks[Raw(s, x)]))
               || (Raw(s, x) == 0 && 0 < Raw(s', x) < s.nzones && s'.blocks[Raw(s', x)] == Zeros())
    ensures forall n, lb :: View(s', n, lb) == View(s, n, lb)
  {
    hide Raw, SlotOf;
  }

  /** A fresh block was given to `x`: the tree is in order, and every file reads as before. */
  ghost predicate Grown(s: State, s': State, x: Slot, b: nat) {
    && Inv(s') && s'.first == s.first && s'.nzones == s.nzones && s'.files.Keys == s.files.Keys
    && Gains(s, s', x, b) && InZone(s, b) && s'.blocks[b] == Zeros()
    && (forall n, lb {:trigger View(s', n, lb)} :: View(s', n, lb) == View(s, n, lb))
  }

  lemma PlaceZone(s: State, n: nat, k: nat, b: nat)
    requires Inv(s) && InZone(s, b) && HasBit(s.zmap, b - (s.first - 1)) && !Used(s, b)
    requires n in s.files && k < 9 && s.files[n][k] == 0
    ensures Grown(s, SetZone(Taken(s, b), n, k, b), ZoneSlot(n, k), b)
  {
    TakenFacts(s, b);
    var s1, x := Taken(s, b), ZoneSlot(n, k);
    var s2 := SetZone(s1, n, k, b);
    forall y ensures Raw(s2, y) == if y == x then b else Raw(s, y) {
      SetZoneRaw(s1, n, k, b, y);
    }
    assert Raw(s, x) == 0;
    assert Inside(s);
    hide Raw, Used, BitAt, HasBit;
    GainInv(s, s2, x, b);
    ViewsKept(s, s2);
  }

  lemma PlaceWord(s: State, x: Slot, b: nat)
    requires Inv(s) && InZone(s, b) && HasBit(s.zmap, b - (s.first - 1)) && !Used(s, b)
    requires (x.IndEntry? || x.DindTab? || x.DindEntry?) && Index(x) < 512 && Raw(s, Parent(x)) != 0 && Raw(s, x) == 0
    ensures Raw(s, Parent(x)) < s.nzones
    ensures Grown(s, SetWord(Taken(s, b), Raw(s, Parent(x)), Index(x), b), x, b)
  {
    TakenFacts(s, b);
    var t := Raw(s, Parent(x));
    assert InZone(s, t) && t != b && Shape(s);
    var s2 := SetWord(Taken(s, b), t, Index(x), b);
    PlacedShape(s, s2, t, Index(x), b);
    PlacedRaw(s, s2, x, b);
    PlacedData(s, s2, x, b);
    hide Raw, Used, BitAt, Inv, Shape, HasBit, SetWord, Taken;
    GainInv(s, s2, x, b);
    ViewsKept(s, s2);
  }

  lemma PlacedShape(s: State, s2: State, t: nat, k: nat, b: nat)
    requires Inv(s) && InZone(s, b) && HasBit(s.zmap, b - (s.first - 1)) && !Used(s, b)
    requires InZone(s, t) && t != b && k < 512 && s2 == SetWord(Taken(s, b), t, k, b)
    ensures Shape(s2) && s2.first == s.first && s2.nzones == s.nzones && s2.files == s.files && s2.blocks[b] == Zeros()
    ensures (forall c :: InZone(s, c) ==> (Used(s2, c) <==> Used(s, c) || c == b)) && BitAt(s2.zmap, 0)
  {
    TakenFacts(s, b);
    assert s2.zmap == Taken(s, b).zmap;
    forall c | InZone(s, c) ensures Used(s2, c) <==> Used(s, c) || c == b {
      assert Used(s2, c) <==> Used(Taken(s, b), c);
    }
  }

  lemma PlacedRaw(s: State, s2: State, x: Slot, b: nat)
    requires Inv(s) && InZone(s, b) && HasBit(s.zmap, b - (s.first - 1)) && !Used(s, b)
    requires (x.IndEntry? || x.DindTab? || x.DindEntry?) && Index(x) < 512 && Raw(s, Parent(x)) != 0 && Raw(s, x) == 0
    requires Raw(s, Parent(x)) < s.nzones && s2 == SetWord(Taken(s, b), Raw(s, Parent(x)), Index(x), b)
    ensures Gains(s, s2, x, b)
  {
    TakenFacts(s, b);
    var s1 := Taken(s, b);
    hide Raw, Used, BitAt, HasBit;
    assert Unique(s1);
    forall y ensures Raw(s2, y) == if y == x then b else Raw(s, y) {
      SetWordRaw(s1, x, b, y);
    }
  }

  /** A word of a table was set: no block with data changes. */
  lemma PlacedData(s: State, s2: State, x: Slot, b: nat)
    requires Inv(s) && InZone(s, b) && HasBit(s.zmap, b - (s.first - 1)) && !Used(s, b) && Gains(s, s2, x, b)
    requires forall y :: Raw(s, y) != b
    requires (x.IndEntry? || x.DindTab? || x.DindEntry?) && Index(x) < 512 && Raw(s, Parent(x)) != 0 && Raw(s, x) == 0
    requires Raw(s, Parent(x)) < s.nzones && s2 == SetWord(Taken(s, b), Raw(s, Parent(x)), Index(x), b)
    ensures forall y :: IsData(y) && y != x ==>
              Raw(s2, y) == Raw(s, y) && (0 < Raw(s, y) < s.nzones ==> s2.blocks[Raw(s, y)] == s.blocks[Raw(s, y)])
  {
    var t, p := Raw(s, Parent(x)), Parent(x);
    hide Raw, Used, BitAt, HasBit;
    forall y | IsData(y) && y != x
      ensures Raw(s2, y) == Raw(s, y)
      ensures 0 < Raw(s, y) < s.nzones ==> s2.blocks[Raw(s, y)] == s.blocks[Raw(s, y)]
    {
      assert Raw(s, y) == t ==> y == p;
    }
  }

  // ---------- Bits beyond the last zone ----------

  /** A bit that stands for no block of the device may be set without harm. */
  lemma StrayBit(s: State, k: nat)
    requires Inv(s) && HasBit(s.zmap, k) && k + (s.first - 1) >= s.nzones
    ensures Inv(s.(zmap := SetBitAt(s.zmap, k)))
    ensures forall n, lb :: View(s.(zmap := SetBitAt(s.zmap, k)), n, lb) == View(s, n, lb)
    ensures forall x :: Raw(s.(zmap := SetBitAt(s.zmap, k)), x) == Raw(s, x)
    ensures forall b :: InZone(s, b) ==> (Used(s.(zmap := SetBitAt(s.zmap, k)), b) <==> Used(s, b))
  {
    var s' := s.(zmap := SetBitAt(s.zmap, k));
    SetBitOnly(s.zmap, k);
    assert Shape(s');
    assert forall x :: Raw(s', x) == Raw(s, x);
    hide BitAt;
    assert forall b {:trigger Used(s', b)} :: InZone(s, b) ==> (Used(s', b) <==> Used(s, b)) by { hide Raw; }
    hide Raw, Used;
    assert Counted(s') by {
      forall b | InZone(s', b) ensures Used(s', b) <==> Owned(s', b) {
        assert InZone(s, b);
        if Owned(s, b) { var x :| Raw(s, x) == b; assert Raw(s', x) == b; }
        if Owned(s', b) { var x :| Raw(s', x) == b; assert Raw(s, x) == b; }
      }
    }
  }

  // ---------- Writing data ----------

  /** Writing to a data block changes what that block shows in its file, and nothing else. */
  lemma WriteData(s: State, x: Slot, page: Block)
    requires Inv(s) && IsData(x) && Raw(s, x) != 0 && |page| == 512
    ensures Raw(s, x) < s.nzones
    ensures var s' := s.(blocks := s.blocks[Raw(s, x) := page]);
            && Inv(s') && (forall y :: Raw(s', y) == Raw(s, y))
            && forall n, lb :: View(s', n, lb) == if SlotOf(n, lb) == x then page else View(s, n, lb)
  {
    var b := Raw(s, x);
    assert InZone(s, b);
    var s' := s.(blocks := s.blocks[b := page]);
    forall y ensures Raw(s', y) == Raw(s, y) {
      DataRaw(s, x, page, y);
    }
    hide Raw, BitAt, Used;
    assert Counted(s') by {
      forall c | InZone(s', c) ensures Used(s', c) <==> Owned(s', c) {
        assert InZone(s, c) && (Used(s', c) <==> Used(s, c)) by { SameBits(s, s', c); }
        if Owned(s, c) { var y :| Raw(s, y) == c; assert Raw(s', y) == c; }
        if Owned(s', c) { var y :| Raw(s', y) == c; assert Raw(s, y) == c; }
      }
    }
    forall n, lb ensures View(s', n, lb) == if SlotOf(n, lb) == x then page else View(s, n, lb) {
      assert Raw(s, SlotOf(n, lb)) == b ==> SlotOf(n, lb) == x;
    }
  }

  lemma SameBits(s: State, s': State, b: nat)
    requires s.first > 0 && b >= s.first && s'.first == s.first && s'.zmap == s.zmap
    ensures Used(s', b) <==> Used(s, b)
  {
  }

  /** A data block is no table. */
  lemma DataRaw(s: State, x: Slot, page: Block, y: Slot)
    requires Shape(s) && Unique(s) && IsData(x) && 0 < Raw(s, x) < s.nzones && |page| == 512
    ensures Raw(s.(blocks := s.blocks[Raw(s, x) := page]), y) == Raw(s, y)
  {
    var b := Raw(s, x);
    var s' := s.(blocks := s.blocks[b := page]);
    assert forall c, j :: c != b ==> Word(s', c, j) == Word(s, c, j);
    assert forall n, k :: Zone(s', n, k) == Zone(s, n, k);
    match y
    case Direct(_, _) =>
    case Ind(_) =>
    case Dind(_) =>
    case IndEntry(n, j) => assert Raw(s, Ind(n)) != b;
    case DindTab(n, j) => assert Raw(s, Dind(n)) != b;
    case DindEntry(n, j, k) => assert Raw(s, Dind(n)) != b && Raw(s, DindTab(n, j)) != b;
  }
}
