/**
 The block tree of a MINIX file system in Linux 0.01 as a value: zone bitmap, device blocks, the
 nine zone numbers of each inode, and what the bitmap has to do with the blocks that are in use.
 */
module BlockTree {
  type Block = seq<nat>         // 512 words of 16 bits

  /** One slot of `s_zmap`. */
  datatype Bitmap = Missing | Bits(bits: seq<bool>)

  datatype State = State(
    first: nat,                 // s_firstdatazone
    nzones: nat,                // s_nzones
    zmap: seq<Bitmap>,
    blocks: seq<Block>,
    files: map<nat, seq<nat>>)  // i_zone by inode

  /** A place that can hold a zone number. */
  datatype Slot =
    | Direct(n: nat, k: nat)
    | Ind(n: nat)
    | IndEntry(n: nat, j: nat)
    | Dind(n: nat)
    | DindTab(n: nat, j: nat)
    | DindEntry(n: nat, j: nat, k: nat)

  const LIMIT: nat := 7 + 512 + 512 * 512

  predicate Shape(s: State) {
    && 0 < s.first <= s.nzones
    && |s.zmap| == 8 && (forall i :: 0 <= i < 8 && s.zmap[i].Bits? ==> |s.zmap[i].bits| == 8192)
    && |s.blocks| == s.nzones && (forall b :: 0 <= b < s.nzones ==> |s.blocks[b]| == 512)
    && (forall n :: n in s.files ==> |s.files[n]| == 9)
  }

  function Zone(s: State, n: nat, k: nat): nat {
    if n in s.files && k < |s.files[n]| then s.files[n][k] else 0
  }

  function Word(s: State, b: nat, j: nat): nat {
    if 0 < b < |s.blocks| && j < |s.blocks[b]| then s.blocks[b][j] else 0
  }

  /** The zone number in a slot; 0 if there is none. */
  function Raw(s: State, x: Slot): nat {
    match x
    case Direct(n, k) => if k < 7 then Zone(s, n, k) else 0
    case Ind(n) => Zone(s, n, 7)
    case IndEntry(n, j) => Word(s, Zone(s, n, 7), j)
    case Dind(n) => Zone(s, n, 8)
    case DindTab(n, j) => Word(s, Zone(s, n, 8), j)
    case DindEntry(n, j, k) => Word(s, Word(s, Zone(s, n, 8), j), k)
  }

  predicate IsData(x: Slot) {
    x.Direct? || x.IndEntry? || x.DindEntry?
  }

  predicate InZone(s: State, b: nat) {
    s.first <= b < s.nzones
  }

  /** Bit `k` of the zone map stands for block `k + s_firstdatazone - 1`. */
  predicate BitAt(zmap: seq<Bitmap>, k: nat) {
    k / 8192 < |zmap| && zmap[k / 8192].Bits? && k % 8192 < |zmap[k / 8192].bits| && zmap[k / 8192].bits[k % 8192]
  }

  predicate Used(s: State, b: nat)
    requires s.first > 0 && b >= s.first
  {
    BitAt(s.zmap, b - (s.first - 1))
  }

  ghost predicate Owned(s: State, b: nat) {
    exists x {:trigger Raw(s, x)} :: Raw(s, x) == b
  }

  /** No block has two places. */
  ghost predicate Unique(s: State) {
    forall x, y {:trigger Raw(s, x), Raw(s, y)} :: Raw(s, x) == Raw(s, y) && Raw(s, x) != 0 ==> x == y
  }

  ghost predicate Inside(s: State) {
    forall x {:trigger Raw(s, x)} :: Raw(s, x) != 0 ==> InZone(s, Raw(s, x))
  }

  /** The set bits are exactly the blocks that have a place. */
  ghost predicate Counted(s: State)
    requires s.first > 0
  {
    forall b {:trigger Used(s, b)} :: InZone(s, b) ==> (Used(s, b) <==> Owned(s, b))
  }

  ghost predicate Inv(s: State) {
    Shape(s) && Unique(s) && Inside(s) && Counted(s) && BitAt(s.zmap, 0)
  }

  // ---------- Files ----------

  /** Where the zone number of logical block `lb` is kept. */
  function SlotOf(n: nat, lb: nat): (x: Slot)
    ensures x.n == n && IsData(x)
  {
    if lb < 7 then Direct(n, lb)
    else if lb < 519 then IndEntry(n, lb - 7)
    else DindEntry(n, (lb - 519) / 512, (lb - 519) % 512)
  }

  /** Word `j` of the table in block `b` is `z`; without a table nothing is there. */
  predicate Entry(s: State, b: nat, j: nat, z: nat) {
    if b == 0 then z == 0 else b < |s.blocks| && j < |s.blocks[b]| && z == s.blocks[b][j]
  }

  /** The walk from the inode to logical block `lb` ends at block `r`, or finds a hole. */
  ghost predicate Leads(s: State, n: nat, lb: nat, r: nat) {
    && n in s.files && |s.files[n]| == 9
    && if lb < 7 then r == s.files[n][lb]
       else if lb < 519 then Entry(s, s.files[n][7], lb - 7, r)
       else exists t {:trigger Entry(s, t, (lb - 519) % 512, r)} ::
         Entry(s, s.files[n][8], (lb - 519) / 512, t) && Entry(s, t, (lb - 519) % 512, r)
  }

  /** That is the slot of the logical block. */
  lemma SlotLeads(s: State, n: nat, lb: nat)
    requires Inv(s) && n in s.files && lb < LIMIT
    ensures Leads(s, n, lb, Raw(s, SlotOf(n, lb)))
  {
    assert |s.files[n]| == 9;
    if 7 <= lb < 519 {
      InsideZone(s, Ind(n));
    } else if lb >= 519 {
      var j, k := (lb - 519) / 512, (lb - 519) % 512;
      InsideZone(s, Dind(n));
      InsideZone(s, DindTab(n, j));
      assert Entry(s, Raw(s, DindTab(n, j)), k, Raw(s, DindEntry(n, j, k)));
    }
  }

  lemma InsideZone(s: State, x: Slot)
    requires Inv(s)
    ensures Raw(s, x) != 0 ==> 0 < Raw(s, x) < |s.blocks| && |s.blocks[Raw(s, x)]| == 512
  {
    hide Unique, Counted, Raw;
  }

  lemma SlotInjective(n: nat, lb: nat, n': nat, lb': nat)
    requires SlotOf(n, lb) == SlotOf(n', lb')
    ensures n == n' && lb == lb'
  {
  }

  function Zeros(): Block {
    seq(512, i => 0)
  }

  /** The contents of a logical block; what was never written reads as zeros. */
  function View(s: State, n: nat, lb: nat): Block {
    var b := Raw(s, SlotOf(n, lb));
    if 0 < b < |s.blocks| then s.blocks[b] else Zeros()
  }

  // ---------- One more block ----------

  /** Block `b` gets its place `x`; every other place is as before. */
  ghost predicate Gains(s: State, s': State, x: Slot, b: nat) {
    && Raw(s, x) == 0 && Raw(s', x) == b
    && forall y {:trigger Raw(s', y)} :: y != x ==> Raw(s', y) == Raw(s, y)
  }

  lemma GainInv(s: State, s': State, x: Slot, b: nat)
    requires Inv(s) && Shape(s') && s'.first == s.first && s'.nzones == s.nzones && Gains(s, s', x, b)
    requires InZone(s, b) && !Used(s, b)
    requires forall c :: InZone(s, c) ==> (Used(s', c) <==> Used(s, c) || c == b)
    requires BitAt(s'.zmap, 0)
    ensures Inv(s')
  {
    hide Raw, BitAt, Used;
    assert !Owned(s, b);
    assert Unique(s') by {
      forall y, z | Raw(s', y) == Raw(s', z) && Raw(s', y) != 0 ensures y == z {
        if y != x && z != x {
          assert Raw(s, y) == Raw(s, z);
        }
      }
    }
    forall c | InZone(s', c) ensures Used(s', c) <==> Owned(s', c) {
      assert InZone(s, c);
      if Used(s, c) {
        var y :| Raw(s, y) == c;
        assert Raw(s', y) == c;
      }
      if Owned(s', c) {
        var y :| Raw(s', y) == c;
        if y != x {
          assert Raw(s, y) == c;
          assert Owned(s, c);
        }
      }
    }
  }
}
