/**
 How far `truncate` has come in freeing the blocks of an inode.  While it runs, tables still hold
 the numbers of blocks already free.
 */
module BlockFree {
  import opened BlockTree
  import opened BlockSteps

  /** Exactly the blocks of the slots in `gone` have been freed since `s`. */
  ghost predicate Freeing(s: State, s': State, gone: set<Slot>) {
    && Inv(s) && Shape(s') && s'.first == s.first && s'.nzones == s.nzones && s'.blocks == s.blocks
    && BitAt(s'.zmap, 0)
    && forall b {:trigger Used(s', b)} :: InZone(s, b) ==> (Used(s', b) <==> OwnedBut(s, b, gone))
  }

  ghost predicate OwnedBut(s: State, b: nat, gone: set<Slot>) {
    exists x {:trigger Raw(s, x)} :: Raw(s, x) == b && x !in gone
  }

  lemma NoneGone(s: State)
    requires Inv(s)
    ensures Freeing(s, s, {})
  {
    hide Raw, BitAt, Used;
    forall b | InZone(s, b) ensures Used(s, b) <==> OwnedBut(s, b, {}) {
      if Used(s, b) {
        var x :| Raw(s, x) == b;
        assert x !in {};
      }
      if OwnedBut(s, b, {}) {
        var x :| Raw(s, x) == b && x !in {};
        assert Owned(s, b);
      }
    }
  }

  /** The block of a slot that is not gone can be freed: its bit is there, and set. */
  lemma NotYetGone(s: State, s': State, gone: set<Slot>, x: Slot)
    requires Freeing(s, s', gone) && x !in gone && Raw(s, x) != 0
    ensures InZone(s, Raw(s, x)) && Used(s', Raw(s, x)) && HasBit(s'.zmap, Raw(s, x) - (s.first - 1))
  {
    assert Inside(s);
    assert OwnedBut(s, Raw(s, x), gone);
  }

  lemma OneMoreGone(s: State, s1: State, s2: State, gone: set<Slot>, x: Slot)
    requires Freeing(s, s1, gone) && x !in gone && Raw(s, x) != 0 && InZone(s, Raw(s, x))
    requires HasBit(s1.zmap, Raw(s, x) - (s.first - 1))
    requires s2 == s1.(zmap := ClearBitAt(s1.zmap, Raw(s, x) - (s.first - 1)))
    ensures Freeing(s, s2, gone + {x})
  {
    var b := Raw(s, x);
    ClearBitOnly(s1.zmap, b - (s.first - 1));
    assert forall c {:trigger Used(s2, c)} :: InZone(s, c) ==> (Used(s2, c) <==> Used(s1, c) && c != b);
    assert Shape(s2) && Unique(s);
    hide Raw, Used, BitAt;
    forall c | InZone(s, c) ensures Used(s2, c) <==> OwnedBut(s, c, gone + {x}) {
      if Used(s2, c) {
        var y :| Raw(s, y) == c && y !in gone;
        assert y !in gone + {x};
      }
      if OwnedBut(s, c, gone + {x}) {
        var y :| Raw(s, y) == c && y !in gone + {x};
        assert OwnedBut(s, c, gone);
      }
    }
  }

  /** Changing zone numbers does not matter until the end. */
  lemma ZonesAside(s: State, s': State, gone: set<Slot>, files: map<nat, seq<nat>>)
    requires Freeing(s, s', gone) && forall n :: n in files ==> |files[n]| == 9
    ensures Freeing(s, s'.(files := files), gone)
  {
    var s2 := s'.(files := files);
    hide OwnedBut;
    forall b | InZone(s, b) ensures Used(s2, b) <==> OwnedBut(s, b, gone) {
      assert Used(s2, b) <==> Used(s', b);
    }
  }

  // ---------- The slots of one inode ----------

  function Child(x: Slot, j: nat): (y: Slot)
    requires x.Ind? || x.DindTab?
    ensures y.n == x.n && (y.IndEntry? || y.DindEntry?) && Parent(y) == x && Index(y) == j
  {
    match x
    case Ind(n) => IndEntry(n, j)
    case DindTab(n, k) => DindEntry(n, k, j)
  }

  /** The first `i` entries of a table of data blocks, those that are there. */
  ghost function Kids(s: State, x: Slot, i: nat): set<Slot>
    requires x.Ind? || x.DindTab?
  {
    set j | 0 <= j < i && Raw(s, Child(x, j)) != 0 :: Child(x, j)
  }

  ghost function Zones(s: State, n: nat, i: nat): set<Slot> {
    set k | 0 <= k < i && Raw(s, Direct(n, k)) != 0 :: Direct(n, k)
  }

  /** A table with its entries. */
  ghost function Family(s: State, x: Slot): set<Slot>
    requires x.Ind? || x.DindTab?
  {
    if Raw(s, x) == 0 then {} else Kids(s, x, 512) + {x}
  }

  /** The first `i` tables of the double-indirect table. */
  ghost function Families(s: State, n: nat, i: nat): set<Slot> {
    if i == 0 then {} else Families(s, n, i - 1) + Family(s, DindTab(n, i - 1))
  }

  ghost function All(s: State, n: nat): set<Slot> {
    Zones(s, n, 7) + Family(s, Ind(n)) + (if Raw(s, Dind(n)) == 0 then {} else Families(s, n, 512) + {Dind(n)})
  }

  lemma {:induction false} FamiliesHold(s: State, n: nat, i: nat, x: Slot)
    ensures x in Families(s, n, i) <==> exists j :: 0 <= j < i && x in Family(s, DindTab(n, j))
  {
    if i > 0 {
      FamiliesHold(s, n, i - 1, x);
    }
  }

  lemma FamilyHolds(s: State, x: Slot, y: Slot)
    requires x.Ind? || x.DindTab?
    ensures y in Family(s, x) <==>
        Raw(s, x) != 0 && (y == x || exists j :: 0 <= j < 512 && y == Child(x, j) && Raw(s, y) != 0)
  {
  }

  /** An entry is in its table, and the table has 512 entries. */
  lemma EntryBound(s: State, x: Slot)
    requires Shape(s) && Raw(s, x) != 0 && (x.IndEntry? || x.DindTab? || x.DindEntry?)
    ensures Index(x) < 512 && Raw(s, Parent(x)) != 0
  {
    WordOf(s, x);
  }

  /** What `truncate` frees is everything the inode has. */
  lemma AllOf(s: State, n: nat, x: Slot)
    requires Shape(s)
    ensures x in All(s, n) <==> x.n == n && Raw(s, x) != 0
  {
    hide Family, Families;
    FamilyHolds(s, Ind(n), x);
    FamiliesHold(s, n, 512, x);
    if x.n == n && Raw(s, x) != 0 {
      match x
      case Direct(_, k) =>
      case Ind(_) =>
      case Dind(_) =>
      case IndEntry(_, j) =>
        EntryBound(s, x);
        assert x == Child(Ind(n), j);
      case DindTab(_, j) =>
        EntryBound(s, x);
        FamilyHolds(s, DindTab(n, j), x);
      case DindEntry(_, j, k) =>
        EntryBound(s, x);
        EntryBound(s, DindTab(n, j));
        FamilyHolds(s, DindTab(n, j), x);
        assert x == Child(DindTab(n, j), k);
    }
    if x in Families(s, n, 512) {
      var j :| 0 <= j < 512 && x in Family(s, DindTab(n, j));
      FamilyHolds(s, DindTab(n, j), x);
    }
  }

  function NoZones(): (zs: seq<nat>)
    ensures |zs| == 9
  {
    [0, 0, 0, 0, 0, 0, 0, 0, 0]
  }

  /** At the end: exactly the blocks of inode `n` are free, and nobody else lost any. */
  ghost predicate Truncated(s: State, s': State, n: nat) {
    && Inv(s') && s'.files == s.files[n := NoZones()] && s'.first == s.first && s'.nzones == s.nzones &&
        s'.blocks == s.blocks
    && (forall x {:trigger Raw(s', x)} :: Raw(s', x) == if x.n == n then 0 else Raw(s, x))
    && (forall b {:trigger Used(s', b)} :: InZone(s, b) ==>
         (Used(s', b) <==> Used(s, b) && !exists x {:trigger Raw(s, x)} :: Raw(s, x) == b && x.n == n))
    && (forall m, lb {:trigger View(s', m, lb)} :: View(s', m, lb) == if m == n then Zeros() else View(s, m, lb))
  }

  lemma TruncateDone(s: State, s1: State, n: nat)
    requires Freeing(s, s1, All(s, n)) && n in s.files && s1.files == s.files[n := NoZones()]
    ensures Truncated(s, s1, n)
  {
    forall x ensures Raw(s1, x) == if x.n == n then 0 else Raw(s, x) {
    }
    forall x ensures x in All(s, n) <==> x.n == n && Raw(s, x) != 0 {
      AllOf(s, n, x);
    }
    hide Raw, BitAt, Used, All;
    TruncateBits(s, s1, n);
    forall m, lb ensures View(s1, m, lb) == if m == n then Zeros() else View(s, m, lb) {
      assert SlotOf(m, lb).n == m;
    }
  }

  lemma TruncateBits(s: State, s1: State, n: nat)
    requires Freeing(s, s1, All(s, n))
    requires forall x :: Raw(s1, x) == if x.n == n then 0 else Raw(s, x)
    requires forall x :: x in All(s, n) <==> x.n == n && Raw(s, x) != 0
    ensures Inv(s1)
    ensures forall b {:trigger Used(s1, b)} :: InZone(s, b) ==>
              (Used(s1, b) <==> Used(s, b) && !exists x {:trigger Raw(s, x)} :: Raw(s, x) == b && x.n == n)
  {
    hide Raw, BitAt, Used, All;
    assert Unique(s1) by {
      forall x, y | Raw(s1, x) == Raw(s1, y) && Raw(s1, x) != 0 ensures x == y {
        assert Raw(s, x) == Raw(s, y);
      }
    }
    assert Inside(s1) by {
      forall x | Raw(s1, x) != 0 ensures InZone(s1, Raw(s1, x)) {
        assert InZone(s, Raw(s, x));
      }
    }
    forall b | InZone(s, b)
      ensures Used(s1, b) <==> Owned(s1, b)
      ensures Used(s1, b) <==> Used(s, b) && !exists x {:trigger Raw(s, x)} :: Raw(s, x) == b && x.n == n
    {
      if Used(s1, b) {
        var x :| Raw(s, x) == b && x !in All(s, n);
        assert Raw(s1, x) == b && Owned(s, b);
      }
      if Owned(s1, b) {
        var x :| Raw(s1, x) == b;
        assert Raw(s, x) == b && x !in All(s, n);
      }
      if Used(s, b) && !exists x {:trigger Raw(s, x)} :: Raw(s, x) == b && x.n == n {
        var x :| Raw(s, x) == b;
        assert x !in All(s, n);
      }
    }
  }
}
