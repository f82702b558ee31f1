/**
 What the page-fault handlers achieve, put together from the single updates of `PageSteps.dfy`.
 */
module PageFaults {
  import opened PageTables
  import opened PageSteps
  import opened PageRanges

  /** Nothing but page tables, pages and counts differs. */
  predicate SameTasks(s: State, s': State) {
    s'.tasks == s.tasks && s'.limits == s.limits && s'.hands == s.hands
  }

  /** Page `i` of directory entry `d` can be written now, and no process sees a difference. */
  ghost predicate Unshared(s: State, s': State, d: nat, i: nat) {
    && Inv(s') && SameTasks(s, s') && s'.dir == s.dir
    && (forall e: nat, j: nat {:trigger View(s', e, j)} :: View(s', e, j) == View(s, e, j))
    && (forall e, j {:trigger Pte(s', e, j)} :: Entry(e, j) != Entry(d, i) ==> Pte(s', e, j) == Pte(s, e, j))
    && Present(Pte(s', d, i)) && Writable(Pte(s', d, i))
  }

  lemma UnprotectDone(s: State, d: nat, i: nat)
    requires Inv(s) && HasTable(s, d) && Table(s, d) < HIGH && i < 1024 && Present(Pte(s, d, i))
    requires Paged(FrameOf(Pte(s, d, i))) && s.count[FrameOf(Pte(s, d, i)) - LOW] == 1
    ensures Unshared(s, SetPte(s, d, i, ReadWrite(Pte(s, d, i)), s.count), d, i)
  {
    TableFacts(s, d);
    UnprotectInv(s, d, i);
    SetPteTargets(s, d, i, ReadWrite(Pte(s, d, i)), s.count);
  }

  lemma CopyPageDone(s: State, d: nat, i: nat, g: nat)
    requires Inv(s) && HasTable(s, d) && Table(s, d) < HIGH && i < 1024 && Present(Pte(s, d, i))
    requires Paged(g) && s.count[g - LOW] == 0
    ensures var s1 := HandIn(s, g);
            && Inv(s1) && Pte(s1, d, i) == Pte(s, d, i) && FrameOf(Pte(s, d, i)) < HIGH && FrameOf(Pte(s, d, i)) != g
            && (Paged(FrameOf(Pte(s, d, i))) ==> s1.count[FrameOf(Pte(s, d, i)) - LOW] > 0)
            && Table(s, d) != g && Table(s, d) != FrameOf(Pte(s, d, i))
            && Unshared(s, CopyPage(s1, d, i, g), d, i)
  {
    var s1 := HandIn(s, g);
    TableFacts(s, d);
    NoRefs(s, g);
    HandInTargets(s, g);
    HandInInv(s, g);
    CopyPageInv(s1, d, i, g);
    CopyPagePtes(s1, d, i, g);
    assert Target(s, Dir(d)) != Some(g) && Target(s, Entry(d, i)) != Target(s, Dir(d));
    assert s1.hands - {g} == s.hands;
  }

  lemma CopyPagePtes(s: State, d: nat, i: nat, g: nat)
    requires Inv(s) && g in s.hands && Paged(g) && HasTable(s, d) && Table(s, d) < HIGH && i < 1024 &&
        Present(Pte(s, d, i))
    requires FrameOf(Pte(s, d, i)) < HIGH
    requires Paged(FrameOf(Pte(s, d, i))) ==> s.count[FrameOf(Pte(s, d, i)) - LOW] > 0
    ensures var s' := CopyPage(s, d, i, g);
            && Pte(s', d, i) == Mapped(g)
            && forall e, j :: Entry(e, j) != Entry(d, i) ==> Pte(s', e, j) == Pte(s, e, j)
  {
    var f := FrameOf(Pte(s, d, i));
    var s2 := SetPte(s, d, i, Mapped(g), Less(s.count, f));
    TableFacts(s, d);
    SetPteTargets(s, d, i, Mapped(g), Less(s.count, f));
    assert SlotOk(s, Hand(g)) && Target(s, Hand(g)) == Some(g);
    var s' := CopyPage(s, d, i, g);
    forall e, j ensures Pte(s', e, j) == Pte(s2, e, j) {
      if HasTable(s, e) {
        assert Target(s, Dir(e)) != Target(s, Hand(g));
      }
    }
  }

  // ---------- Pages that are not there ----------

  /** Page `i` of directory entry `d`, not there before, now holds `page` and can be written. */
  ghost predicate Placed(s: State, s': State, d: nat, i: nat, page: Page) {
    && Inv(s') && s'.tasks == s.tasks && s'.limits == s.limits
    && (forall e: nat, j: nat {:trigger View(s', e, j)} ::
        View(s', e, j) == if Entry(e, j) == Entry(d, i) then Some(page) else View(s, e, j))
    && Present(Pte(s', d, i)) && Writable(Pte(s', d, i))
    && (forall e, j {:trigger Pte(s', e, j)} :: Entry(e, j) != Entry(d, i) && Present(Pte(s', e, j)) ==>
        Pte(s', e, j) == Pte(s, e, j))
  }

  lemma PlaceDone(s: State, d: nat, i: nat, f: nat)
    requires Inv(s) && f in s.hands && Paged(f) && HasTable(s, d) && Table(s, d) < HIGH && i < 1024 &&
        !Present(Pte(s, d, i))
    ensures Placed(s, PlacePage(s, d, i, f), d, i, s.mem[f]) && Table(s, d) != f
  {
    TableFacts(s, d);
    PlacePageInv(s, d, i, f);
    SetPteTargets(s, d, i, Mapped(f), s.count);
    var s' := PlacePage(s, d, i, f);
    assert forall e, j :: Pte(s', e, j) == Pte(SetPte(s, d, i, Mapped(f), s.count), e, j);
    assert Target(s, Hand(f)) == Some(f) && Target(s, Dir(d)) == Some(Table(s, d));
  }

  /** A new page table for the page in hand. */
  lemma TableDone(s: State, d: nat, t: nat)
    requires Inv(s) && 16 <= d < 1024 && !HasTable(s, d) && Owner(d) in s.limits && Offset(d) < s.limits[Owner(d)]
    requires Paged(t) && s.count[t - LOW] == 0
    ensures var s1 := HandIn(s, t);
            var s2 := PlaceTable(s1, d, t);
            && Inv(s2) && SameTasks(s, s2) && HasTable(s2, d) && Table(s2, d) == t
            && (forall e: nat, j: nat :: View(s2, e, j) == View(s, e, j))
            && (forall j :: Pte(s2, d, j) == 0)
            && (forall e, j :: e != d ==> Pte(s2, e, j) == Pte(s, e, j))
    ensures forall f :: f in s.hands && f < HIGH ==> f != t && HandIn(s, t).mem[f] == s.mem[f]
  {
    NoRefs(s, t);
    HandInTargets(s, t);
    HandInInv(s, t);
    var s1 := HandIn(s, t);
    var s2 := PlaceTable(s1, d, t);
    PlaceTableInv(s1, d, t);
    assert s2.hands == s.hands;
    assert forall e, j :: e != d ==> Pte(s2, e, j) == Pte(s1, e, j);
    assert forall j :: Pte(s2, d, j) == 0;
    forall f | f in s.hands && f < HIGH ensures f != t && s1.mem[f] == s.mem[f] {
      assert Target(s, Hand(f)) == Some(f);
    }
  }

  // ---------- Stores by a process or by the kernel ----------

  /** A store to a page that can be written changes that page of that process, and nothing else. */
  lemma StoreDone(s: State, d: nat, i: nat, off: nat, w: nat)
    requires Inv(s) && Present(Pte(s, d, i)) && Writable(Pte(s, d, i)) && off < 1024
    ensures FrameOf(Pte(s, d, i)) < HIGH && |s.mem[FrameOf(Pte(s, d, i))]| == 1024
    ensures View(s, d, i) == Some(s.mem[FrameOf(Pte(s, d, i))])
    ensures var f := FrameOf(Pte(s, d, i));
            var s' := SetMem(s, f, PutWord(s.mem[f], off, w));
            && Inv(s')
            && (forall e, j :: Pte(s', e, j) == Pte(s, e, j))
            && forall e: nat, j: nat :: View(s', e, j) == if Entry(e, j) == Entry(d, i) then
                Some(PutWord(s.mem[f], off, w)) else View(s, e, j)
  {
    var f, x := FrameOf(Pte(s, d, i)), Entry(d, i);
    assert SlotOk(s, x) && Target(s, x) == Some(f);
    SetMemInv(s, f, PutWord(s.mem[f], off, w), x);
    var s' := SetMem(s, f, PutWord(s.mem[f], off, w));
    forall e, j ensures Pte(s', e, j) == Pte(s, e, j) {
      assert Target(s, Dir(e)) == Some(f) ==> Dir(e) == x;
    }
  }

  // ---------- Undoing a fork ----------

  /** If every reference is where it was, so is every count. */
  lemma SameCounts(s: State, s': State)
    requires Inv(s) && Inv(s') && forall x :: Target(s', x) == Target(s, x)
    ensures s'.count == s.count
  {
    hide Target, Universe, SlotsOk, Aligned, Owned;
    forall k | 0 <= k < HIGH - LOW ensures s'.count[k] == s.count[k] {
      assert Refs(s', k + LOW) == Refs(s, k + LOW);
      assert s.count[(k + LOW) - LOW] == |Refs(s, k + LOW)|;
      assert s'.count[(k + LOW) - LOW] == |Refs(s', k + LOW)|;
    }
  }

  /** Freeing what was copied so far puts every reference back. */
  lemma RolledBack(s: State, s1: State, s2: State, to: nat, n: nat)
    requires Elsewhere(s, s1, to, n) && Freed(s1, s2, to, n)
    requires forall e: nat :: to <= e < to + n ==> !HasTable(s, e)
    requires forall e: nat, j: nat :: !(to <= e < to + n) ==> View(s1, e, j) == View(s, e, j)
    ensures forall x :: Target(s2, x) == Target(s, x)
    ensures forall e: nat, j: nat :: View(s2, e, j) == View(s, e, j)
  {
    forall x ensures Target(s2, x) == Target(s, x) {
      if InRange(x, to, n) {
        assert !HasTable(s2, x.d) && !HasTable(s, x.d);
      } else {
        assert Target(s2, x) == Target(s1, x);
      }
    }
    forall e: nat, j: nat ensures View(s2, e, j) == View(s, e, j) {
      if to <= e < to + n {
        NoTableNoView(s, e);
      }
    }
  }

  // ---------- Before the kernel writes ----------

  /** Page number `b` of the linear address space, if mapped by a process, can be written. */
  predicate Verified(s: State, b: nat) {
    var w := Pte(s, b / 1024 % 1024, b % 1024);
    Present(w) ==> Writable(w)
  }

  /** What was verified still is, but for the pages behind these directory entries. */
  ghost predicate VerifiedKept(s: State, s': State, touched: set<nat>) {
    forall b: nat {:trigger Verified(s', b)} :: b / 1024 % 1024 !in touched && Verified(s, b) ==> Verified(s', b)
  }

  lemma WordsVerified(s: State, s': State, touched: set<nat>)
    requires WordsKept(s, s', touched)
    ensures VerifiedKept(s, s', touched)
  {
    hide Pte, Present, Writable;
    forall b: nat | b / 1024 % 1024 !in touched && Verified(s, b) ensures Verified(s', b) {
      assert Pte(s', b / 1024 % 1024, b % 1024) == Pte(s, b / 1024 % 1024, b % 1024);
    }
  }

  lemma VerifiedKeptTrans(s: State, s1: State, s2: State, touched: set<nat>)
    requires VerifiedKept(s, s1, {}) && VerifiedKept(s1, s2, touched)
    ensures VerifiedKept(s, s2, touched)
  {
    hide Verified;
    forall b: nat | b / 1024 % 1024 !in touched && Verified(s, b) ensures Verified(s2, b) {
      assert Verified(s1, b);
    }
  }

  lemma UnsharedVerifies(s: State, s': State, b: nat)
    requires Unshared(s, s', b / 1024 % 1024, b % 1024)
    ensures Verified(s', b)
    ensures forall c {:trigger Verified(s', c)} :: Verified(s, c) ==> Verified(s', c)
  {
    hide Inv, View, Pte, Present, Writable;
    forall c: nat | Verified(s, c) ensures Verified(s', c) {
      if Entry(c / 1024 % 1024, c % 1024) != Entry(b / 1024 % 1024, b % 1024) {
        assert Pte(s', c / 1024 % 1024, c % 1024) == Pte(s, c / 1024 % 1024, c % 1024);
      }
    }
  }

  lemma PlacedVerifies(s: State, s': State, d: nat, i: nat, page: Page)
    requires Placed(s, s', d, i, page)
    ensures forall c {:trigger Verified(s', c)} :: Verified(s, c) ==> Verified(s', c)
  {
    hide Inv, View, Pte, Present, Writable;
    forall c: nat | Verified(s, c) ensures Verified(s', c) {
      if Entry(c / 1024 % 1024, c % 1024) != Entry(d, i) && Present(Pte(s', c / 1024 % 1024, c % 1024)) {
        assert Pte(s', c / 1024 % 1024, c % 1024) == Pte(s, c / 1024 % 1024, c % 1024);
      }
    }
  }

  /** The argument of a call of `verify_area` */
  datatype Area = Area(addr: nat, size: int)

  /** Linear page `b` holds part of the area. */
  predicate InArea(nr: nat, a: Area, b: nat) {
    a.addr / 4096 <= b - nr * 0x4000 && (b - nr * 0x4000) * 4096 < a.addr + a.size
  }

  /** Every page of the area, as far as it lies in the address space of the process, can be written or is not
      there yet. */
  ghost predicate AreaOk(s: State, nr: nat, a: Area) {
    forall b: nat {:trigger Verified(s, b)} :: InArea(nr, a, b) && 16 * nr <= b / 1024 < 16 * nr + 16 ==>
      Verified(s, b)
  }

  /** Whatever processes have verified in the system calls they are in is still verified. */
  ghost predicate AreasOk(s: State, areas: map<nat, set<Area>>) {
    && areas.Keys <= s.limits.Keys
    && forall nr, a {:trigger AreaOk(s, nr, a)} :: nr in areas && a in areas[nr] ==> AreaOk(s, nr, a)
  }

  lemma AreaKept(s: State, s': State, nr: nat, a: Area, touched: set<nat>)
    requires AreaOk(s, nr, a) && VerifiedKept(s, s', touched) && nr < NR_TASKS && DirsOf(nr) !! touched
    ensures AreaOk(s', nr, a)
  {
    hide Verified;
    forall b: nat | InArea(nr, a, b) && 16 * nr <= b / 1024 < 16 * nr + 16 ensures Verified(s', b) {
      assert b / 1024 % 1024 == b / 1024 && b / 1024 in DirsOf(nr);
      assert Verified(s, b);
    }
  }

  lemma AreasKept(s: State, s': State, areas: map<nat, set<Area>>, areas': map<nat, set<Area>>, touched: set<nat>)
    requires Inv(s) && AreasOk(s, areas) && VerifiedKept(s, s', touched)
    requires areas'.Keys <= areas.Keys && areas'.Keys <= s'.limits.Keys
    requires forall nr :: nr in areas' ==> areas'[nr] == areas[nr] && DirsOf(nr) !! touched
    ensures AreasOk(s', areas')
  {
    hide Counted, SlotsOk, Aligned, VerifiedKept, DirsOf;
    forall nr, a | nr in areas' && a in areas'[nr] ensures AreaOk(s', nr, a) {
      assert nr in s.limits && AreaOk(s, nr, a);
      AreaKept(s, s', nr, a, touched);
    }
  }

  lemma DirsApart(nr: nat, n: nat)
    requires n != nr
    ensures DirsOf(n) !! DirsOf(nr)
  {
  }

  // ---------- Exit ----------

  lemma FreedProcess(s: State, s': State, nr: nat, n: nat)
    requires Inv(s) && nr in s.limits && s.limits[nr] == n && Freed(s, s', 16 * nr, n)
    ensures forall d :: HasTable(s', d) ==> Owner(d) != nr
  {
    hide Counted, SlotsOk, Aligned;
    forall d | HasTable(s', d) ensures Owner(d) != nr {
      assert HasTable(s, d);
      assert d == 16 * Owner(d) + Offset(d);
    }
  }

  // ---------- Around a store ----------

  function Contents(v: Option<Page>): Page {
    match v case None => Zeros() case Some(p) => p
  }

  /** Page `i` of directory entry `d` is there and can be written; it reads as before. */
  ghost predicate Ready(s: State, s': State, d: nat, i: nat) {
    && Inv(s') && s'.tasks == s.tasks && s'.limits == s.limits
    && Present(Pte(s', d, i)) && Writable(Pte(s', d, i))
    && View(s', d, i) == Some(Contents(View(s, d, i)))
    && (forall e: nat, j: nat {:trigger View(s', e, j)} :: Entry(e, j) != Entry(d, i) ==>
        View(s', e, j) == View(s, e, j))
    && VerifiedKept(s, s', {})
  }

  /** Page `i` of directory entry `d` is there and reads as before. */
  ghost predicate Readable(s: State, s': State, d: nat, i: nat) {
    && Inv(s') && s'.tasks == s.tasks && s'.limits == s.limits
    && View(s', d, i) == Some(Contents(View(s, d, i)))
    && (forall e: nat, j: nat {:trigger View(s', e, j)} :: Entry(e, j) != Entry(d, i) ==>
        View(s', e, j) == View(s, e, j))
    && VerifiedKept(s, s', {})
  }

  lemma AbsentView(s: State, d: nat, i: nat)
    requires !Present(Pte(s, d, i))
    ensures View(s, d, i) == None
  {
  }

  lemma PlacedReady(s: State, s': State, d: nat, i: nat)
    requires Placed(s, s', d, i, Zeros()) && View(s, d, i) == None
    ensures Ready(s, s', d, i)
  {
    PlacedVerifies(s, s', d, i, Zeros());
    hide Inv, View, Pte, Present, Writable, Verified;
  }

  lemma UnsharedReady(s: State, s': State, d: nat, i: nat)
    requires Unshared(s, s', d, i) && Inv(s) && Present(Pte(s, d, i)) && 16 <= d < 1024 && i < 1024
    ensures Ready(s, s', d, i)
  {
    ViewThere(s, d, i);
    assert (d * 1024 + i) / 1024 % 1024 == d && (d * 1024 + i) % 1024 == i;
    UnsharedVerifies(s, s', d * 1024 + i);
    hide Inv, View, Pte, Present, Writable, Verified;
  }

  lemma WritableReady(s: State, d: nat, i: nat)
    requires Inv(s) && Present(Pte(s, d, i)) && Writable(Pte(s, d, i))
    ensures Ready(s, s, d, i)
  {
    ViewThere(s, d, i);
  }

  lemma ViewThere(s: State, d: nat, i: nat)
    requires Inv(s) && Present(Pte(s, d, i))
    ensures View(s, d, i) == Some(Contents(View(s, d, i)))
  {
    assert SlotOk(s, Entry(d, i));
  }

  /** A word was stored. */
  ghost predicate Stored(s: State, s': State, d: nat, i: nat, page: Page) {
    && Inv(s') && s'.tasks == s.tasks && s'.limits == s.limits
    && View(s', d, i) == Some(page)
    && (forall e: nat, j: nat {:trigger View(s', e, j)} :: Entry(e, j) != Entry(d, i) ==>
        View(s', e, j) == View(s, e, j))
    && VerifiedKept(s, s', {})
  }

  lemma StoreStored(s: State, d: nat, i: nat, off: nat, w: nat)
    requires Inv(s) && Present(Pte(s, d, i)) && Writable(Pte(s, d, i)) && off < 1024
    ensures FrameOf(Pte(s, d, i)) < HIGH && |s.mem[FrameOf(Pte(s, d, i))]| == 1024
    ensures |Contents(View(s, d, i))| == 1024
    ensures var f := FrameOf(Pte(s, d, i));
            Stored(s, SetMem(s, f, PutWord(s.mem[f], off, w)), d, i, PutWord(Contents(View(s, d, i)), off, w))
  {
    StoreDone(s, d, i, off, w);
    hide Inv, View, Pte, Present, Writable;
  }
}
