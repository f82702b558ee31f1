/**
 The writes to the page directory, to page tables and to `mem_map` that together leave the
 invariant of `PageTables.dfy` intact, and what each of them changes in an address space.
 */
module PageSteps {
  import opened PageTables

  function Zeros(): Page {
    seq(1024, i => 0)
  }

  /** The counts after a reference moved away from one frame and to another; only paged frames count. */
  ghost predicate Recounted(count: seq<nat>, count': seq<nat>, away: Option<nat>, to: Option<nat>)
    requires |count| == |count'| == HIGH - LOW
  {
    forall k {:trigger count'[k]} :: 0 <= k < HIGH - LOW ==>
      count'[k] + (if away == Some(k + LOW) then 1 else 0) == count[k] + (if to == Some(k + LOW) then 1 else 0)
  }

  /** The frame `x` now refers to may be referred to: it is free, or shared by pages that cannot be written. */
  ghost predicate MayPoint(s: State, s': State, x: Slot) {
    forall y {:trigger Target(s, y)} :: y != x && Target(s, y) == Target(s', x) && Target(s, y).Some? ==>
      && y.Entry? && !Writable(Pte(s', y.d, y.i))
      && (x.Entry? && Paged(Target(s, y).value) ==> Offset(x.d) == Offset(y.d) && x.i == y.i)
  }

  /** Other page table words do not become writable. */
  ghost predicate NoMoreWritable(s: State, s': State, x: Slot) {
    forall d, i {:trigger Pte(s', d, i)} :: Entry(d, i) != x && Writable(Pte(s', d, i)) ==> Writable(Pte(s, d, i))
  }

  /** One reference moves, the counts follow. */
  lemma MoveInv(s: State, s': State, x: Slot)
    requires Inv(s) && Shape(s') && OnlyMoves(s, s', x) && MayPoint(s, s', x) && NoMoreWritable(s, s', x)
    requires Recounted(s.count, s'.count, Target(s, x), Target(s', x))
    requires SlotOk(s', x) && Owned(s')
    ensures Inv(s')
  {
    MoveCounted(s, s', x);
    MoveSlots(s, s', x);
    MoveAligned(s, s', x);
  }

  lemma MoveCounted(s: State, s': State, x: Slot)
    requires Shape(s) && Shape(s') && Counted(s) && OnlyMoves(s, s', x)
    requires Recounted(s.count, s'.count, Target(s, x), Target(s', x))
    ensures Counted(s')
  {
    hide Target, Refs, OnlyMoves;
    forall f | LOW <= f < HIGH ensures s'.count[f - LOW] == |Refs(s', f)| {
      Retarget(s, s', x, f);
    }
  }

  lemma MoveSlots(s: State, s': State, x: Slot)
    requires SlotsOk(s) && OnlyMoves(s, s', x) && MayPoint(s, s', x) && NoMoreWritable(s, s', x) && SlotOk(s', x)
    ensures SlotsOk(s')
  {
    hide Target, Pte, Offset;
    forall y ensures SlotOk(s', y) {
      if y != x {
        assert SlotOk(s, y);
        MoveSlot(s, s', x, y);
      }
    }
  }

  lemma MoveSlot(s: State, s': State, x: Slot, y: Slot)
    requires x != y && SlotOk(s, y) && OnlyMoves(s, s', x) && MayPoint(s, s', x) && NoMoreWritable(s, s', x)
    ensures SlotOk(s', y)
  {
    assert Target(s', y) == Target(s, y);
    hide Target, Pte, Offset;
    if Target(s, y).Some? && (!y.Entry? || Writable(Pte(s', y.d, y.i))) {
      forall z | Target(s', z) == Target(s', y) ensures z == y {
        assert Target(s, y) == Target(s', y);
      }
    }
  }

  lemma MoveAligned(s: State, s': State, x: Slot)
    requires Aligned(s) && OnlyMoves(s, s', x) && MayPoint(s, s', x)
    ensures Aligned(s')
  {
    hide Target, Pte, Offset;
  }

  /** A frame with one possible reference is counted once. */
  lemma SoleCount(s: State, x: Slot)
    requires Shape(s) && Counted(s) && Target(s, x).Some? && Paged(Target(s, x).value) && Sole(s, x)
    ensures s.count[Target(s, x).value - LOW] == 1
  {
    hide Target, Universe;
    var f := Target(s, x).value;
    TargetInUniverse(s, x);
    assert Refs(s, f) == {x} by {
      forall y | y in Refs(s, f) ensures y == x {
        assert Target(s, y) == Target(s, x);
      }
    }
  }

  // ---------- Pages in hand ----------

  /** `get_free_page`: a free frame, counted once and zeroed. */
  function HandIn(s: State, f: nat): State
    requires Shape(s) && Paged(f)
  {
    s.(mem := s.mem[f := Zeros()], count := s.count[f - LOW := 1], hands := s.hands + {f})
  }

  lemma HandInInv(s: State, f: nat)
    requires Inv(s) && Paged(f) && s.count[f - LOW] == 0
    ensures Inv(HandIn(s, f)) && f !in s.hands
    ensures forall d, i :: View(HandIn(s, f), d, i) == View(s, d, i)
    ensures forall x :: x != Hand(f) ==> Target(HandIn(s, f), x) == Target(s, x)
  {
    var s', x := HandIn(s, f), Hand(f);
    NoRefs(s, f);
    HandInTargets(s, f);
    assert Target(s, x) == None && Target(s', x) == Some(f);
    MoveInv(s, s', x);
    forall d, i ensures View(s', d, i) == View(s, d, i) {
      assert Target(s', Entry(d, i)) == Target(s, Entry(d, i));
      assert Target(s, Entry(d, i)) != Some(f);
    }
  }

  lemma HandInTargets(s: State, f: nat)
    requires Shape(s) && Paged(f) && forall y :: Target(s, y) != Some(f)
    ensures Shape(HandIn(s, f)) && OnlyMoves(s, HandIn(s, f), Hand(f))
    ensures forall d, i :: Pte(HandIn(s, f), d, i) == Pte(s, d, i)
  {
    var s' := HandIn(s, f);
    forall d, i ensures Pte(s', d, i) == Pte(s, d, i) {
      assert Target(s, Dir(d)) != Some(f);
    }
  }

  /** A page in hand gets its place, or goes back: until then only the hand refers to it. */
  function HandOut(s: State, f: nat): State
    requires Shape(s) && Paged(f)
  {
    s.(count := s.count[f - LOW := 0], hands := s.hands - {f})
  }

  lemma HandOutInv(s: State, f: nat)
    requires Inv(s) && Paged(f) && f in s.hands
    ensures s.count[f - LOW] == 1 && Inv(HandOut(s, f))
    ensures forall x :: Target(HandOut(s, f), x) != Some(f)
    ensures forall x :: x != Hand(f) ==> Target(HandOut(s, f), x) == Target(s, x)
  {
    var s', x := HandOut(s, f), Hand(f);
    assert Target(s, x) == Some(f) && SlotOk(s, x) && Target(s', x) == None;
    SoleCount(s, x);
    HandOutTargets(s, f);
    MoveInv(s, s', x);
    assert Sole(s, x);
    forall y ensures Target(s', y) != Some(f) {
      assert y != x ==> Target(s', y) == Target(s, y);
    }
  }

  lemma HandOutTargets(s: State, f: nat)
    requires Shape(s) && Paged(f)
    ensures Shape(HandOut(s, f)) && OnlyMoves(s, HandOut(s, f), Hand(f))
    ensures forall d, i :: Pte(HandOut(s, f), d, i) == Pte(s, d, i)
  {
  }

  // ---------- Page tables ----------

  function PutWord(page: Page, i: nat, w: nat): Page
    requires i < |page|
  {
    page[i := w]
  }

  function SetPte(s: State, d: nat, i: nat, w: nat, count: seq<nat>): State
    requires Shape(s) && HasTable(s, d) && Table(s, d) < HIGH && i < 1024
  {
    s.(mem := s.mem[Table(s, d) := PutWord(s.mem[Table(s, d)], i, w)], count := count)
  }

  lemma TableFacts(s: State, d: nat)
    requires Inv(s) && HasTable(s, d)
    ensures Paged(Table(s, d)) && Sole(s, Dir(d)) && |s.mem[Table(s, d)]| == 1024
  {
    assert SlotOk(s, Dir(d));
  }

  lemma SetPteTargets(s: State, d: nat, i: nat, w: nat, count: seq<nat>)
    requires Shape(s) && HasTable(s, d) && Paged(Table(s, d)) && i < 1024 && Sole(s, Dir(d)) && |count| == HIGH - LOW
    ensures var s' := SetPte(s, d, i, w, count);
            Shape(s') && OnlyMoves(s, s', Entry(d, i)) && Pte(s', d, i) == w &&
            (forall e, j :: Entry(e, j) != Entry(d, i) ==> Pte(s', e, j) == Pte(s, e, j))
  {
    var s' := SetPte(s, d, i, w, count);
    forall e, j | Entry(e, j) != Entry(d, i) ensures Pte(s', e, j) == Pte(s, e, j) {
      if e != d && HasTable(s, e) {
        assert Target(s, Dir(e)) != Target(s, Dir(d));
      }
    }
  }

  /** What word `w` may be put at page `i` of directory entry `d`. */
  ghost predicate PteOk(s: State, d: nat, i: nat, w: nat) {
    Present(w) ==>
      && FrameOf(w) < HIGH
      && (Writable(w) ==> Paged(FrameOf(w)))
      && forall y {:trigger Target(s, y)} :: y != Entry(d, i) && Target(s, y) == Some(FrameOf(w)) ==>
           !Writable(w) && y.Entry? && !Writable(Pte(s, y.d, y.i)) &&
               (Paged(FrameOf(w)) ==> Offset(y.d) == Offset(d) && y.i == i)
  }

  function WordTarget(w: nat): Option<nat> {
    if Present(w) then Some(FrameOf(w)) else None
  }

  lemma SetPteInv(s: State, d: nat, i: nat, w: nat, count: seq<nat>)
    requires Inv(s) && HasTable(s, d) && Table(s, d) < HIGH && i < 1024 && PteOk(s, d, i, w)
    requires |count| == HIGH - LOW && Recounted(s.count, count, WordTarget(Pte(s, d, i)), WordTarget(w))
    ensures Inv(SetPte(s, d, i, w, count))
  {
    TableFacts(s, d);
    SetPteTargets(s, d, i, w, count);
    var s', x := SetPte(s, d, i, w, count), Entry(d, i);
    assert Target(s', x) == WordTarget(w) && Target(s, x) == WordTarget(Pte(s, d, i));
    hide Present, Writable, FrameOf, Offset, SetPte;
    assert Owned(s') by { hide Counted, SlotsOk, Aligned; SetPteOwned(s, d, i, w, count); }
    assert MayPoint(s, s', x) by { hide Counted, Aligned, Owned, SlotsOk; }
    assert SlotOk(s', x) by { hide Counted, Aligned, Owned, SlotsOk; }
    hide PteOk, SlotOk, MayPoint, Owned, Target, Pte;
    MoveInv(s, s', x);
  }

  lemma SetPteOwned(s: State, d: nat, i: nat, w: nat, count: seq<nat>)
    requires Owned(s) && Shape(s) && HasTable(s, d) && Table(s, d) < HIGH && i < 1024
    ensures Owned(SetPte(s, d, i, w, count))
  {
    hide Present, Offset, Owner;
  }

  /** Rewriting one word of a page table changes what one page of one process is. */
  lemma SetPteView(s: State, d: nat, i: nat, w: nat, count: seq<nat>)
    requires Inv(s) && HasTable(s, d) && Table(s, d) < HIGH && i < 1024 && PteOk(s, d, i, w) && |count| == HIGH - LOW
    ensures forall e, j :: Entry(e, j) != Entry(d, i) ==> View(SetPte(s, d, i, w, count), e, j) == View(s, e, j)
    ensures View(SetPte(s, d, i, w, count), d, i) == if Present(w) then Some(s.mem[FrameOf(w)]) else None
  {
    var t, s', x := Table(s, d), SetPte(s, d, i, w, count), Entry(d, i);
    TableFacts(s, d);
    SetPteTargets(s, d, i, w, count);
    assert Target(s', x) == WordTarget(w);
    assert Target(s, Dir(d)) == Some(t);
    hide Present, Writable, FrameOf, Offset, Pte;
    forall e, j | Entry(e, j) != x ensures View(s', e, j) == View(s, e, j) {
      assert Target(s', Entry(e, j)) == Target(s, Entry(e, j));
    }
  }

  // ---------- The page directory ----------

  function SetDir(s: State, d: nat, w: nat, count: seq<nat>): State
    requires d < |s.dir|
  {
    s.(dir := s.dir[d := w], count := count)
  }

  /** An empty page table is put in or taken out: no page of any process changes. */
  lemma SetDirInv(s: State, d: nat, w: nat, count: seq<nat>)
    requires Inv(s) && 16 <= d < 1024 && |count| == HIGH - LOW
    requires forall i :: !Present(Pte(s, d, i)) && Pte(SetDir(s, d, w, count), d, i) == 0
    requires Present(w) ==> Paged(FrameOf(w)) && Owner(d) in s.limits && Offset(d) < s.limits[Owner(d)]
    requires Present(w) ==> forall y :: y != Dir(d) ==> Target(s, y) != Some(FrameOf(w))
    requires Recounted(s.count, count, Target(s, Dir(d)), WordTarget(w))
    ensures Inv(SetDir(s, d, w, count))
    ensures forall e, j :: View(SetDir(s, d, w, count), e, j) == View(s, e, j)
  {
    var s', x := SetDir(s, d, w, count), Dir(d);
    assert Target(s', x) == WordTarget(w);
    assert forall e, j :: e != d ==> Pte(s', e, j) == Pte(s, e, j);
    assert OnlyMoves(s, s', x) by { hide FrameOf, Offset, Owner; }
    assert forall e, j :: Target(s', Entry(e, j)) == Target(s, Entry(e, j));
    hide Present, Writable, FrameOf, Offset, Owner;
    assert Owned(s') by { hide Counted, SlotsOk, Aligned, Target, Pte; }
    assert NoMoreWritable(s, s', x) by { NotWritable(); }
    assert SlotOk(s', x) by { hide Counted, Aligned, Owned, SlotsOk, Pte; }
    hide SlotOk, Owned, Target, Pte;
    MoveInv(s, s', x);
  }

  lemma NotWritable()
    ensures !Writable(0)
  {
  }

  // ---------- Contents ----------

  function SetMem(s: State, f: nat, page: Page): State
    requires f < |s.mem|
  {
    s.(mem := s.mem[f := page])
  }

  /** Writing to a page only one place refers to, and that is not a page table, changes only that page. */
  lemma SetMemInv(s: State, f: nat, page: Page, x: Slot)
    requires Inv(s) && Paged(f) && |page| == 1024 && !x.Dir? && Target(s, x) == Some(f) && Sole(s, x)
    ensures Inv(SetMem(s, f, page))
    ensures forall y :: Target(SetMem(s, f, page), y) == Target(s, y)
    ensures forall e, j :: View(SetMem(s, f, page), e, j) == if Entry(e, j) == x then Some(page) else View(s, e, j)
  {
    var s' := SetMem(s, f, page);
    forall e, j ensures Pte(s', e, j) == Pte(s, e, j) {
      assert Target(s, Dir(e)) != Some(f);
    }
    hide Present, Writable, FrameOf, Offset, Pte;
    assert forall y :: Target(s', y) == Target(s, y);
    SameTargets(s, s');
  }

  /** If no place points elsewhere and no page becomes writable, the counts are still right. */
  lemma SameTargets(s: State, s': State)
    requires Inv(s) && Shape(s') && s'.count == s.count && s'.dir == s.dir
    requires forall y :: Target(s', y) == Target(s, y)
    requires forall d, i :: Pte(s', d, i) == Pte(s, d, i)
    requires Owned(s')
    ensures Inv(s')
  {
    hide Target, Pte, Offset, Universe, Owned;
    assert Counted(s') by {
      forall f | LOW <= f < HIGH ensures s'.count[f - LOW] == |Refs(s', f)| {
        assert Refs(s', f) == Refs(s, f);
      }
    }
    forall x ensures SlotOk(s', x) {
      assert SlotOk(s, x);
      if Sole(s, x) {
        assert Sole(s', x);
      }
    }
  }

  // ---------- Tasks ----------

  /** `task[nr] = p`: the page in hand becomes the task structure of process `nr`. */
  function AddTask(s: State, nr: nat, f: nat): State
  {
    s.(tasks := s.tasks[nr := f], hands := s.hands - {f})
  }

  lemma AddTaskInv(s: State, nr: nat, f: nat)
    requires Inv(s) && f in s.hands && Paged(f) && 0 < nr < NR_TASKS && nr !in s.tasks
    ensures Inv(AddTask(s, nr, f))
    ensures forall e, j :: View(AddTask(s, nr, f), e, j) == View(s, e, j)
  {
    HandOutInv(s, f);
    var s1, s2, x := HandOut(s, f), AddTask(s, nr, f), TaskPage(nr);
    assert Target(s1, x) == None && Target(s2, x) == Some(f);
    assert Owned(s2) by { hide Counted, SlotsOk, Aligned, Offset, Owner; assert forall d :: HasTable(s2, d) <==>
        HasTable(s, d); }
    assert forall d, i :: Pte(s2, d, i) == Pte(s1, d, i) == Pte(s, d, i);
    hide Present, Writable, FrameOf, Offset, Owner, Pte;
    assert OnlyMoves(s1, s2, x);
    assert Recounted(s1.count, s2.count, None, Some(f));
    hide Target, Owned;
    assert SlotOk(s2, x);
    MoveInv(s1, s2, x);
    forall e, j ensures View(s2, e, j) == View(s, e, j) {
      assert Target(s2, Entry(e, j)) == Target(s1, Entry(e, j)) == Target(s, Entry(e, j));
    }
  }

  /** A process without page tables may get, change or lose its limit. */
  lemma LimitsInv(s: State, nr: nat, limits: map<nat, nat>)
    requires Inv(s) && limits - {nr} == s.limits - {nr} && (nr in limits ==> 0 < nr < NR_TASKS && limits[nr] <= 16)
    requires forall d :: HasTable(s, d) ==> Owner(d) != nr
    ensures Inv(s.(limits := limits))
    ensures forall e, j :: View(s.(limits := limits), e, j) == View(s, e, j)
  {
    var s' := s.(limits := limits);
    assert Owned(s') by {
      forall d | HasTable(s', d) ensures Owner(d) in limits && Offset(d) < limits[Owner(d)] {
        assert HasTable(s, d);
        assert Owner(d) in limits - {nr};
      }
      forall n | n in limits ensures 0 < n < NR_TASKS && limits[n] <= 16 {
        assert n != nr ==> n in limits - {nr};
      }
    }
    assert forall d, i :: Pte(s', d, i) == Pte(s, d, i);
    hide Pte, Present, Writable, FrameOf, Offset, Owner;
    SameTargets(s, s');
  }

  /** `release`: the task structure goes back to the free pages. */
  function DropTask(s: State, nr: nat): State
    requires Shape(s) && nr in s.tasks && Paged(s.tasks[nr])
  {
    s.(tasks := s.tasks - {nr}, count := s.count[s.tasks[nr] - LOW := 0])
  }

  lemma DropTaskInv(s: State, nr: nat)
    requires Inv(s) && nr in s.tasks
    ensures Paged(s.tasks[nr]) && s.count[s.tasks[nr] - LOW] == 1 && Inv(DropTask(s, nr))
    ensures forall e, j :: View(DropTask(s, nr), e, j) == View(s, e, j)
  {
    var x := TaskPage(nr);
    assert SlotOk(s, x) && Target(s, x) == Some(s.tasks[nr]);
    SoleCount(s, x);
    var s' := DropTask(s, nr);
    assert Owned(s') by {
      hide Offset, Owner, Present, Counted, SlotsOk, Aligned;
      assert forall d :: HasTable(s', d) <==> HasTable(s, d);
    }
    assert forall d, i :: Pte(s', d, i) == Pte(s, d, i);
    hide Present, Writable, FrameOf, Offset, Owner, Pte;
    assert OnlyMoves(s, s', x) && Target(s', x) == None;
    hide Owned;
    MoveInv(s, s', x);
    forall e, j ensures View(s', e, j) == View(s, e, j) {
      assert Target(s', Entry(e, j)) == Target(s, Entry(e, j));
    }
  }

  // ---------- Whole updates ----------

  /** An empty page in hand becomes the page table of directory entry `d`. */
  function PlaceTable(s: State, d: nat, f: nat): State
    requires d < |s.dir|
  {
    s.(dir := s.dir[d := Mapped(f)], hands := s.hands - {f})
  }

  lemma PlaceTableInv(s: State, d: nat, f: nat)
    requires Inv(s) && f in s.hands && Paged(f) && s.mem[f] == Zeros()
    requires 16 <= d < 1024 && !HasTable(s, d) && Owner(d) in s.limits && Offset(d) < s.limits[Owner(d)]
    ensures Inv(PlaceTable(s, d, f))
    ensures forall e, j :: View(PlaceTable(s, d, f), e, j) == View(s, e, j)
    ensures Table(PlaceTable(s, d, f), d) == f && HasTable(PlaceTable(s, d, f), d)
  {
    HandOutInv(s, f);
    var s1 := HandOut(s, f);
    var s2 := SetDir(s1, d, Mapped(f), s.count);
    assert s2 == PlaceTable(s, d, f);
    assert forall i :: !Present(Pte(s1, d, i)) && Pte(s2, d, i) == 0;
    assert Target(s1, Dir(d)) == None && WordTarget(Mapped(f)) == Some(f);
    assert forall e, j :: View(s1, e, j) == View(s, e, j);
    hide Pte, Target, Present, FrameOf, Mapped;
    SetDirInv(s1, d, Mapped(f), s.count);
  }

  lemma DropTableInv(s: State, d: nat)
    requires Inv(s) && HasTable(s, d) && forall i :: Pte(s, d, i) == 0
    ensures Paged(Table(s, d)) && s.count[Table(s, d) - LOW] == 1
    ensures var s' := SetDir(s, d, 0, s.count[Table(s, d) - LOW := 0]);
            Inv(s') && forall e, j :: View(s', e, j) == View(s, e, j)
  {
    TableFacts(s, d);
    assert Target(s, Dir(d)) == Some(Table(s, d));
    SoleCount(s, Dir(d));
    var count := s.count[Table(s, d) - LOW := 0];
    assert forall i :: Pte(SetDir(s, d, 0, count), d, i) == 0;
    SetDirInv(s, d, 0, count);
  }

  /** A page in hand is mapped where nothing was. */
  function PlacePage(s: State, d: nat, i: nat, f: nat): State
    requires Shape(s) && HasTable(s, d) && Table(s, d) < HIGH && i < 1024
  {
    SetPte(s, d, i, Mapped(f), s.count).(hands := s.hands - {f})
  }

  lemma PlacePageInv(s: State, d: nat, i: nat, f: nat)
    requires Inv(s) && f in s.hands && Paged(f) && HasTable(s, d) && Table(s, d) < HIGH && i < 1024 &&
        !Present(Pte(s, d, i))
    ensures Inv(PlacePage(s, d, i, f))
    ensures forall e, j :: View(PlacePage(s, d, i, f), e, j) == if Entry(e, j) == Entry(d, i) then Some(s.mem[f])
        else View(s, e, j)
  {
    HandOutInv(s, f);
    var s1 := HandOut(s, f);
    assert forall e, j :: View(s1, e, j) == View(s, e, j) && Pte(s1, e, j) == Pte(s, e, j);
    assert PlacePage(s, d, i, f) == SetPte(s1, d, i, Mapped(f), s.count);
    assert WordTarget(Pte(s1, d, i)) == None && WordTarget(Mapped(f)) == Some(f);
    assert PteOk(s1, d, i, Mapped(f));
    hide Pte, Target, Present, FrameOf, Mapped, PteOk, SetPte;
    SetPteInv(s1, d, i, Mapped(f), s.count);
    SetPteView(s1, d, i, Mapped(f), s.count);
  }

  /** The counts once the reference at page `i` of directory entry `d` is gone. */
  function Less(count: seq<nat>, f: nat): seq<nat>
    requires |count| == HIGH - LOW && (Paged(f) ==> count[f - LOW] > 0)
  {
    if Paged(f) then count[f - LOW := count[f - LOW] - 1] else count
  }

  function More(count: seq<nat>, f: nat): seq<nat>
    requires |count| == HIGH - LOW
  {
    if Paged(f) then count[f - LOW := count[f - LOW] + 1] else count
  }

  /** A frame that something refers to has a positive count. */
  lemma RefCounted(s: State, x: Slot)
    requires Inv(s) && Target(s, x).Some?
    ensures Paged(Target(s, x).value) ==> s.count[Target(s, x).value - LOW] > 0
  {
    hide Target, Universe;
    TargetInUniverse(s, x);
    var f := Target(s, x).value;
    assert x in Refs(s, f);
  }

  lemma DropPteInv(s: State, d: nat, i: nat)
    requires Inv(s) && HasTable(s, d) && Table(s, d) < HIGH && i < 1024
    ensures var w := Pte(s, d, i);
            && (Present(w) && Paged(FrameOf(w)) ==> s.count[FrameOf(w) - LOW] > 0)
            && (Present(w) ==> FrameOf(w) < HIGH)
            && var s' := SetPte(s, d, i, 0, if Present(w) then Less(s.count, FrameOf(w)) else s.count);
               Inv(s') && forall e, j :: View(s', e, j) == if Entry(e, j) == Entry(d, i) then None else View(s, e, j)
  {
    var w := Pte(s, d, i);
    assert Target(s, Entry(d, i)) == WordTarget(w);
    if Present(w) { RefCounted(s, Entry(d, i)); }
    assert SlotOk(s, Entry(d, i));
    var count := if Present(w) then Less(s.count, FrameOf(w)) else s.count;
    hide Pte, FrameOf, Target, SetPte;
    SetPteInv(s, d, i, 0, count);
    SetPteView(s, d, i, 0, count);
  }

  // ---------- Copy on write ----------

  lemma CountOneSole(s: State, x: Slot)
    requires Inv(s) && Target(s, x).Some? && Paged(Target(s, x).value) && s.count[Target(s, x).value - LOW] == 1
    ensures Sole(s, x)
  {
    hide Target, Universe;
    var f := Target(s, x).value;
    var r := Refs(s, f);
    TargetInUniverse(s, x);
    forall y | Target(s, y) == Target(s, x) ensures y == x {
      TargetInUniverse(s, y);
      assert x in r && y in r;
      OneOnly(r, x, y);
    }
  }

  lemma OneOnly(r: set<Slot>, x: Slot, y: Slot)
    requires |r| == 1 && x in r && y in r
    ensures x == y
  {
    assert |r - {x}| == 0;
  }

  /** Nobody else refers to the page: it may simply become writable again. */
  lemma UnprotectInv(s: State, d: nat, i: nat)
    requires Inv(s) && HasTable(s, d) && Table(s, d) < HIGH && i < 1024 && Present(Pte(s, d, i))
    requires Paged(FrameOf(Pte(s, d, i))) && s.count[FrameOf(Pte(s, d, i)) - LOW] == 1
    ensures var s' := SetPte(s, d, i, ReadWrite(Pte(s, d, i)), s.count);
            Inv(s') && forall e, j :: View(s', e, j) == View(s, e, j)
  {
    var w := Pte(s, d, i);
    assert Target(s, Entry(d, i)) == WordTarget(w) == WordTarget(ReadWrite(w));
    CountOneSole(s, Entry(d, i));
    assert SlotOk(s, Entry(d, i));
    assert PteOk(s, d, i, ReadWrite(w));
    assert View(s, d, i) == Some(s.mem[FrameOf(w)]);
    hide Pte, FrameOf, Target, SetPte, Present, Writable, ReadWrite, PteOk;
    SetPteInv(s, d, i, ReadWrite(w), s.count);
    SetPteView(s, d, i, ReadWrite(w), s.count);
  }

  /** The page at `d`, `i` moves to the page `g` in hand, which becomes a private copy of it. */
  function CopyPage(s: State, d: nat, i: nat, g: nat): State
    requires Shape(s) && HasTable(s, d) && Table(s, d) < HIGH && i < 1024 && g < HIGH && FrameOf(Pte(s, d, i)) < HIGH
    requires Paged(FrameOf(Pte(s, d, i))) ==> s.count[FrameOf(Pte(s, d, i)) - LOW] > 0
  {
    var f := FrameOf(Pte(s, d, i));
    SetMem(SetPte(s, d, i, Mapped(g), Less(s.count, f)), g, s.mem[f]).(hands := s.hands - {g})
  }

  lemma CopyPageInv(s: State, d: nat, i: nat, g: nat)
    requires Inv(s) && g in s.hands && Paged(g) && HasTable(s, d) && Table(s, d) < HIGH && i < 1024 &&
        Present(Pte(s, d, i))
    ensures FrameOf(Pte(s, d, i)) < HIGH && FrameOf(Pte(s, d, i)) != g
    ensures Paged(FrameOf(Pte(s, d, i))) ==> s.count[FrameOf(Pte(s, d, i)) - LOW] > 0
    ensures Inv(CopyPage(s, d, i, g))
    ensures forall e, j :: View(CopyPage(s, d, i, g), e, j) == View(s, e, j)
  {
    var w, x := Pte(s, d, i), Entry(d, i);
    var f := FrameOf(w);
    assert Target(s, x) == Some(f) && SlotOk(s, x);
    RefCounted(s, x);
    HandOutInv(s, g);
    assert Target(s, Hand(g)) == Some(g) && Sole(s, Hand(g)) by { assert SlotOk(s, Hand(g)); }
    var s1 := HandOut(s, g);
    var count := Less(s.count, f);
    var s2 := SetPte(s1, d, i, Mapped(g), count);
    var s3 := SetMem(s2, g, s.mem[f]);
    assert s3 == CopyPage(s, d, i, g);
    assert forall e, j :: View(s1, e, j) == View(s, e, j) && Pte(s1, e, j) == Pte(s, e, j);
    assert View(s, d, i) == Some(s.mem[f]) && WordTarget(Mapped(g)) == Some(g) && WordTarget(w) == Some(f);
    assert PteOk(s1, d, i, Mapped(g));
    TableFacts(s1, d);
    SetPteTargets(s1, d, i, Mapped(g), count);
    assert Target(s2, x) == Some(g);
    hide Pte, FrameOf, Target, SetPte, Present, Writable, Mapped, PteOk, Less;
    assert Sole(s2, x) by { assert forall y :: y != x ==> Target(s2, y) == Target(s1, y); }
    CopyCounted(s.count, count, f, g);
    SetPteInv(s1, d, i, Mapped(g), count);
    SetPteView(s1, d, i, Mapped(g), count);
    SetMemInv(s2, g, s.mem[f], x);
  }

  lemma CopyCounted(count: seq<nat>, count': seq<nat>, f: nat, g: nat)
    requires |count| == HIGH - LOW && Paged(g) && count[g - LOW] == 1 && f != g
    requires Paged(f) ==> count[f - LOW] > 0
    requires count' == Less(count, f)
    ensures Recounted(count[g - LOW := 0], count', Some(f), Some(g))
  {
  }

  // ---------- Sharing at fork ----------

  /** Page `i` of directory entry `d` becomes read only and is also mapped at directory entry `e`;
      pages below `LOW_MEM` are not counted, and stay as they are at `d`. */
  function Share(s: State, d: nat, e: nat, i: nat): State
    requires Shape(s) && HasTable(s, d) && Table(s, d) < HIGH && HasTable(s, e) && Table(s, e) < HIGH && i < 1024
  {
    var w := ReadOnly(Pte(s, d, i));
    var s1 := SetPte(s, e, i, w, More(s.count, FrameOf(w)));
    if Paged(FrameOf(w)) then SetPte(s1, d, i, w, s1.count) else s1
  }

  lemma ShareInv(s: State, d: nat, e: nat, i: nat)
    requires Inv(s) && HasTable(s, d) && Table(s, d) < HIGH && HasTable(s, e) && Table(s, e) < HIGH && i < 1024
    requires d != e && Offset(d) == Offset(e) && Present(Pte(s, d, i)) && !Present(Pte(s, e, i))
    ensures Inv(Share(s, d, e, i)) && OnlyMoves(s, Share(s, d, e, i), Entry(e, i)) && Share(s, d, e, i).dir == s.dir
    ensures forall b, j :: View(Share(s, d, e, i), b, j) == if Entry(b, j) == Entry(e, i) then View(s, d, i)
        else View(s, b, j)
  {
    var w := ReadOnly(Pte(s, d, i));
    var f := FrameOf(w);
    var s0 := if Paged(f) then SetPte(s, d, i, w, s.count) else s;
    ProtectInv(s, d, i);
    assert HasTable(s0, d) && HasTable(s0, e) && Table(s0, e) == Table(s, e) && Table(s0, d) == Table(s, d);
    var count := More(s.count, f);
    assert SetPte(s0, e, i, w, count) == Share(s, d, e,
        i) by { TableFacts(s, d); TableFacts(s, e); ShareOrder(s, d, e, i); }
    SharePteOk(s0, d, e, i, w);
    assert WordTarget(Pte(s0, e, i)) == None && WordTarget(w) == Some(f);
    assert View(s0, d, i) == Some(s0.mem[f]);
    TableFacts(s0, e);
    SetPteTargets(s0, e, i, w, count);
    assert SetPte(s0, e, i, w, count).dir == s.dir;
    hide Pte, FrameOf, Target, SetPte, Present, Writable, ReadOnly, PteOk, Share;
    SetPteInv(s0, e, i, w, count);
    SetPteView(s0, e, i, w, count);
  }

  /** The two tables differ, so the order of the two writes does not matter. */
  lemma ShareOrder(s: State, d: nat, e: nat, i: nat)
    requires Shape(s) && HasTable(s, d) && Table(s, d) < HIGH && HasTable(s, e) && Table(s, e) < HIGH && i < 1024
    requires d != e && Sole(s, Dir(d))
    ensures var w := ReadOnly(Pte(s, d, i));
            Share(s, d, e, i) == SetPte(if Paged(FrameOf(w)) then SetPte(s, d, i, w, s.count)
                else s, e, i, w, More(s.count, FrameOf(w)))
  {
    assert Target(s, Dir(e)) != Target(s, Dir(d));
    hide ReadOnly, Present;
  }

  lemma ProtectInv(s: State, d: nat, i: nat)
    requires Inv(s) && HasTable(s, d) && Table(s, d) < HIGH && i < 1024 && Present(Pte(s, d, i))
    ensures var w := ReadOnly(Pte(s, d, i));
            var s' := if Paged(FrameOf(w)) then SetPte(s, d, i, w, s.count) else s;
            && FrameOf(w) < HIGH
            && Inv(s') && (forall e, j :: View(s', e, j) == View(s, e, j)) &&
                (forall x :: Target(s', x) == Target(s, x))
            && Target(s', Entry(d, i)) == Some(FrameOf(w)) && !Writable(Pte(s', d, i))
            && (forall e, j :: Entry(e, j) != Entry(d, i) ==> Pte(s', e, j) == Pte(s, e, j))
  {
    var w := Pte(s, d, i);
    var f, x := FrameOf(w), Entry(d, i);
    assert Target(s, x) == WordTarget(w) == WordTarget(ReadOnly(w));
    assert SlotOk(s, x);
    if Paged(f) {
      TableFacts(s, d);
      SetPteTargets(s, d, i, ReadOnly(w), s.count);
      ProtectOk(s, d, i);
      assert View(s, d, i) == Some(s.mem[f]);
      hide Pte, FrameOf, SetPte, Present, Writable, ReadOnly, PteOk;
      SetPteInv(s, d, i, ReadOnly(w), s.count);
      SetPteView(s, d, i, ReadOnly(w), s.count);
    }
  }

  /** Pages that share a frame are all read only. */
  lemma ProtectOk(s: State, d: nat, i: nat)
    requires Inv(s) && Present(Pte(s, d, i))
    ensures PteOk(s, d, i, ReadOnly(Pte(s, d, i)))
  {
    var x := Entry(d, i);
    assert SlotOk(s, x);
    hide Pte, Offset, Counted;
    forall y | y != x && Target(s, y) == Target(s, x)
      ensures y.Entry? && !Writable(Pte(s, y.d, y.i)) &&
          (Paged(Target(s, x).value) ==> Offset(y.d) == Offset(d) && y.i == i)
    {
      assert SlotOk(s, y);
      assert !Sole(s, y);
      if Paged(Target(s, x).value) {
        assert Target(s, Entry(y.d, y.i)) == Target(s, Entry(d, i));
      }
    }
  }

  lemma SharePteOk(s: State, d: nat, e: nat, i: nat, w: nat)
    requires Inv(s) && Offset(d) == Offset(e) && Target(s, Entry(d, i)) == Some(FrameOf(w)) && !Writable(Pte(s, d, i))
    requires !Writable(w) && FrameOf(w) < HIGH
    ensures PteOk(s, e, i, w)
  {
    var x := Entry(d, i);
    assert Present(Pte(s, d, i));
    hide Pte, Offset, Counted, Present;
    forall y | Target(s, y) == Target(s, x)
      ensures y.Entry? && !Writable(Pte(s, y.d, y.i)) && (Paged(FrameOf(w)) ==> Offset(y.d) == Offset(e) && y.i == i)
    {
      assert SlotOk(s, y);
      if y != x {
        assert !Sole(s, y);
      }
      if Paged(FrameOf(w)) {
        assert Target(s, Entry(y.d, y.i)) == Target(s, Entry(d, i));
      }
    }
  }

  /** A present entry, taken as a number, is above `LOW_MEM` exactly if its frame is not below it. */
  lemma AboveLow(w: nat)
    requires Present(w)
    ensures w > LOW * 4096 <==> FrameOf(w) >= LOW
  {
  }

  lemma PresentFrame(s: State, d: nat, i: nat)
    requires Inv(s) && Present(Pte(s, d, i))
    ensures FrameOf(Pte(s, d, i)) < HIGH
  {
    assert SlotOk(s, Entry(d, i));
  }

  // ---------- What else the steps leave alone ----------

  lemma SetPteKeeps(s: State, d: nat, i: nat, w: nat, count: seq<nat>)
    requires Inv(s) && HasTable(s, d) && Table(s, d) < HIGH && i < 1024 && |count| == HIGH - LOW
    ensures WordsKept(s, SetPte(s, d, i, w, count), {d})
  {
    TableFacts(s, d);
    SetPteTargets(s, d, i, w, count);
    hide Pte, SetPte;
  }

  lemma SetDirKeeps(s: State, d: nat, w: nat, count: seq<nat>)
    requires d < |s.dir|
    ensures WordsKept(s, SetDir(s, d, w, count), {d})
  {
  }

  lemma HandInKeeps(s: State, f: nat)
    requires Inv(s) && Paged(f) && s.count[f - LOW] == 0
    ensures WordsKept(s, HandIn(s, f), {})
  {
    NoRefs(s, f);
    HandInTargets(s, f);
    hide Pte, HandIn;
  }

  lemma PlaceTableKeeps(s: State, d: nat, t: nat)
    requires Inv(s) && 16 <= d < 1024 && Paged(t) && s.count[t - LOW] == 0
    ensures WordsKept(s, PlaceTable(HandIn(s, t), d, t), {d})
  {
    HandInKeeps(s, t);
    var s1 := HandIn(s, t);
    assert forall e, j :: e != d ==> Pte(PlaceTable(s1, d, t), e, j) == Pte(s1, e, j);
    hide Pte, HandIn, PlaceTable;
    WordsKeptMore(s, s1, {}, {d});
    WordsKeptTrans(s, s1, PlaceTable(s1, d, t), {d});
  }

  lemma ShareKeeps(s: State, d: nat, e: nat, i: nat)
    requires Inv(s) && HasTable(s, d) && Table(s, d) < HIGH && HasTable(s, e) && Table(s, e) < HIGH && i < 1024
    requires d != e
    ensures WordsKept(s, Share(s, d, e, i), {d, e})
  {
    TableFacts(s, d);
    TableFacts(s, e);
    forall b, j | b != d && b != e ensures Pte(Share(s, d, e, i), b, j) == Pte(s, b, j) {
      if HasTable(s, b) {
        assert Target(s, Dir(b)) != Target(s, Dir(d)) && Target(s, Dir(b)) != Target(s, Dir(e));
      }
    }
  }
}
