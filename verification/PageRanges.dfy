/**
 What freeing and copying a run of page tables has done so far.
 */
module PageRanges {
  import opened PageTables
  import opened PageSteps

  predicate InRange(x: Slot, from: nat, n: nat) {
    (x.Dir? || x.Entry?) && from <= x.d < from + n
  }

  /** Only the `n` directory entries at `from` and what they map may have changed. */
  ghost predicate Elsewhere(s: State, s': State, from: nat, n: nat) {
    && s'.tasks == s.tasks && s'.limits == s.limits && s'.hands == s.hands
    && forall x {:trigger Target(s', x)} :: !InRange(x, from, n) ==> Target(s', x) == Target(s, x)
  }

  // ---------- Freeing ----------

  /** The first `i` pages of directory entry `d` are gone; nothing else changed. */
  ghost predicate Cleared(s: State, s': State, d: nat, i: nat) {
    && Inv(s') && Elsewhere(s, s', d, 1) && s'.dir == s.dir && HasTable(s', d)
    && (forall j :: 0 <= j < i ==> Pte(s', d, j) == 0)
    && (forall e: nat, j: nat :: View(s', e, j) == if e == d && j < i then None else View(s, e, j))
  }

  lemma ClearedNext(s: State, s1: State, s2: State, d: nat, i: nat)
    requires Cleared(s, s1, d, i) && i < 1024 && Table(s1, d) < HIGH && Sole(s1, Dir(d)) && Paged(Table(s1, d))
    requires exists count :: |count| == HIGH - LOW && s2 == SetPte(s1, d, i, 0, count)
    requires Inv(s2) && forall e: nat, j: nat ::
        View(s2, e, j) == if Entry(e, j) == Entry(d, i) then None else View(s1, e, j)
    ensures Cleared(s, s2, d, i + 1)
  {
    var count :| |count| == HIGH - LOW && s2 == SetPte(s1, d, i, 0, count);
    SetPteTargets(s1, d, i, 0, count);
    assert forall x :: x != Entry(d, i) ==> Target(s2, x) == Target(s1, x);
  }

  lemma ClearedAll(s: State, s1: State, d: nat)
    requires Cleared(s, s1, d, 1024)
    ensures forall i :: Pte(s1, d, i) == 0
  {
  }

  /** The `n` directory entries at `from` are empty, and all else is as before. */
  ghost predicate Freed(s: State, s': State, from: nat, n: nat) {
    && Inv(s') && Elsewhere(s, s', from, n)
    && (forall e: nat :: HasTable(s', e) <==> HasTable(s, e) && !(from <= e < from + n))
    && (forall e: nat, j: nat :: View(s', e, j) == if from <= e < from + n then None else View(s, e, j))
  }

  lemma TableDropped(s: State, s1: State, s2: State, d: nat)
    requires Cleared(s, s1, d, 1024) && 16 <= d < 1024 && |s1.dir| == 1024 && Inv(s2)
    requires exists count :: s2 == SetDir(s1, d, 0, count)
    requires forall e: nat, j: nat :: View(s2, e, j) == View(s1, e, j)
    ensures Freed(s, s2, d, 1)
  {
    forall e: nat, j: nat ensures View(s2, e, j) == if d <= e < d + 1 then None else View(s, e, j) {
      if e == d && j >= 1024 {
        assert View(s, e, j) == None;
      }
    }
    assert forall e: nat, j: nat :: e != d ==> Pte(s2, e, j) == Pte(s1, e, j);
    forall x | !InRange(x, d, 1) ensures Target(s2, x) == Target(s, x) {
      assert Target(s1, x) == Target(s, x);
    }
  }

  lemma NothingFreed(s: State, from: nat)
    requires Inv(s)
    ensures Freed(s, s, from, 0)
  {
  }

  lemma FreedShape(s: State, s1: State, from: nat, k: nat)
    requires Freed(s, s1, from, k)
    ensures Inv(s1) && Shape(s1)
  {
  }

  lemma HasTableHere(s: State, d: nat)
    requires Shape(s) && 16 <= d < 1024
    ensures HasTable(s, d) <==> Present(s.dir[d])
  {
  }

  lemma FreedNext(s: State, s1: State, s2: State, from: nat, k: nat)
    requires Freed(s, s1, from, k) && (if HasTable(s1, from + k) then Freed(s1, s2, from + k, 1) else s2 == s1)
    ensures Freed(s, s2, from, k + 1)
  {
    hide Inv;
    forall x | !InRange(x, from, k + 1) ensures Target(s2, x) == Target(s, x) {
      assert Target(s1, x) == Target(s, x);
      if HasTable(s1, from + k) {
        assert !InRange(x, from + k, 1);
      }
    }
    if !HasTable(s1, from + k) {
      forall e: nat, j: nat | e == from + k ensures View(s1, e, j) == None {
        assert Pte(s1, e, j) == 0;
      }
    }
  }

  // ---------- Copying ----------

  /** The `n` directory entries at `to` are free, allowed to the new process, and aligned with those at `from`. */
  ghost predicate CopyReady(s: State, from: nat, to: nat, n: nat) {
    && Inv(s) && 16 <= from && 16 <= to && from + n <= 1024 && to + n <= 1024
    && (from + n <= to || to + n <= from)
    && (forall e {:trigger HasTable(s, e)} :: to <= e < to + n ==>
         && !HasTable(s, e) && Offset(e) == Offset(from + (e - to))
         && Owner(e) in s.limits && Offset(e) < s.limits[Owner(e)])
  }

  /** `k` directory entries are copied and, if the next one is `open`, the first `i` of its pages. */
  ghost predicate Copying(s: State, s': State, from: nat, to: nat, n: nat, k: nat, i: nat, open: bool) {
    && Inv(s') && Elsewhere(s, s', to, n)
    && (forall e :: to + k < e < to + n ==> !HasTable(s', e))
    && (k < n ==> (HasTable(s', to + k) <==> open))
    && (forall e: nat, j: nat {:trigger View(s', e, j)} :: View(s', e, j) ==
         if to <= e < to + k || (open && e == to + k && j < i) then View(s, from + (e - to), j) else View(s, e, j))
  }

  lemma CopyStart(s: State, from: nat, to: nat, n: nat)
    requires CopyReady(s, from, to, n)
    ensures Copying(s, s, from, to, n, 0, 0, false)
  {
  }

  lemma CopyShape(s: State, s1: State, from: nat, to: nat, n: nat, k: nat)
    requires CopyReady(s, from, to, n) && Copying(s, s1, from, to, n, k, 0, false) && k < n
    ensures Shape(s1) && Inv(s1) && (HasTable(s1, from + k) <==> Present(s1.dir[from + k]))
  {
  }

  lemma CopyFrames(s: State, s1: State, from: nat, to: nat, n: nat, k: nat, i: nat)
    requires CopyReady(s, from, to, n) && Copying(s, s1, from, to, n, k, i, true) && k < n
    ensures Inv(s1) && from + k != to + k
  {
  }

  /** Where nothing can have changed: the directory entries copied from. */
  lemma CopySource(s: State, s1: State, from: nat, to: nat, n: nat, k: nat)
    requires CopyReady(s, from, to, n) && Elsewhere(s, s1, to, n) && k < n
    ensures HasTable(s1, from + k) <==> HasTable(s, from + k)
    ensures !HasTable(s, to + k) && Offset(to + k) == Offset(from + k)
    ensures Owner(to + k) in s1.limits && Offset(to + k) < s1.limits[Owner(to + k)]
  {
    assert Target(s1, Dir(from + k)) == Target(s, Dir(from + k));
    assert !HasTable(s, to + k);
  }

  lemma NoTableNoView(s: State, d: nat)
    requires !HasTable(s, d)
    ensures forall j :: View(s, d, j) == None
  {
    assert forall j :: Pte(s, d, j) == 0;
  }

  lemma CopySkip(s: State, s1: State, from: nat, to: nat, n: nat, k: nat)
    requires CopyReady(s, from, to, n) && Copying(s, s1, from, to, n, k, 0, false) && k < n
    requires !HasTable(s1, from + k)
    ensures Copying(s, s1, from, to, n, k + 1, 0, false)
  {
    CopySource(s, s1, from, to, n, k);
    NoTableNoView(s, from + k);
    NoTableNoView(s, to + k);
    hide Inv, View, HasTable, Target;
  }

  lemma CopyOpen(s: State, s1: State, from: nat, to: nat, n: nat, k: nat, t: nat)
    requires CopyReady(s, from, to, n) && Copying(s, s1, from, to, n, k, 0, false) && k < n
    requires Shape(s1) && Paged(t) && s1.count[t - LOW] == 0
    ensures Copying(s, PlaceTable(HandIn(s1, t), to + k, t), from, to, n, k, 0, true)
    ensures Table(PlaceTable(HandIn(s1, t), to + k, t), to + k) == t
  {
    CopySource(s, s1, from, to, n, k);
    HandInInv(s1, t);
    var s2 := HandIn(s1, t);
    var s3 := PlaceTable(s2, to + k, t);
    assert !HasTable(s2, to + k);
    PlaceTableInv(s2, to + k, t);
    assert Elsewhere(s1, s3, to + k, 1) by { OpenElsewhere(s1, to + k, t); }
    assert Elsewhere(s, s3, to, n) by { ElsewhereIn(s, s1, s3, to, n, k); }
    assert forall e :: e != to + k ==> (HasTable(s3, e) <==> HasTable(s1, e));
  }

  lemma OpenElsewhere(s: State, d: nat, t: nat)
    requires Inv(s) && 16 <= d < 1024 && !HasTable(s, d) && Paged(t) && s.count[t - LOW] == 0
    ensures Elsewhere(s, PlaceTable(HandIn(s, t), d, t), d, 1)
  {
    HandInInv(s, t);
    var s2, s3 := HandIn(s, t), PlaceTable(HandIn(s, t), d, t);
    assert s3.hands == s.hands;
    assert forall e: nat, j: nat :: e != d ==> Pte(s3, e, j) == Pte(s2, e, j);
    forall x | !InRange(x, d, 1) ensures Target(s3, x) == Target(s, x) {
      assert x != Hand(t) ==> Target(s2, x) == Target(s, x);
    }
  }

  lemma ElsewhereIn(s: State, s1: State, s2: State, to: nat, n: nat, k: nat)
    requires Elsewhere(s, s1, to, n) && Elsewhere(s1, s2, to + k, 1) && k < n
    ensures Elsewhere(s, s2, to, n)
  {
    hide Target;
    forall x | !InRange(x, to, n) ensures Target(s2, x) == Target(s, x) {
      assert !InRange(x, to + k, 1);
      assert Target(s1, x) == Target(s, x);
    }
  }

  /** One more page is shared. */
  lemma CopyShared(s: State, s1: State, from: nat, to: nat, n: nat, k: nat, i: nat)
    requires CopyReady(s, from, to, n) && Copying(s, s1, from, to, n, k, i, true) && k < n && i < 1024
    requires HasTable(s1, from + k) && Table(s1, from + k) < HIGH && HasTable(s1, to + k) && Table(s1, to + k) < HIGH
    requires Present(Pte(s1, from + k, i))
    ensures Copying(s, Share(s1, from + k, to + k, i), from, to, n, k, i + 1, true)
  {
    CopySource(s, s1, from, to, n, k);
    NoTableNoView(s, to + k);
    hide Target, View, Pte, Present, Share, HasTable, Table, CopyReady;
    SourceView(s, s1, from, to, n, k, i);
    NotMapped(s1, to + k, i);
    ShareInv(s1, from + k, to + k, i);
    var s2 := Share(s1, from + k, to + k, i);
    ShareElsewhere(s, s1, from, to, n, k, i);
    SameDir(s1, s2);
    SharedView(s, s1, s2, from, to, n, k, i);
    hide Elsewhere, Inv;
  }

  lemma SharedView(s: State, s1: State, s2: State, from: nat, to: nat, n: nat, k: nat, i: nat)
    requires Copying(s, s1, from, to, n, k, i, true) && View(s1, from + k, i) == View(s, from + k, i)
    requires forall b, j :: View(s2, b, j) == if Entry(b, j) == Entry(to + k, i) then View(s1, from + k, i)
                                              else View(s1, b, j)
    requires i < 1024
    ensures forall e: nat, j: nat {:trigger View(s2, e, j)} :: View(s2, e, j) ==
              if to <= e < to + k || (e == to + k && j < i + 1) then View(s, from + (e - to), j) else View(s, e, j)
  {
    hide Inv, Elsewhere, View, HasTable;
    forall e: nat, j: nat
      ensures View(s2, e, j) ==
         if to <= e < to + k || (e == to + k && j < i + 1) then View(s, from + (e - to), j) else View(s, e, j)
    {
      assert View(s1, e, j) ==
         if to <= e < to + k || (e == to + k && j < i) then View(s, from + (e - to), j) else View(s, e, j);
    }
  }

  lemma SourceView(s: State, s1: State, from: nat, to: nat, n: nat, k: nat, i: nat)
    requires CopyReady(s, from, to, n) && Copying(s, s1, from, to, n, k, i, true) && k < n
    requires View(s, to + k, i) == None
    ensures View(s1, to + k, i) == None && View(s1, from + k, i) == View(s, from + k, i)
  {
    hide Inv, Target, View, HasTable;
  }

  lemma ShareElsewhere(s: State, s1: State, from: nat, to: nat, n: nat, k: nat, i: nat)
    requires Elsewhere(s, s1, to, n) && k < n && Shape(s1) && i < 1024
    requires HasTable(s1, from + k) && Table(s1, from + k) < HIGH && HasTable(s1, to + k) && Table(s1, to + k) < HIGH
    requires OnlyMoves(s1, Share(s1, from + k, to + k, i), Entry(to + k, i))
    ensures Elsewhere(s, Share(s1, from + k, to + k, i), to, n)
  {
    hide Target, Pte;
    assert Elsewhere(s1, Share(s1, from + k, to + k, i), to + k, 1);
    hide Share;
    ElsewhereIn(s, s1, Share(s1, from + k, to + k, i), to, n, k);
  }

  lemma SameDir(s: State, s': State)
    requires s'.dir == s.dir
    ensures forall e {:trigger HasTable(s', e)} :: HasTable(s', e) <==> HasTable(s, e)
  {
  }

  /** One more page is not there to be shared. */
  lemma CopyAbsent(s: State, s1: State, from: nat, to: nat, n: nat, k: nat, i: nat)
    requires CopyReady(s, from, to, n) && Copying(s, s1, from, to, n, k, i, true) && k < n && i < 1024
    requires !Present(Pte(s1, from + k, i))
    ensures Copying(s, s1, from, to, n, k, i + 1, true)
  {
    CopySource(s, s1, from, to, n, k);
    NoTableNoView(s, to + k);
    assert View(s1, from + k, i) == None;
    hide Target, View, Pte, Present, HasTable, CopyReady;
    SourceView(s, s1, from, to, n, k, i);
  }

  lemma NotMapped(s: State, d: nat, i: nat)
    requires Inv(s) && View(s, d, i) == None
    ensures !Present(Pte(s, d, i))
  {
    assert SlotOk(s, Entry(d, i));
  }

  lemma CopyDone(s: State, s1: State, from: nat, to: nat, n: nat, k: nat)
    requires CopyReady(s, from, to, n) && Copying(s, s1, from, to, n, k, 1024, true) && k < n
    ensures Copying(s, s1, from, to, n, k + 1, 0, false)
  {
    forall e: nat, j: nat | e == to + k && j >= 1024 ensures View(s, from + k, j) == None && View(s1, e, j) == None {
      assert Pte(s, from + k, j) == 0 && Pte(s1, e, j) == 0;
    }
    hide Target, View, Pte, HasTable, Inv;
  }

  /** Whatever was copied, nothing outside the destination looks different. */
  lemma CopyFrame(s: State, s1: State, from: nat, to: nat, n: nat, k: nat)
    requires Copying(s, s1, from, to, n, k, 0, false) && k <= n
    ensures Inv(s1) && Elsewhere(s, s1, to, n)
    ensures forall e: nat, j: nat :: !(to <= e < to + n) ==> View(s1, e, j) == View(s, e, j)
  {
    forall e: nat, j: nat | !(to <= e < to + n) ensures View(s1, e, j) == View(s, e, j) {
      assert !(to <= e < to + k);
    }
  }
}
