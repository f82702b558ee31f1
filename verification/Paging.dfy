/**
 Linux 0.01 `mm/memory.c` and the memory half of `kernel/fork.c`, as one object that owns the page
 directory, `mem_map` and physical memory.  A method that returns `alive == false` stands for the
 code's `do_exit(SIGSEGV)` when memory runs out.
 */
module Paging {
  import opened PageTables
  import opened PageSteps
  import opened PageRanges
  import opened PageFaults
  import opened AddressSpaces

  class Memory {
    const pgDir: array<nat>
    const memMap: array<nat>
    const mem: array<Page>
    var tasks: map<nat, nat>
    var limits: map<nat, nat>
    var areas: map<nat, set<Area>>       // what processes have verified in the system calls they are in
    ghost var hands: set<nat>

    ghost function Snap(): State
      reads this, pgDir, memMap, mem
    {
      State(pgDir[..], mem[..], memMap[..], tasks, limits, hands)
    }

    // ---------- Single writes ----------

    method WriteWord(f: nat, i: nat, w: nat)
      requires Shape(Snap()) && f < HIGH && i < 1024
      modifies mem
      ensures Snap() == SetMem(old(Snap()), f, PutWord(old(mem[f]), i, w))
    {
      mem[f] := PutWord(mem[f], i, w);
      assert mem[..] == old(mem[..])[f := PutWord(old(mem[f]), i, w)];
    }

    method WriteDir(d: nat, w: nat)
      requires Shape(Snap()) && d < 1024
      modifies pgDir
      ensures Snap() == SetDir(old(Snap()), d, w, old(memMap[..]))
    {
      pgDir[d] := w;
      assert pgDir[..] == old(pgDir[..])[d := w];
    }

    method WriteCount(f: nat, c: nat)
      requires Shape(Snap()) && Paged(f)
      modifies memMap
      ensures Snap() == old(Snap()).(count := old(memMap[..])[f - LOW := c])
    {
      memMap[f - LOW] := c;
      assert memMap[..] == old(memMap[..])[f - LOW := c];
    }

    // ---------- Free pages ----------

    /** `get_free_page`: the last free page, zeroed, or 0. */
    method GetFreePage() returns (f: nat)
      requires Inv(Snap())
      modifies memMap, mem, this`hands
      ensures Inv(Snap())
      ensures f == 0 ==> Snap() == old(Snap()) && forall k :: 0 <= k < memMap.Length ==> memMap[k] != 0
      ensures f != 0 ==> Paged(f) && old(memMap[f - LOW]) == 0 && (forall k :: f - LOW < k < memMap.Length ==>
          old(memMap[k]) != 0)
      ensures f != 0 ==> Snap() == HandIn(old(Snap()), f)
    {
      hide Counted, SlotsOk, Aligned, Owned;
      f := HIGH;
      while f > LOW
        invariant LOW <= f <= HIGH
        invariant forall k :: f - LOW <= k < memMap.Length ==> memMap[k] != 0
      {
        f := f - 1;
        if memMap[f - LOW] == 0 {
          HandInInv(Snap(), f);
          WriteCount(f, 1);
          mem[f] := Zeros();
          assert mem[..] == old(mem[..])[f := Zeros()];
          hands := hands + {f};
          return;
        }
      }
      f := 0;
    }

    /** `free_page`; not `ok` where the code panics. */
    method FreePage(f: nat) returns (ok: bool)
      requires Shape(Snap()) && f != HIGH
      modifies memMap
      ensures ok <==> f < LOW || (f < HIGH && old(memMap[f - LOW]) > 0)
      ensures Snap() == if ok then old(Snap()).(count := Less(old(memMap[..]), f)) else old(Snap())
    {
      if f < LOW {
        return true;
      }
      if f > HIGH {
        return false;                     // "trying to free nonexistent page"
      }
      ok := memMap[f - LOW] > 0;          // else "trying to free free page"
      if ok {
        WriteCount(f, memMap[f - LOW] - 1);
      }
    }

    // ---------- Freeing page tables ----------

    /** `free_page_tables` over `n` directory entries. The panics of `free_page` do not happen. */
    method FreePageTables(from: nat, n: nat)
      requires Inv(Snap()) && 16 <= from && from + n <= 1024
      modifies pgDir, memMap, mem
      ensures Freed(old(Snap()), Snap(), from, n) && WordsKept(old(Snap()), Snap(), Range(from, n))
    {
      ghost var s := Snap();
      hide Inv, View, Target, HasTable, Pte;
      NothingFreed(s, from);
      for k := 0 to n
        invariant Freed(s, Snap(), from, k) && WordsKept(s, Snap(), Range(from, n))
      {
        ghost var s1 := Snap();
        FreedShape(s, s1, from, k);
        HasTableHere(s1, from + k);
        if Present(pgDir[from + k]) {
          FreeTable(from + k);
          WordsKeptMore(s1, Snap(), {from + k}, Range(from, n));
          WordsKeptTrans(s, s1, Snap(), Range(from, n));
        }
        FreedNext(s, s1, Snap(), from, k);
      }
    }

    /** One page table: free every page it maps, then the table itself. */
    method FreeTable(d: nat)
      requires Inv(Snap()) && HasTable(Snap(), d)
      modifies pgDir, memMap, mem
      ensures Freed(old(Snap()), Snap(), d, 1) && WordsKept(old(Snap()), Snap(), {d})
    {
      ghost var s := Snap();
      TableFacts(s, d);
      var t := FrameOf(pgDir[d]);
      for i := 0 to 1024
        invariant Cleared(s, Snap(), d, i) && WordsKept(s, Snap(), {d})
      {
        ghost var s0 := Snap();
        FreeEntry(s, d, t, i);
        WordsKeptTrans(s, s0, Snap(), {d});
      }
      ghost var s1 := Snap();
      ClearedAll(s, s1, d);
      DropTableInv(s1, d);
      var ok := FreePage(t);
      assert ok;
      WriteDir(d, 0);
      assert Snap() == SetDir(s1, d, 0, s1.count[Table(s1, d) - LOW := 0]);
      TableDropped(s, s1, Snap(), d);
      SetDirKeeps(s1, d, 0, s1.count[Table(s1, d) - LOW := 0]);
      WordsKeptTrans(s, s1, Snap(), {d});
    }

    method FreeEntry(ghost s: State, d: nat, t: nat, i: nat)
      requires Cleared(s, Snap(), d, i) && i < 1024 && HasTable(s, d) && t == Table(s, d)
      modifies memMap, mem
      ensures Cleared(s, Snap(), d, i + 1) && WordsKept(old(Snap()), Snap(), {d})
    {
      ghost var s1 := Snap();
      TableFacts(s1, d);
      DropPteInv(s1, d, i);
      var w := mem[t][i];
      if Present(w) {
        var ok := FreePage(FrameOf(w));
        assert ok;
      }
      WriteWord(t, i, 0);
      assert Snap() == SetPte(s1, d, i, 0, if Present(w) then Less(s1.count, FrameOf(w)) else s1.count);
      ClearedNext(s, s1, Snap(), d, i);
      SetPteKeeps(s1, d, i, 0, if Present(w) then Less(s1.count, FrameOf(w)) else s1.count);
    }

    // ---------- Copying page tables ----------

    /** `copy_page_tables` for `from != 0`; the directory entries at `to` must be free. On failure the
        tables made so far stay behind for the caller to free. */
    method CopyPageTables(from: nat, to: nat, n: nat) returns (ok: bool)
      requires CopyReady(Snap(), from, to, n)
      modifies pgDir, memMap, mem, this`hands
      ensures ok ==> Copying(old(Snap()), Snap(), from, to, n, n, 0, false)
      ensures Inv(Snap()) && Elsewhere(old(Snap()), Snap(), to, n)
      ensures forall e: nat, j: nat :: !(to <= e < to + n) ==> View(Snap(), e, j) == View(old(Snap()), e, j)
      ensures !ok ==> forall k :: 0 <= k < memMap.Length ==> memMap[k] != 0
      ensures WordsKept(old(Snap()), Snap(), Range(from, n) + Range(to, n))
    {
      ghost var s := Snap();
      ghost var both := Range(from, n) + Range(to, n);
      hide Inv, View, Target, HasTable, Copying, Pte;
      CopyStart(s, from, to, n);
      for k := 0 to n
        invariant Copying(s, Snap(), from, to, n, k, 0, false) && WordsKept(s, Snap(), both)
      {
        ghost var s1 := Snap();
        CopyShape(s, s1, from, to, n, k);
        if Present(pgDir[from + k]) {
          ok := CopyTable(s, from, to, n, k);
          WordsKeptMore(s1, Snap(), {from + k, to + k}, both);
          WordsKeptTrans(s, s1, Snap(), both);
          if !ok {
            CopyFrame(s, Snap(), from, to, n, k);
            return;
          }
        } else {
          CopySkip(s, s1, from, to, n, k);
        }
      }
      ok := true;
      CopyFrame(s, Snap(), from, to, n, n);
    }

    method CopyTable(ghost s: State, from: nat, to: nat, n: nat, k: nat) returns (ok: bool)
      requires CopyReady(s, from, to, n) && Copying(s, Snap(), from, to, n, k, 0, false) && k < n
      requires HasTable(Snap(), from + k)
      modifies pgDir, memMap, mem, this`hands
      ensures Copying(s, Snap(), from, to, n, if ok then k + 1 else k, 0, false)
      ensures !ok ==> forall j :: 0 <= j < memMap.Length ==> memMap[j] != 0
      ensures WordsKept(old(Snap()), Snap(), {from + k, to + k})
    {
      ghost var s1 := Snap();
      ghost var both := {from + k, to + k};
      hide View, Target;
      var t := GetFreePage();
      if t == 0 {
        return false;                     // no page left
      }
      CopyOpen(s, s1, from, to, n, k, t);
      PlaceTableKeeps(s1, to + k, t);
      WriteDir(to + k, Mapped(t));
      hands := hands - {t};
      var f := FrameOf(pgDir[from + k]);
      assert Snap() == PlaceTable(HandIn(s1, t), to + k, t);
      WordsKeptMore(s1, Snap(), {to + k}, both);
      for i := 0 to 1024
        invariant WordsKept(s1, Snap(), both)
        invariant Copying(s, Snap(), from, to, n, k, i, true)
        invariant HasTable(Snap(), from + k) && Table(Snap(), from + k) == f
        invariant HasTable(Snap(), to + k) && Table(Snap(), to + k) == t
      {
        ghost var s2 := Snap();
        CopyEntry(s, from, to, n, k, i, f, t);
        WordsKeptTrans(s1, s2, Snap(), both);
      }
      CopyDone(s, Snap(), from, to, n, k);
      ok := true;
    }

    method CopyEntry(ghost s: State, from: nat, to: nat, n: nat, k: nat, i: nat, f: nat, t: nat)
      requires CopyReady(s, from, to, n) && Copying(s, Snap(), from, to, n, k, i, true) && k < n && i < 1024
      requires HasTable(Snap(), from + k) && Table(Snap(), from + k) == f && HasTable(Snap(), to + k) &&
          Table(Snap(), to + k) == t
      modifies memMap, mem
      ensures Copying(s, Snap(), from, to, n, k, i + 1, true) && pgDir[..] == old(pgDir[..])
      ensures WordsKept(old(Snap()), Snap(), {from + k, to + k})
    {
      ghost var s1 := Snap();
      TableFacts(s1, from + k);
      TableFacts(s1, to + k);
      var w := mem[f][i];
      assert w == Pte(s1, from + k, i);
      hide Copying, CopyReady, Share;
      CopyFrames(s, s1, from, to, n, k, i);
      if Present(w) {
        ShareEntry(from + k, to + k, i, f, t);
        CopyShared(s, s1, from, to, n, k, i);
        ShareKeeps(s1, from + k, to + k, i);
      } else {
        CopyAbsent(s, s1, from, to, n, k, i);
      }
    }

    /** One page is shared: its word, read only, goes to both page tables. */
    method ShareEntry(d: nat, e: nat, i: nat, f: nat, t: nat)
      requires Inv(Snap()) && HasTable(Snap(), d) && Table(Snap(), d) == f && f < HIGH && i < 1024 && d != e
      requires HasTable(Snap(), e) && Table(Snap(), e) == t && t < HIGH && Present(Pte(Snap(), d, i))
      modifies memMap, mem
      ensures Snap() == Share(old(Snap()), d, e, i) && pgDir[..] == old(pgDir[..])
    {
      ghost var s := Snap();
      TableFacts(s, d);
      PresentFrame(s, d, i);
      assert Target(s, Dir(e)) != Target(s, Dir(d));
      hide Inv;
      ShapeOf(s);
      var w := mem[f][i];
      AboveLow(ReadOnly(w));
      w := ReadOnly(w);
      WriteWord(t, i, w);
      if w > LOW * 4096 {
        WriteWord(f, i, w);
        WriteCount(FrameOf(w), memMap[FrameOf(w) - LOW] + 1);
      }
    }

    // ---------- Page faults ----------

    /** `un_wp_page`: the page becomes writable again if nobody else has it, or a private copy. */
    method UnWpPage(d: nat, i: nat) returns (alive: bool)
      requires Inv(Snap()) && HasTable(Snap(), d) && i < 1024 && Present(Pte(Snap(), d, i))
      modifies memMap, mem, this`hands
      ensures if alive then Unshared(old(Snap()), Snap(), d, i)
              else Snap() == old(Snap()) && forall k :: 0 <= k < memMap.Length ==> memMap[k] != 0
    {
      ghost var s := Snap();
      TableFacts(s, d);
      PresentFrame(s, d, i);
      var t := FrameOf(pgDir[d]);
      var f := FrameOf(mem[t][i]);
      if f >= LOW && memMap[f - LOW] == 1 {
        UnprotectDone(s, d, i);
        WriteWord(t, i, ReadWrite(mem[t][i]));
        assert Snap() == SetPte(s, d, i, ReadWrite(Pte(s, d, i)), s.count);
        return true;
      }
      var g := GetFreePage();
      if g == 0 {
        return false;
      }
      CopyPageDone(s, d, i, g);
      UnshareInto(d, i, t, f, g);
      alive := true;
    }

    method UnshareInto(d: nat, i: nat, t: nat, f: nat, g: nat)
      requires Shape(Snap()) && HasTable(Snap(), d) && Table(Snap(), d) == t && t < HIGH && i < 1024
      requires f == FrameOf(Pte(Snap(), d, i)) && f < HIGH && g < HIGH && g != f && t != g && t != f
      requires Paged(f) ==> memMap[f - LOW] > 0
      modifies memMap, mem, this`hands
      ensures Snap() == CopyPage(old(Snap()), d, i, g)
    {
      if f >= LOW {
        WriteCount(f, memMap[f - LOW] - 1);
      }
      WriteWord(t, i, Mapped(g));
      ghost var m := mem[..];
      mem[g] := mem[f];
      assert mem[..] == m[g := old(mem[f])];
      hands := hands - {g};
    }

    /** `put_page`: map the page `f` in hand, making a page table first if there is none. */
    method PutPage(f: nat, d: nat, i: nat) returns (ok: bool)
      requires Inv(Snap()) && f in hands && Paged(f) && 16 <= d < 1024 && i < 1024 && !Present(Pte(Snap(), d, i))
      requires Owner(d) in limits && Offset(d) < limits[Owner(d)]
      modifies pgDir, memMap, mem, this`hands
      ensures ok ==> Placed(old(Snap()), Snap(), d, i, old(mem[f])) && hands == old(hands) - {f}
      ensures !ok ==> Snap() == old(Snap()) && !HasTable(Snap(), d) && forall k :: 0 <= k < memMap.Length ==>
          memMap[k] != 0
      ensures ok <==> HasTable(old(Snap()), d) || |FreePages(old(Snap()).count)| > 0
      ensures ok ==> |FreePages(Snap().count)| == |FreePages(old(Snap()).count)| - if HasTable(old(Snap()), d) then 0
          else 1
      ensures ok ==> forall e {:trigger HasTable(Snap(), e)} :: HasTable(Snap(), e) <==>
          HasTable(old(Snap()), e) || e == d
    {
      ghost var s := Snap();
      if !Present(pgDir[d]) {
        var t := GetFreePage();
        if t == 0 {
          assert FreePages(s.count) == {};
          return false;
        }
        FreeTaken(s.count, t - LOW);
        TableDone(s, d, t);
        WriteDir(d, Mapped(t));
        hands := hands - {t};
        assert Snap() == PlaceTable(HandIn(s, t), d, t);
      }
      ghost var s1 := Snap();
      TableFacts(s1, d);
      PlaceDone(s1, d, i, f);
      WriteWord(FrameOf(pgDir[d]), i, Mapped(f));
      hands := hands - {f};
      assert Snap() == PlacePage(s1, d, i, f);
      ok := true;
    }

    /** `do_no_page`: a fresh page of zeros.  If only one page is free and a page table is needed too,
        that page stays marked as used although nothing refers to it. */
    method DoNoPage(d: nat, i: nat) returns (alive: bool)
      requires Inv(Snap()) && 16 <= d < 1024 && i < 1024 && !Present(Pte(Snap(), d, i))
      requires Owner(d) in limits && Offset(d) < limits[Owner(d)]
      modifies pgDir, memMap, mem, this`hands
      ensures alive ==> Placed(old(Snap()), Snap(), d, i, Zeros()) && hands == old(hands)
      ensures !alive ==> Inv(Snap()) && SameTasks(old(Snap()).(hands := hands), Snap()) && Snap().dir == old(Snap()).dir
      ensures !alive ==> forall e: nat, j: nat :: View(Snap(), e, j) == View(old(Snap()), e, j)
      ensures !alive ==> forall k :: 0 <= k < memMap.Length ==> memMap[k] != 0
      ensures !alive ==> WordsKept(old(Snap()), Snap(), {})
      ensures alive <==> |FreePages(old(Snap()).count)| >= Needed(old(Snap()), d)
      ensures alive ==> |FreePages(Snap().count)| == |FreePages(old(Snap()).count)| - Needed(old(Snap()), d)
      ensures alive ==> forall e {:trigger HasTable(Snap(), e)} :: HasTable(Snap(), e) <==>
          HasTable(old(Snap()), e) || e == d
      ensures hands != old(hands) <==> |FreePages(old(Snap()).count)| == 1 && !HasTable(old(Snap()), d)
      ensures hands != old(hands) ==> exists f :: Paged(f) && f !in old(hands) && hands == old(hands) + {f}
    {
      ghost var s := Snap();
      var f := GetFreePage();
      if f == 0 {
        assert FreePages(s.count) == {};
        return false;
      }
      FreeTaken(s.count, f - LOW);
      NoRefs(s, f);
      HandInTargets(s, f);
      HandInInv(s, f);
      HandInKeeps(s, f);
      hide Inv;
      alive := PutPage(f, d, i);
      assert hands - {f} == s.hands - {f} == s.hands;
    }

    /** A process touches the first `n` pages behind a directory entry. */
    method Touch(d: nat, n: nat)
      requires Inv(Snap()) && 16 <= d < 1024 && Owner(d) in limits && Offset(d) < limits[Owner(d)]
      requires !HasTable(Snap(), d) && 0 < n <= 1024 && n + 1 <= |FreePages(Snap().count)|
      modifies pgDir, memMap, mem, this`hands
      ensures Inv(Snap()) && hands == old(hands)
      ensures |FreePages(Snap().count)| == |FreePages(old(Snap()).count)| - (n + 1)
      ensures forall e {:trigger HasTable(Snap(), e)} :: HasTable(Snap(), e) <==> HasTable(old(Snap()), e) || e == d
    {
      hide Inv;
      for i := 0 to n
        invariant Inv(Snap()) && hands == old(hands)
        invariant |FreePages(Snap().count)| == |FreePages(old(Snap()).count)| - if i > 0 then i + 1 else 0
        invariant forall e {:trigger HasTable(Snap(), e)} :: HasTable(Snap(), e) <==>
            HasTable(old(Snap()), e) || (e == d && i > 0)
        invariant forall j {:trigger Pte(Snap(), d, j)} :: i <= j ==> !Present(Pte(Snap(), d, j))
      {
        var alive := DoNoPage(d, i);
      }
    }

    /** `write_verify` of linear page number `b`: a page that is present and read only is unshared. */
    method WriteVerify(b: nat) returns (alive: bool)
      requires Inv(Snap())
      modifies memMap, mem, this`hands
      ensures Inv(Snap()) && SameTasks(old(Snap()), Snap()) && Snap().dir == old(Snap()).dir
      ensures forall e: nat, j: nat :: View(Snap(), e, j) == View(old(Snap()), e, j)
      ensures alive ==> Verified(Snap(), b)
      ensures VerifiedKept(old(Snap()), Snap(), {})
      ensures !alive ==> forall k :: 0 <= k < memMap.Length ==> memMap[k] != 0
    {
      ghost var s := Snap();
      var d, i := b / 1024 % 1024, b % 1024;
      if d < 16 || !Present(pgDir[d]) {     // the kernel's own tables have no read-only pages
        return true;
      }
      TableFacts(s, d);
      var w := mem[FrameOf(pgDir[d])][i];
      assert w == Pte(s, d, i);
      if !Present(w) || Writable(w) {
        return true;
      }
      alive := UnWpPage(d, i);
      if alive {
        UnsharedVerifies(s, Snap(), b);
      }
    }

    /** `verify_area` for process `nr`: afterwards the kernel may write to these bytes, which it does
        without regard to write protection. */
    method VerifyArea(nr: nat, addr: nat, size: int) returns (alive: bool)
      requires Inv(Snap())
      modifies memMap, mem, this`hands
      ensures Inv(Snap()) && SameTasks(old(Snap()), Snap()) && Snap().dir == old(Snap()).dir
      ensures forall e: nat, j: nat :: View(Snap(), e, j) == View(old(Snap()), e, j)
      ensures alive ==> forall b {:trigger Verified(Snap(), b)} ::
                addr / 4096 <= b - nr * 0x4000 && (b - nr * 0x4000) * 4096 < addr + size ==> Verified(Snap(), b)
      ensures VerifiedKept(old(Snap()), Snap(), {})
      ensures !alive ==> forall k :: 0 <= k < memMap.Length ==> memMap[k] != 0
    {
      ghost var s := Snap();
      hide Inv, View, Verified;
      var left := size + addr % 4096;
      var first := nr * 0x4000 + addr / 4096;
      var b := first;
      while left > 0
        invariant b >= first && left == size + addr % 4096 - (b - first) * 4096
        invariant Inv(Snap()) && SameTasks(old(Snap()), Snap()) && Snap().dir == old(Snap()).dir
        invariant forall e: nat, j: nat :: View(Snap(), e, j) == View(old(Snap()), e, j)
        invariant forall c {:trigger Verified(Snap(), c)} :: first <= c < b ==> Verified(Snap(), c)
        invariant VerifiedKept(s, Snap(), {})
        decreases left
      {
        left := left - 4096;
        ghost var s1 := Snap();
        alive := WriteVerify(b);
        VerifiedKeptTrans(s, s1, Snap(), {});
        if !alive {
          return;
        }
        b := b + 1;
      }
      alive := true;
    }

    // ---------- Exit, release ----------

    /** `do_exit`: the code and the data segment share their pages, so the second call finds nothing. */
    method DoExit(nr: nat)
      requires Inv(Snap()) && nr in limits
      modifies pgDir, memMap, mem, this`limits
      ensures Inv(Snap()) && limits == old(limits) - {nr} && OthersSee(old(Snap()), Snap(), nr)
      ensures forall d :: HasTable(Snap(), d) ==> Owner(d) != nr
      ensures WordsKept(old(Snap()), Snap(), DirsOf(nr))
    {
      ghost var s := Snap();
      hide Counted, SlotsOk, Aligned;
      FreePageTables(16 * nr, limits[nr]);
      ghost var s1 := Snap();
      FreePageTables(16 * nr, limits[nr]);
      ghost var s2 := Snap();
      WordsKeptTrans(s, s1, s2, Range(16 * nr, limits[nr]));
      WordsKeptMore(s, s2, Range(16 * nr, limits[nr]), DirsOf(nr));
      FreedProcess(s1, s2, nr, limits[nr]);
      limits := limits - {nr};
      LimitsInv(s2, nr, limits);
      assert Snap() == s2.(limits := limits);
      LimitsKeep(s2, limits);
      WordsKeptMore(s2, Snap(), {}, DirsOf(nr));
      WordsKeptTrans(s, s2, Snap(), DirsOf(nr));
    }

    /** `release`: the parent has waited for process `nr`, which has exited. */
    method ReleaseTask(nr: nat)
      requires Inv(Snap()) && nr in tasks && nr !in limits
      modifies memMap, this`tasks
      ensures Inv(Snap()) && tasks == old(tasks) - {nr} && limits == old(limits)
      ensures forall e: nat, j: nat :: View(Snap(), e, j) == View(old(Snap()), e, j)
      ensures WordsKept(old(Snap()), Snap(), {})
    {
      ghost var s := Snap();
      DropTaskInv(s, nr);
      var ok := FreePage(tasks[nr]);
      assert ok;
      tasks := tasks - {nr};
      assert Snap() == DropTask(s, nr);
    }

    // ---------- Stores ----------

    /** The processor finds page `i` of directory entry `d`: its word, or 0. */
    function Walk(d: nat, i: nat): (w: nat)
      requires Shape(Snap())
      reads this, pgDir, memMap, mem
      ensures w == Pte(Snap(), d, i)
    {
      if 16 <= d < 1024 && Present(pgDir[d]) && FrameOf(pgDir[d]) < HIGH &&
          i < 1024 then mem[FrameOf(pgDir[d])][i] else 0
    }

    /** A write by the process itself faults until the page is there and can be written. */
    method FaultForWrite(d: nat, i: nat) returns (alive: bool)
      requires Inv(Snap()) && 16 <= d < 1024 && i < 1024 && Owner(d) in limits && Offset(d) < limits[Owner(d)]
      modifies pgDir, memMap, mem, this`hands
      ensures old(hands) <= hands
      ensures if alive then Ready(old(Snap()), Snap(), d, i)
              else Unchanged(old(Snap()), Snap()) && forall k :: 0 <= k < memMap.Length ==> memMap[k] != 0
    {
      ghost var s := Snap();
      ShapeOf(s);
      var w := Walk(d, i);
      if !Present(w) {
        alive := FaultAbsent(d, i);
      } else if !Writable(w) {
        PresentTable(s, d, i);
        alive := UnWpPage(d, i);             // `do_wp_page'
        if alive {
          UnsharedReady(s, Snap(), d, i);
        }
      } else {
        WritableReady(s, d, i);
        alive := true;
      }
    }

    method FaultAbsent(d: nat, i: nat) returns (alive: bool)
      requires Inv(Snap()) && 16 <= d < 1024 && i < 1024 && !Present(Pte(Snap(), d, i))
      requires Owner(d) in limits && Offset(d) < limits[Owner(d)]
      modifies pgDir, memMap, mem, this`hands
      ensures old(hands) <= hands
      ensures if alive then Ready(old(Snap()), Snap(), d, i)
              else Unchanged(old(Snap()), Snap()) && forall k :: 0 <= k < memMap.Length ==> memMap[k] != 0
    {
      ghost var s := Snap();
      AbsentView(s, d, i);
      alive := DoNoPage(d, i);
      if alive {
        PlacedReady(s, Snap(), d, i);
      } else {
        WordsVerified(s, Snap(), {});
      }
    }

    /** The kernel ignores write protection, but not absence. */
    method FaultInKernel(d: nat, i: nat) returns (alive: bool)
      requires Inv(Snap()) && 16 <= d < 1024 && i < 1024 && Owner(d) in limits && Offset(d) < limits[Owner(d)]
      requires Present(Pte(Snap(), d, i)) ==> Writable(Pte(Snap(), d, i))
      modifies pgDir, memMap, mem, this`hands
      ensures old(hands) <= hands
      ensures if alive then Ready(old(Snap()), Snap(), d, i)
              else Unchanged(old(Snap()), Snap()) && forall k :: 0 <= k < memMap.Length ==> memMap[k] != 0
    {
      ShapeOf(Snap());
      if Present(Walk(d, i)) {
        WritableReady(Snap(), d, i);
        alive := true;
      } else {
        alive := FaultAbsent(d, i);
      }
    }

    method StoreWord(d: nat, i: nat, off: nat, w: nat)
      requires Inv(Snap()) && Present(Pte(Snap(), d, i)) && Writable(Pte(Snap(), d, i)) && off < 1024
      modifies mem
      ensures |Contents(View(old(Snap()), d, i))| == 1024
      ensures Stored(old(Snap()), Snap(), d, i, PutWord(Contents(View(old(Snap()), d, i)), off, w))
    {
      ghost var s := Snap();
      ShapeOf(s);
      StoreStored(s, d, i, off, w);
      var f := FrameOf(Walk(d, i));
      WriteWord(f, off, w);
      assert Snap() == SetMem(s, f, PutWord(s.mem[f], off, w));
    }

    /** A store instruction of process `nr`. */
    method UserStore(ghost m: Spaces, nr: nat, k: nat, i: nat, off: nat, w: nat) returns (alive: bool)
      requires Inv(Snap()) && Shows(Snap(), m) && nr in limits && k < limits[nr] && i < 1024 && off < 1024
      modifies pgDir, memMap, mem, this`hands, this`limits
      ensures old(hands) <= hands
      ensures Inv(Snap()) && tasks == old(tasks) && limits == (if alive then old(limits) else old(limits) - {nr})
      ensures nr in m && Shows(Snap(), if alive then Wrote(m, nr, k, i, off, w) else m - {nr})
      ensures alive ==> OneWord(old(Snap()), Snap(), nr, k, i, off, w)
      ensures VerifiedKept(old(Snap()), Snap(), if alive then {} else DirsOf(nr))
    {
      ghost var s := Snap();
      InRangeOf(s, nr, k);
      hide Inv, Shows, Wrote, VerifiedKept, OneWord;
      alive := FaultForWrite(16 * nr + k, i);
      alive := Complete(m, s, nr, k, i, off, w, alive);
      if alive {
        WroteOneWord(s, Snap(), m, nr, k, i, off, w);
      }
    }

    /** A load instruction of process `nr` yields what its address space holds; an absent page reads as zeros. */
    method UserLoad(ghost m: Spaces, nr: nat, k: nat, i: nat, off: nat) returns (alive: bool, w: nat)
      requires Inv(Snap()) && Shows(Snap(), m) && nr in limits && k < limits[nr] && i < 1024 && off < 1024
      modifies pgDir, memMap, mem, this`hands, this`limits
      ensures old(hands) <= hands
      ensures Inv(Snap()) && tasks == old(tasks) && limits == (if alive then old(limits) else old(limits) - {nr})
      ensures nr in m && Shows(Snap(), if alive then Touched(m, nr, k, i) else m - {nr})
      ensures alive ==> w == WordSeen(old(Snap()), nr, k, i, off)
      ensures VerifiedKept(old(Snap()), Snap(), if alive then {} else DirsOf(nr))
    {
      ghost var s := Snap();
      InRangeOf(s, nr, k);
      PageBefore(s, m, nr, k, i);
      PageSize(s, 16 * nr + k, i);
      SeenWord(s, m, nr, k, i, off);
      assert nr in m;
      hide Inv, View, VerifiedKept, WordSeen;
      w := 0;
      alive := FaultForRead(16 * nr + k, i);
      ghost var s1 := Snap();
      if !alive {
        ShowsSame(s, s1, m);
        Kill(m, nr);
        VerifiedKeptTrans(s, s1, Snap(), DirsOf(nr));
      } else {
        w := Fetch(16 * nr + k, i, off);
        ShowsTouch(s, Snap(), m, nr, k, i);
      }
    }

    /** A read by the process itself, or by the kernel, faults only if the page is not there. */
    method FaultForRead(d: nat, i: nat) returns (alive: bool)
      requires Inv(Snap()) && 16 <= d < 1024 && i < 1024 && Owner(d) in limits && Offset(d) < limits[Owner(d)]
      modifies pgDir, memMap, mem, this`hands
      ensures old(hands) <= hands
      ensures if alive then Readable(old(Snap()), Snap(), d, i) else Unchanged(old(Snap()), Snap())
    {
      ShapeOf(Snap());
      if Present(Walk(d, i)) {
        ViewThere(Snap(), d, i);
        alive := true;
      } else {
        alive := FaultAbsent(d, i);
      }
    }

    method Fetch(d: nat, i: nat, off: nat) returns (w: nat)
      requires Inv(Snap()) && View(Snap(), d, i).Some? && off < 1024
      ensures |View(Snap(), d, i).value| == 1024 && w == View(Snap(), d, i).value[off]
    {
      ShapeOf(Snap());
      w := mem[FrameOf(Walk(d, i))][off];
    }

    /** A store of the kernel on behalf of process `nr`, to a page it may write. */
    method KernelStore(ghost m: Spaces, nr: nat, k: nat, i: nat, off: nat, w: nat) returns (alive: bool)
      requires Inv(Snap()) && Shows(Snap(), m) && nr in limits && k < limits[nr] && i < 1024 && off < 1024
      requires Verified(Snap(), (16 * nr + k) * 1024 + i)
      modifies pgDir, memMap, mem, this`hands, this`limits
      ensures old(hands) <= hands
      ensures Inv(Snap()) && tasks == old(tasks) && limits == (if alive then old(limits) else old(limits) - {nr})
      ensures nr in m && Shows(Snap(), if alive then Wrote(m, nr, k, i, off, w) else m - {nr})
      ensures alive ==> OneWord(old(Snap()), Snap(), nr, k, i, off, w)
      ensures VerifiedKept(old(Snap()), Snap(), if alive then {} else DirsOf(nr))
    {
      ghost var s := Snap();
      InRangeOf(s, nr, k);
      VerifiedPte(s, nr, k, i);
      hide Inv, Shows, Wrote, Verified, VerifiedKept, OneWord;
      alive := FaultInKernel(16 * nr + k, i);
      alive := Complete(m, s, nr, k, i, off, w, alive);
      if alive {
        WroteOneWord(s, Snap(), m, nr, k, i, off, w);
      }
    }

    /** After the fault was served, the store; otherwise the process dies. */
    method Complete(ghost m: Spaces, ghost s: State, nr: nat, k: nat, i: nat, off: nat, w: nat, ready: bool)
        returns (alive: bool)
      requires Shows(s, m) && nr in s.limits && k < 16 && off < 1024 && tasks == s.tasks && limits == s.limits
      requires if ready then Ready(s, Snap(), 16 * nr + k, i) else Unchanged(s, Snap())
      modifies pgDir, memMap, mem, this`limits
      ensures alive == ready && Inv(Snap()) && tasks == s.tasks &&
          limits == (if alive then s.limits else s.limits - {nr})
      ensures nr in m && Shows(Snap(), if alive then Wrote(m, nr, k, i, off, w) else m - {nr})
      ensures VerifiedKept(s, Snap(), if alive then {} else DirsOf(nr))
    {
      ghost var s1 := Snap();
      assert nr in m;
      alive := ready;
      hide VerifiedKept;
      if !ready {
        hide Inv, View;
        ShowsSame(s, s1, m);
        Kill(m, nr);
        VerifiedKeptTrans(s, s1, Snap(), DirsOf(nr));
      } else {
        PageBefore(s, m, nr, k, i);
        hide Inv, View, Pte, Present, Writable, Verified;
        StoreWord(16 * nr + k, i, off, w);
        assert See(Snap(), nr, k, i) == View(Snap(), 16 * nr + k, i);
        ShowsWrite(s, Snap(), m, nr, k, i, off, w);
        VerifiedKeptTrans(s, s1, Snap(), {});
      }
    }

    method Kill(ghost m: Spaces, nr: nat)
      requires Inv(Snap()) && Shows(Snap(), m) && nr in limits && nr in m
      modifies pgDir, memMap, mem, this`limits
      ensures Inv(Snap()) && Shows(Snap(), m - {nr}) && limits == old(limits) - {nr}
      ensures VerifiedKept(old(Snap()), Snap(), DirsOf(nr))
    {
      hide Inv, Verified, Pte;
      ghost var s := Snap();
      DoExit(nr);
      ShowsExit(s, Snap(), m, nr);
      WordsVerified(s, Snap(), DirsOf(nr));
    }

    // ---------- Fork ----------

    /** `copy_mem`: set up the segments of process `to` and share the pages of `from`. If memory runs
        out everything is as before, every count included. */
    method CopyMem(from: nat, to: nat) returns (ok: bool)
      requires Inv(Snap()) && from in limits && to !in limits && 0 < to < NR_TASKS
      modifies pgDir, memMap, mem, this`hands, this`limits
      ensures Inv(Snap()) && tasks == old(tasks) && hands == old(hands)
      ensures ok ==> limits == old(limits)[to := old(limits[from])] && OthersSee(old(Snap()), Snap(), to)
      ensures ok ==> forall k: nat, i: nat :: k < 16 ==> See(Snap(), to, k, i) == See(old(Snap()), from, k, i)
      ensures !ok ==> limits == old(limits) && Snap().count == old(Snap()).count
      ensures !ok ==> forall x :: Target(Snap(), x) == Target(old(Snap()), x)
      ensures !ok ==> forall e: nat, j: nat :: View(Snap(), e, j) == View(old(Snap()), e, j)
      ensures WordsKept(old(Snap()), Snap(), DirsOf(from) + DirsOf(to))
    {
      ghost var s := Snap();
      ghost var both := DirsOf(from) + DirsOf(to);
      NoTables(s, to);
      LimitsInv(s, to, s.limits[to := s.limits[from]]);
      limits := limits[to := limits[from]];
      ghost var s1 := Snap();
      assert s1 == s.(limits := limits);
      var n := limits[to];
      CopyIsReady(s, s1, from, to);
      hide Inv, View, Target, Copying, Elsewhere, Freed, CopyReady, WordsKept;
      LimitsKeep(s, s1.limits);
      WordsKeptMore(s, s1, {}, both);
      ok := CopyPageTables(16 * from, 16 * to, n);
      ghost var s2 := Snap();
      WordsKeptMore(s1, s2, Range(16 * from, n) + Range(16 * to, n), both);
      WordsKeptTrans(s, s1, s2, both);
      if ok {
        ForkSees(s, s1, s2, from, to, n);
      } else {
        ElsewhereTasks(s1, s2, 16 * to, n);
        FreePageTables(16 * to, n);
        ghost var s3 := Snap();
        WordsKeptMore(s2, s3, Range(16 * to, n), both);
        WordsKeptTrans(s, s2, s3, both);
        LimitsKeep(s3, s.limits);
        WordsKeptMore(s3, s3.(limits := s.limits), {}, both);
        WordsKeptTrans(s, s3, s3.(limits := s.limits), both);
        ForkUndone(s, s1, s2, s3, to, n);
        limits := limits - {to};
        assert limits == s.limits;
        assert Snap() == s3.(limits := s.limits);
      }
    }

    /** The memory half of `copy_process`: a page for the task structure, then the address space. */
    method CopyProcess(from: nat, to: nat) returns (ok: bool)
      requires Inv(Snap()) && from in limits && to !in limits && to !in tasks && 0 < to < NR_TASKS
      modifies pgDir, memMap, mem, this`hands, this`limits, this`tasks
      ensures Inv(Snap()) && hands == old(hands)
      ensures ok ==> limits == old(limits)[to := old(limits[from])] && OthersSee(old(Snap()), Snap(), to)
      ensures ok ==> tasks.Keys == old(tasks).Keys + {to}
      ensures ok ==> forall k: nat, i: nat :: k < 16 ==> See(Snap(), to, k, i) == See(old(Snap()), from, k, i)
      ensures !ok ==> limits == old(limits) && tasks == old(tasks) && Snap().count == old(Snap()).count
      ensures !ok ==> forall e: nat, j: nat :: View(Snap(), e, j) == View(old(Snap()), e, j)
      ensures WordsKept(old(Snap()), Snap(), DirsOf(from) + DirsOf(to))
    {
      ghost var s := Snap();
      ghost var both := DirsOf(from) + DirsOf(to);
      hide Inv, View, Target, Counted, SlotsOk, Aligned, Owned;
      var p := GetFreePage();
      if p == 0 {
        return false;
      }
      ShapeOf(s);
      HandInInv(s, p);
      ghost var s1 := Snap();
      ok := CopyMem(from, to);
      ghost var s2 := Snap();
      ShapeOf(s2);
      TaskWordsKept(s, p, s2, to, both);
      if !ok {
        HandOutInv(s2, p);
        HandsBack(s, p);
        ShapeOf(s2);
        var freed := FreePage(p);
        assert freed;
        hands := hands - {p};
        assert Snap() == HandOut(s2, p);
        HandOutView(s2, p);
        return;
      }
      AddTaskInv(s2, to, p);
      tasks := tasks[to := p];
      hands := hands - {p};
      assert Snap() == AddTask(s2, to, p);
      SeeAcross(s, s1, s2, Snap(), from, to);
    }

    // ---------- Runs ----------

    /** Process 1 before it has touched any page. */
    constructor ()
      ensures Inv(Snap()) && Shows(Snap(), map[1 := map[]]) && fresh(pgDir) && fresh(memMap) && fresh(mem)
      ensures tasks == map[] && limits == map[1 := 16] && hands == {} && areas == map[]
      ensures (forall d :: !HasTable(Snap(), d)) && |FreePages(Snap().count)| == HIGH - LOW
    {
      pgDir := new nat[1024](_ => 0);
      memMap := new nat[HIGH - LOW](_ => 0);
      mem := new Page[HIGH](_ => Zeros());
      tasks, limits, hands, areas := map[], map[1 := 16], {}, map[];
      new;
      InitInv(Snap());
      AllPagesFree(Snap().count);
    }

    /** Which processes there are, and what those in a system call have verified. */
    function Procs(): Processes
      reads this
    {
      Processes(limits, tasks.Keys, areas)
    }

    /** One event.  A process in a system call that has verified an area makes no stores of its own, and does not fork
        or exit, before it has returned. */
    method Step(ghost m: Spaces, e: Event) returns (out: Outcome)
      requires Inv(Snap()) && Shows(Snap(), m) && AreasOk(Snap(), areas)
      modifies pgDir, memMap, mem, this`hands, this`limits, this`tasks, this`areas
      ensures old(hands) <= hands && Inv(Snap()) && AreasOk(Snap(), areas)
      ensures Shows(Snap(), IdealStep(m, e, out)) && OthersSame(old(limits), old(areas), limits, areas, Changes(e))
      ensures Taken(old(Procs()), e, out, Procs()) && WordsAfter(old(Snap()), e, out, Snap())
    {
      hide Inv, Shows, IdealStep, AreasOk, OthersSame, Taken, WordsAfter, WordSeen;
      match e {
        case Fork(from, to) => out := StepFork(m, from, to);
        case Load(nr, k, i, off) => out := StepLoad(m, nr, k, i, off);
        case Store(nr, k, i, off, w) => out := StepStore(m, nr, k, i, off, w);
        case Verify(nr, addr, size) => out := StepVerify(m, nr, addr, size);
        case KernelPut(nr, addr, w) => out := StepPut(m, nr, addr, w);
        case Leave(nr) => out := StepLeave(m, nr);
        case Exit(nr) => out := StepExit(m, nr);
        case Release(nr) => out := StepRelease(m, nr);
      }
      TakenWords(old(Snap()), m, old(Procs()), e, out, Snap(), Procs());
      TakenOthers(old(Procs()), e, out, Procs());
    }

    method StepFork(ghost m: Spaces, from: nat, to: nat) returns (out: Outcome)
      requires Inv(Snap()) && Shows(Snap(), m) && AreasOk(Snap(), areas)
      modifies pgDir, memMap, mem, this`hands, this`limits, this`tasks
      ensures old(hands) <= hands && Inv(Snap()) && AreasOk(Snap(), areas)
      ensures Shows(Snap(), IdealStep(m, Fork(from, to), out))
      ensures Taken(old(Procs()), Fork(from, to), out, Procs())
    {
      ghost var s := Snap();
      assert m.Keys == limits.Keys;
      hide Inv, View, Shows, See, AreasOk, VerifiedKept, WordsKept;
      AreasInside(s, areas);
      if from !in limits || from in areas || to in limits || to in tasks || !(0 < to < NR_TASKS) {
        return Refused;
      }
      var ok := CopyProcess(from, to);
      WordsVerified(s, Snap(), DirsOf(from) + DirsOf(to));
      AreasFork(s, Snap(), areas, from, to);
      if ok {
        ShowsFork(s, Snap(), m, from, to);
        out := Done;
      } else {
        ShowsSame(s, Snap(), m);
        out := NoMemory;
      }
    }

    method StepLoad(ghost m: Spaces, nr: nat, k: nat, i: nat, off: nat) returns (out: Outcome)
      requires Inv(Snap()) && Shows(Snap(), m) && AreasOk(Snap(), areas)
      modifies pgDir, memMap, mem, this`hands, this`limits, this`areas
      ensures old(hands) <= hands && Inv(Snap()) && AreasOk(Snap(), areas)
      ensures Shows(Snap(), IdealStep(m, Load(nr, k, i, off), out))
      ensures out.Word? ==> out.w == WordSeen(old(Snap()), nr, k, i, off)
      ensures Taken(old(Procs()), Load(nr, k, i, off), out, Procs())
    {
      ghost var s := Snap();
      hide Inv, Shows, AreasOk, VerifiedKept;
      if nr !in limits || k >= limits[nr] || i >= 1024 || off >= 1024 {
        return Refused;
      }
      var alive, w := UserLoad(m, nr, k, i, off);
      AreasGone(s, Snap(), areas, nr, alive);
      if !alive {
        areas := areas - {nr};
      }
      out := if alive then Word(w) else NoMemory;
    }

    method StepStore(ghost m: Spaces, nr: nat, k: nat, i: nat, off: nat, w: nat) returns (out: Outcome)
      requires Inv(Snap()) && Shows(Snap(), m) && AreasOk(Snap(), areas)
      modifies pgDir, memMap, mem, this`hands, this`limits
      ensures old(hands) <= hands && Inv(Snap()) && AreasOk(Snap(), areas)
      ensures Shows(Snap(), IdealStep(m, Store(nr, k, i, off, w), out))
      ensures Taken(old(Procs()), Store(nr, k, i, off, w), out, Procs())
    {
      ghost var s := Snap();
      hide Inv, Shows, AreasOk, VerifiedKept;
      if nr !in limits || nr in areas || k >= limits[nr] || i >= 1024 || off >= 1024 {
        return Refused;
      }
      var alive := UserStore(m, nr, k, i, off, w);
      AreasGone(s, Snap(), areas, nr, alive);
      assert areas - {nr} == areas;
      out := if alive then Done else NoMemory;
    }

    /** `verify_area` in a system call: afterwards the area counts as verified, or the process is gone. */
    method StepVerify(ghost m: Spaces, nr: nat, addr: nat, size: int) returns (out: Outcome)
      requires Inv(Snap()) && Shows(Snap(), m) && AreasOk(Snap(), areas)
      modifies pgDir, memMap, mem, this`hands, this`limits, this`areas
      ensures old(hands) <= hands && Inv(Snap()) && AreasOk(Snap(), areas)
      ensures Shows(Snap(), IdealStep(m, Verify(nr, addr, size), out))
      ensures out.Done? ==> limits == old(limits) && nr in areas && Area(addr, size) in areas[nr]
      ensures out.NoMemory? ==> nr !in limits
      ensures Taken(old(Procs()), Verify(nr, addr, size), out, Procs())
    {
      ghost var s := Snap();
      assert m.Keys == limits.Keys;
      hide Inv, Shows, AreasOk, VerifiedKept, View, Verified, InArea;
      if nr !in limits {
        return Refused;
      }
      var alive := VerifyArea(nr, addr, size);
      ghost var s1 := Snap();
      ShowsSame(s, s1, m);
      if alive {
        AreasNew(s, s1, areas, nr, Area(addr, size));
        areas := areas[nr := (if nr in areas then areas[nr] else {}) + {Area(addr, size)}];
        out := Done;
      } else {
        Perish(m, nr, s);
        out := NoMemory;
      }
    }

    /** A process ends in the middle of `verify_area`, which has begun in state `s`. */
    method Perish(ghost m: Spaces, nr: nat, ghost s: State)
      requires Inv(Snap()) && Shows(Snap(), m) && nr in limits && nr in m
      requires Inv(s) && AreasOk(s, areas) && VerifiedKept(s, Snap(), {}) && s.limits == limits
      modifies pgDir, memMap, mem, this`limits, this`areas
      ensures Inv(Snap()) && Shows(Snap(), m - {nr}) && limits == old(limits) - {nr}
      ensures areas == old(areas) - {nr} && AreasOk(Snap(), areas)
    {
      hide Inv, Shows, AreasOk, VerifiedKept;
      ghost var s1 := Snap();
      Kill(m, nr);
      VerifiedKeptTrans(s, s1, Snap(), DirsOf(nr));
      AreasGone(s, Snap(), areas, nr, false);
      areas := areas - {nr};
    }

    /** A store of the kernel to a verified word: it is done, or the process is gone. */
    method StepPut(ghost m: Spaces, nr: nat, addr: nat, w: nat) returns (out: Outcome)
      requires Inv(Snap()) && Shows(Snap(), m) && AreasOk(Snap(), areas)
      modifies pgDir, memMap, mem, this`hands, this`limits, this`areas
      ensures old(hands) <= hands && Inv(Snap()) && AreasOk(Snap(), areas)
      ensures Shows(Snap(), IdealStep(m, KernelPut(nr, addr, w), out))
      ensures out.Done? ==> limits == old(limits) && areas == old(areas)
      ensures out.NoMemory? ==> nr !in limits
      ensures Taken(old(Procs()), KernelPut(nr, addr, w), out, Procs())
    {
      ghost var s := Snap();
      ShowsKeys(s, m);
      hide Inv, Shows, AreasOk, VerifiedKept, Verified, Wrote;
      if !MayPut(Procs(), nr, addr) {
        return Refused;
      }
      ghost var a :| a in areas[nr] && a.addr <= addr && addr + 4 <= a.addr + a.size;
      WordVerified(s, areas, nr, a, addr);
      hide MayPut;
      var alive := KernelStore(m, nr, addr / 0x400000, addr / 4096 % 1024, addr / 4 % 1024, w);
      AreasGone(s, Snap(), areas, nr, alive);
      if !alive {
        areas := areas - {nr};
      }
      out := if alive then Done else NoMemory;
    }

    method StepLeave(ghost m: Spaces, nr: nat) returns (out: Outcome)
      requires Inv(Snap()) && Shows(Snap(), m) && AreasOk(Snap(), areas)
      modifies pgDir, memMap, mem, this`hands, this`limits, this`areas
      ensures old(hands) <= hands && Inv(Snap()) && AreasOk(Snap(), areas)
      ensures Shows(Snap(), IdealStep(m, Leave(nr), out))
      ensures Taken(old(Procs()), Leave(nr), out, Procs())
    {
      hide Inv, Shows, AreasOk;
      if nr !in areas {
        return Refused;
      }
      LeaveOk(Snap(), areas, nr);
      areas := areas - {nr};
      out := Done;
    }

    method StepExit(ghost m: Spaces, nr: nat) returns (out: Outcome)
      requires Inv(Snap()) && Shows(Snap(), m) && AreasOk(Snap(), areas)
      modifies pgDir, memMap, mem, this`hands, this`limits, this`areas
      ensures old(hands) <= hands && Inv(Snap()) && AreasOk(Snap(), areas)
      ensures Shows(Snap(), IdealStep(m, Exit(nr), out))
      ensures Taken(old(Procs()), Exit(nr), out, Procs())
    {
      ghost var s := Snap();
      ShowsKeys(s, m);
      hide Inv, Shows, AreasOk, VerifiedKept;
      if nr !in limits || nr in areas {
        return Refused;
      }
      Kill(m, nr);
      AreasGone(s, Snap(), areas, nr, false);
      assert areas - {nr} == areas;
      out := Done;
    }

    method StepRelease(ghost m: Spaces, nr: nat) returns (out: Outcome)
      requires Inv(Snap()) && Shows(Snap(), m) && AreasOk(Snap(), areas)
      modifies pgDir, memMap, mem, this`hands, this`limits, this`tasks, this`areas
      ensures old(hands) <= hands && Inv(Snap()) && AreasOk(Snap(), areas)
      ensures Shows(Snap(), IdealStep(m, Release(nr), out))
      ensures Taken(old(Procs()), Release(nr), out, Procs())
    {
      ghost var s := Snap();
      hide Inv, Shows, AreasOk, VerifiedKept, WordsKept, View;
      if nr !in tasks || nr in limits {
        return Refused;
      }
      ReleaseTask(nr);
      ShowsSame(s, Snap(), m);
      WordsVerified(s, Snap(), {});
      AreasStay(s, Snap(), areas);
      out := Done;
    }

    /** Any run: every process sees what it would see if `fork` had copied each page.  Whatever the others do, what a
        process has verified in a system call stays verified until it returns.  A page that was lost stays so. */
    method Run(ghost m: Spaces, es: seq<Event>) returns (outs: seq<Outcome>)
      requires Inv(Snap()) && Shows(Snap(), m) && AreasOk(Snap(), areas)
      modifies pgDir, memMap, mem, this`hands, this`limits, this`tasks, this`areas
      ensures old(hands) <= hands && Inv(Snap()) && AreasOk(Snap(), areas)
      ensures |outs| == |es| && Shows(Snap(), IdealRun(m, es, outs)) && Goes(old(Procs()), es, outs, Procs())
      ensures Recalls(old(Snap()), es, outs, Snap())
      ensures forall nr {:trigger SameProcess(old(limits), old(areas), limits, areas, nr)} ::
                Apart(es, nr) ==> SameProcess(old(limits), old(areas), limits, areas, nr)
    {
      hide Inv, Shows, IdealStep, AreasOk, Concerns, SameProcess, Apart, Taken, WordsAfter, Recalls;
      outs := [];
      RecallsNone(Snap());
      SameProcessRefl(limits, areas);
      for j := 0 to |es|
        invariant Inv(Snap()) && |outs| == j && Shows(Snap(), IdealRun(m, es[..j], outs)) && AreasOk(Snap(), areas)
        invariant old(hands) <= hands && Goes(old(Procs()), es[..j], outs, Procs())
        invariant Recalls(old(Snap()), es[..j], outs, Snap())
        invariant forall nr {:trigger SameProcess(old(limits), old(areas), limits, areas, nr)} ::
                    Apart(es, nr) ==> SameProcess(old(limits), old(areas), limits, areas, nr)
      {
        ghost var m1, l1, a1, t1, s1 := IdealRun(m, es[..j], outs), limits, areas, Procs(), Snap();
        var out := Step(m1, es[j]);
        OthersApart(old(limits), old(areas), l1, a1, limits, areas, es, j);
        RunNext(m, es[..j], outs, es[j], out);
        TakenKeys(s1, t1, es[j], out, Procs());
        RecallsNext(old(Snap()), es[..j], outs, s1, es[j], out, Snap());
        GoesOn(old(Procs()), es[..j], outs, t1, es[j], out, Procs());
        assert es[..j + 1] == es[..j] + [es[j]];
        outs := outs + [out];
      }
      assert es[..|es|] == es;
    }

    /** A system call that stores words into the space of its process, as `read` and `waitpid` do: `verify_area`, and
        before each store an arbitrary run of other processes, for the call may sleep there. */
    method PutUserWords(ghost m: Spaces, nr: nat, addr: nat, ws: seq<nat>, between: seq<seq<Event>>)
        returns (outs: seq<Outcome>)
      requires Inv(Snap()) && Shows(Snap(), m) && AreasOk(Snap(), areas)
      requires nr in limits && addr % 4 == 0 && addr + 4 * |ws| <= limits[nr] * 0x400000
      requires |between| == |ws| && forall j :: 0 <= j < |ws| ==> Apart(between[j], nr)
      modifies pgDir, memMap, mem, this`hands, this`limits, this`tasks, this`areas
      ensures nr in m && Inv(Snap()) && AreasOk(Snap(), areas)
      ensures |outs| == |PutEvents(nr, addr, ws, between, |ws|)|
      ensures var m' := IdealRun(m, PutEvents(nr, addr, ws, between, |ws|), outs);
              Shows(Snap(), m') && (nr in m' ==> m'[nr] == WroteAll(m, nr, addr, ws)[nr])
      ensures nr in limits ==> WordsPut(old(Snap()), Snap(), nr, addr, ws)
    {
      ShowsKeys(Snap(), m);
      hide Inv, Shows, AreasOk, IdealStep, WroteAll, WroteWord, Apart, OthersSame, WordsPut;
      ghost var first := Verify(nr, addr, 4 * |ws|);
      var out := StepVerify(m, nr, addr, 4 * |ws|);
      outs := [out];
      ghost var m1 := IdealStep(m, first, out);
      RunOne(m, first, out);
      VerifyDone(m, first, out);
      ShowsKeys(Snap(), m1);
      WroteNone(m, nr, addr);
      assert ws[..0] == [];
      for j := 0 to |ws|
        invariant Inv(Snap()) && AreasOk(Snap(), areas) && |outs| == |PutEvents(nr, addr, ws, between, j)|
        invariant m1 == IdealRun(m, PutEvents(nr, addr, ws, between, j), outs) && Shows(Snap(), m1)
        invariant nr in m1 ==> m1[nr] == WroteAll(m, nr, addr, ws[..j])[nr]
        invariant nr in m1 ==> Verifying(nr, addr, |ws|)
      {
        ghost var outs0, m0 := outs, m1;
        var more;
        more, m1 := PutUserWord(m, m0, nr, addr, ws, j, between[j]);
        outs := outs + more;
        PutNext(m, nr, addr, ws, between, j, outs0, more);
      }
      assert ws[..|ws|] == ws;
      ShowsKeys(Snap(), m1);
      if nr in limits {
        WroteAllPut(old(Snap()), Snap(), m, m1, nr, addr, ws);
      }
    }

    /** The process is in a system call and has verified `n` words of its own at `addr`. */
    predicate Verifying(nr: nat, addr: nat, n: nat)
      reads this
    {
      && nr in limits && nr in areas && Area(addr, 4 * n) in areas[nr]
      && addr % 4 == 0 && addr + 4 * n <= limits[nr] * 0x400000
    }

    /** The other processes run, and then the `j`-th word is stored. */
    method PutUserWord(ghost m: Spaces, ghost m0: Spaces, nr: nat, addr: nat, ws: seq<nat>, j: nat, es: seq<Event>)
        returns (outs: seq<Outcome>, ghost m1: Spaces)
      requires Inv(Snap()) && Shows(Snap(), m0) && AreasOk(Snap(), areas) && Apart(es, nr) && nr in m && j < |ws|
      requires nr in m0 ==> m0[nr] == WroteAll(m, nr, addr, ws[..j])[nr] && Verifying(nr, addr, |ws|)
      modifies pgDir, memMap, mem, this`hands, this`limits, this`tasks, this`areas
      ensures Inv(Snap()) && AreasOk(Snap(), areas) && Shows(Snap(), m1)
      ensures |outs| == |es| + 1 && m1 == IdealRun(m0, es + [KernelPut(nr, addr + 4 * j, ws[j])], outs)
      ensures nr in m1 ==> m1[nr] == WroteAll(m, nr, addr, ws[..j + 1])[nr] && Verifying(nr, addr, |ws|)
    {
      hide Inv, Shows, AreasOk, IdealStep, WroteAll, WroteWord, Apart, OthersSame;
      outs := Run(m0, es);
      RunApart(m0, es, outs, nr);
      assert SameProcess(old(limits), old(areas), limits, areas, nr);
      ghost var m2, put := IdealRun(m0, es, outs), KernelPut(nr, addr + 4 * j, ws[j]);
      ShowsKeys(Snap(), m2);
      assert nr in m2 ==> MayPut(Procs(), nr, addr + 4 * j);
      var out := StepPut(m2, nr, addr + 4 * j, ws[j]);
      RunNext(m0, es, outs, put, out);
      m1 := IdealStep(m2, put, out);
      ShowsKeys(Snap(), m1);
      PutDone(m, nr, addr, ws, j, m2, out);
      outs := outs + [out];
    }
  }

  /** The pages that `get_free_page` may return, as indices into `mem_map`. */
  function FreePages(count: seq<nat>): set<nat> {
    set k | 0 <= k < |count| && count[k] == 0
  }

  lemma FreeTaken(count: seq<nat>, k: nat)
    requires k < |count| && count[k] == 0
    ensures |FreePages(count[k := 1])| == |FreePages(count)| - 1
  {
    assert FreePages(count[k := 1]) == FreePages(count) - {k};
  }

  lemma {:induction false} AllPagesFree(count: seq<nat>)
    requires forall k :: 0 <= k < |count| ==> count[k] == 0
    ensures |FreePages(count)| == |count|
  {
    if count != [] {
      var last := |count| - 1;
      AllPagesFree(count[..last]);
      assert FreePages(count) == FreePages(count[..last]) + {last};
    }
  }

  /** How many pages `do_no_page` takes for a page behind directory entry `d`. */
  function Needed(s: State, d: nat): nat {
    if HasTable(s, d) then 1 else 2
  }

  lemma LimitsKeep(s: State, limits: map<nat, nat>)
    ensures WordsKept(s, s.(limits := limits), {})
  {
  }

  /** The page of a task structure holds no page table words, in hand or placed or given back. */
  lemma TaskWordsKept(s: State, p: nat, s2: State, to: nat, touched: set<nat>)
    requires Inv(s) && Paged(p) && s.count[p - LOW] == 0 && WordsKept(HandIn(s, p), s2, touched) && Shape(s2)
    ensures WordsKept(s, AddTask(s2, to, p), touched) && WordsKept(s, HandOut(s2, p), touched)
  {
    HandInKeeps(s, p);
    assert WordsKept(s2, AddTask(s2, to, p), touched) && WordsKept(s2, HandOut(s2, p), touched);
    hide WordsKept;
    WordsKeptMore(s, HandIn(s, p), {}, touched);
    WordsKeptTrans(s, HandIn(s, p), s2, touched);
    WordsKeptTrans(s, s2, AddTask(s2, to, p), touched);
    WordsKeptTrans(s, s2, HandOut(s2, p), touched);
  }

  lemma ShapeOf(s: State)
    requires Inv(s)
    ensures Shape(s)
  {
  }

  /** Nothing looks different, though pages may have been taken. */
  ghost predicate Unchanged(s: State, s': State) {
    && Inv(s') && s'.tasks == s.tasks && s'.limits == s.limits
    && (forall e: nat, j: nat {:trigger View(s', e, j)} :: View(s', e, j) == View(s, e, j))
    && VerifiedKept(s, s', {})
  }

  lemma PageSize(s: State, d: nat, i: nat)
    requires Inv(s)
    ensures |Contents(View(s, d, i))| == 1024
  {
  }

  lemma PresentTable(s: State, d: nat, i: nat)
    requires Present(Pte(s, d, i))
    ensures HasTable(s, d)
  {
  }

  lemma InRangeOf(s: State, nr: nat, k: nat)
    requires Inv(s) && nr in s.limits && k < s.limits[nr]
    ensures k < 16 && 16 <= 16 * nr + k < 1024 && Owner(16 * nr + k) == nr && Offset(16 * nr + k) == k
  {
    hide Counted, SlotsOk, Aligned;
    DirIndex(nr, k);
  }

  lemma VerifiedPte(s: State, nr: nat, k: nat, i: nat)
    requires Verified(s, (16 * nr + k) * 1024 + i) && 16 * nr + k < 1024 && i < 1024
    ensures Present(Pte(s, 16 * nr + k, i)) ==> Writable(Pte(s, 16 * nr + k, i))
  {
    assert ((16 * nr + k) * 1024 + i) / 1024 % 1024 == 16 * nr + k && ((16 * nr + k) * 1024 + i) % 1024 == i;
  }

  // ---------- Who is affected by an event ----------

  /** Process `nr` has the same segments, and the same areas verified. */
  predicate SameProcess(l: map<nat, nat>, a: map<nat, set<Area>>, l': map<nat, nat>, a': map<nat, set<Area>>, nr: nat) {
    && (nr in l' <==> nr in l) && (nr in l ==> l'[nr] == l[nr])
    && (nr in a' <==> nr in a) && (nr in a ==> a'[nr] == a[nr])
  }

  ghost predicate OthersSame(l: map<nat, nat>, a: map<nat, set<Area>>, l': map<nat, nat>, a': map<nat, set<Area>>,
      nr: nat) {
    forall n {:trigger SameProcess(l, a, l', a', n)} :: n != nr ==> SameProcess(l, a, l', a', n)
  }

  // ---------- Which events happen ----------

  /** The processes with their sizes, the tasks that have not been released, and the areas that processes in a system
      call have verified. */
  datatype Processes = Processes(limits: map<nat, nat>, tasks: set<nat>, areas: map<nat, set<Area>>)

  /** The kernel may store a word at `addr` for the process: the word lies in its address space and in an area it has
      verified. */
  predicate MayPut(p: Processes, nr: nat, addr: nat) {
    && nr in p.limits && nr in p.areas && addr % 4 == 0 && addr + 4 <= p.limits[nr] * 0x400000
    && exists a :: a in p.areas[nr] && a.addr <= addr && addr + 4 <= a.addr + a.size
  }

  predicate InSpace(p: Processes, nr: nat, k: nat, i: nat, off: nat) {
    nr in p.limits && k < p.limits[nr] && i < 1024 && off < 1024
  }

  /** The event can happen.  A process in a system call that has verified an area makes no stores of its own, and does
      not fork or exit, before it has returned. */
  predicate Permitted(p: Processes, e: Event) {
    match e
    case Fork(from, to) =>
      from in p.limits && from !in p.areas && to !in p.limits && to !in p.tasks && 0 < to < NR_TASKS
    case Load(nr, k, i, off) => InSpace(p, nr, k, i, off)
    case Store(nr, k, i, off, _) => InSpace(p, nr, k, i, off) && nr !in p.areas
    case Verify(nr, _, _) => nr in p.limits
    case KernelPut(nr, addr, _) => MayPut(p, nr, addr)
    case Leave(nr) => nr in p.areas
    case Exit(nr) => nr in p.limits && nr !in p.areas
    case Release(nr) => nr in p.tasks && nr !in p.limits
  }

  function Gone(p: Processes, nr: nat): Processes {
    Processes(p.limits - {nr}, p.tasks, p.areas - {nr})
  }

  /** The processes after an event: out of memory, `fork` makes none and everything else ends its process. */
  function Next(p: Processes, e: Event, out: Outcome): Processes {
    if !Permitted(p, e) then p else
    match e
    case Fork(from, to) => if out.Done? then Processes(p.limits[to := p.limits[from]], p.tasks + {to}, p.areas) else p
    case Verify(nr, addr, size) =>
      if out.NoMemory? then Gone(p, nr)
      else p.(areas := p.areas[nr := (if nr in p.areas then p.areas[nr] else {}) + {Area(addr, size)}])
    case Leave(nr) => p.(areas := p.areas - {nr})
    case Exit(nr) => Gone(p, nr)
    case Release(nr) => p.(tasks := p.tasks - {nr})
    case _ => if out.NoMemory? then Gone(p, e.nr) else p
  }

  function NextAll(p: Processes, es: seq<Event>, outs: seq<Outcome>): Processes
    requires |outs| == |es|
  {
    if es == [] then p
    else Next(NextAll(p, es[..|es| - 1], outs[..|es| - 1]), es[|es| - 1], outs[|es| - 1])
  }

  /** An event is refused exactly if it is not permitted. */
  predicate Taken(p: Processes, e: Event, out: Outcome, p': Processes) {
    && (out.Refused? <==> !Permitted(p, e)) && p' == Next(p, e, out)
    && (out.Word? ==> e.Load?) && (e.Load? ==> !out.Done?)
  }

  /** So it is with each event of a run. */
  ghost predicate Goes(p: Processes, es: seq<Event>, outs: seq<Outcome>, p': Processes) {
    && |outs| == |es| && p' == NextAll(p, es, outs)
    && forall j {:trigger outs[j]} :: 0 <= j < |es| ==>
         (outs[j].Refused? <==> !Permitted(NextAll(p, es[..j], outs[..j]), es[j]))
  }

  lemma GoesOn(p: Processes, es: seq<Event>, outs: seq<Outcome>, q: Processes, e: Event, out: Outcome, p': Processes)
    requires Goes(p, es, outs, q) && Taken(q, e, out, p')
    ensures Goes(p, es + [e], outs + [out], p')
  {
    hide Next, Permitted;
    var es', outs' := es + [e], outs + [out];
    assert es'[..|es|] == es && outs'[..|es|] == outs;
    assert NextAll(p, es', outs') == Next(NextAll(p, es, outs), e, out);
    hide NextAll;
    forall j {:trigger outs'[j]} | 0 <= j < |es|
      ensures outs'[j].Refused? <==> !Permitted(NextAll(p, es'[..j], outs'[..j]), es'[j])
    {
      assert es'[..j] == es[..j] && outs'[..j] == outs[..j] && outs'[j] == outs[j];
    }
  }

  /** The process whose segments or areas an event may change. */
  function Changes(e: Event): nat {
    match e
    case Fork(_, to) => to
    case Load(nr, _, _, _) => nr
    case Store(nr, _, _, _, _) => nr
    case Verify(nr, _, _) => nr
    case KernelPut(nr, _, _) => nr
    case Leave(nr) => nr
    case Exit(nr) => nr
    case Release(nr) => nr
  }

  lemma OthersOnly(l: map<nat, nat>, a: map<nat, set<Area>>, l': map<nat, nat>, a': map<nat, set<Area>>, n: nat)
    requires l' - {n} == l - {n} && a' - {n} == a - {n}
    ensures OthersSame(l, a, l', a', n)
  {
    forall nr | nr != n ensures SameProcess(l, a, l', a', nr) {
      assert nr in l' - {n} <==> nr in l - {n};
      assert nr in a' - {n} <==> nr in a - {n};
      assert nr in l ==> l'[nr] == (l' - {n})[nr];
      assert nr in a ==> a'[nr] == (a' - {n})[nr];
    }
  }

  lemma TakenWords(s: State, m: Spaces, p: Processes, e: Event, out: Outcome, s': State, p': Processes)
    requires Inv(s) && Inv(s') && Shows(s, m) && Shows(s', IdealStep(m, e, out)) && Taken(p, e, out, p')
    requires p.limits == s.limits && (e.Load? && out.Word? ==> out.w == WordSeen(s, e.nr, e.k, e.i, e.off))
    ensures WordsAfter(s, e, out, s')
  {
    ShowsKeys(s, m);
    LimitsBound(s);
    hide Inv, IdealStep, WordSeen, WordsAfter, Shows;
    WordsFollow(s, m, e, out, s');
  }

  lemma TakenKeys(s: State, p: Processes, e: Event, out: Outcome, p': Processes)
    requires Inv(s) && Taken(p, e, out, p') && p.limits == s.limits
    ensures p'.limits.Keys <= s.limits.Keys + (if e.Fork? && out.Done? then {e.to} else {})
    ensures e.Fork? && out.Done? ==> e.from in s.limits
    ensures e.Load? && out.Word? ==> InProcess(s, e.nr, e.k, e.i, e.off)
  {
    LimitsBound(s);
    hide Inv;
  }

  lemma LimitsBound(s: State)
    requires Inv(s)
    ensures forall nr :: nr in s.limits ==> s.limits[nr] <= 16
  {
    hide Counted, SlotsOk, Aligned;
  }

  lemma TakenOthers(p: Processes, e: Event, out: Outcome, p': Processes)
    requires Taken(p, e, out, p')
    ensures OthersSame(p.limits, p.areas, p'.limits, p'.areas, Changes(e))
  {
    OthersOnly(p.limits, p.areas, p'.limits, p'.areas, Changes(e));
  }

  lemma SameProcessRefl(l: map<nat, nat>, a: map<nat, set<Area>>)
    ensures forall nr {:trigger SameProcess(l, a, l, a, nr)} :: SameProcess(l, a, l, a, nr)
  {
  }

  lemma OthersApart(l: map<nat, nat>, a: map<nat, set<Area>>, l1: map<nat, nat>, a1: map<nat, set<Area>>,
      l2: map<nat, nat>, a2: map<nat, set<Area>>, es: seq<Event>, j: nat)
    requires j < |es| && OthersSame(l1, a1, l2, a2, Changes(es[j]))
    requires forall nr {:trigger SameProcess(l, a, l1, a1, nr)} :: Apart(es, nr) ==> SameProcess(l, a, l1, a1, nr)
    ensures forall nr {:trigger SameProcess(l, a, l2, a2, nr)} :: Apart(es, nr) ==> SameProcess(l, a, l2, a2, nr)
  {
    forall nr | Apart(es, nr) ensures SameProcess(l, a, l2, a2, nr) {
      assert !Concerns(es[j], nr) && nr != Changes(es[j]);
      assert SameProcess(l, a, l1, a1, nr) && SameProcess(l1, a1, l2, a2, nr);
    }
  }

  // ---------- Verified areas ----------

  lemma AreasInside(s: State, areas: map<nat, set<Area>>)
    requires AreasOk(s, areas)
    ensures areas.Keys <= s.limits.Keys
  {
  }

  /** Nothing was unverified. */
  lemma AreasStay(s: State, s': State, areas: map<nat, set<Area>>)
    requires Inv(s) && AreasOk(s, areas) && VerifiedKept(s, s', {}) && s'.limits == s.limits
    ensures AreasOk(s', areas)
  {
    hide Inv;
    AreasKept(s, s', areas, areas, {});
  }

  /** Another process has forked, or has failed to. */
  lemma AreasFork(s: State, s': State, areas: map<nat, set<Area>>, from: nat, to: nat)
    requires Inv(s) && AreasOk(s, areas) && VerifiedKept(s, s', DirsOf(from) + DirsOf(to))
    requires from !in areas && to !in areas && s.limits.Keys <= s'.limits.Keys
    ensures AreasOk(s', areas)
  {
    hide Inv, DirsOf;
    forall nr | nr in areas ensures DirsOf(nr) !! DirsOf(from) + DirsOf(to) {
      DirsApart(from, nr);
      DirsApart(to, nr);
    }
    AreasKept(s, s', areas, areas, DirsOf(from) + DirsOf(to));
  }

  /** Process `nr` has gone on, or has died. */
  lemma AreasGone(s: State, s': State, areas: map<nat, set<Area>>, nr: nat, alive: bool)
    requires Inv(s) && AreasOk(s, areas) && VerifiedKept(s, s', if alive then {} else DirsOf(nr))
    requires s'.limits == if alive then s.limits else s.limits - {nr}
    ensures AreasOk(s', if alive then areas else areas - {nr})
  {
    hide Inv, DirsOf;
    if alive {
      AreasStay(s, s', areas);
    } else {
      forall n | n in areas - {nr} ensures DirsOf(n) !! DirsOf(nr) {
        DirsApart(nr, n);
      }
      AreasKept(s, s', areas, areas - {nr}, DirsOf(nr));
    }
  }

  /** Process `nr` has verified one more area. */
  lemma AreasNew(s: State, s': State, areas: map<nat, set<Area>>, nr: nat, a: Area)
    requires Inv(s) && AreasOk(s, areas) && VerifiedKept(s, s', {}) && s'.limits == s.limits && nr in s.limits
    requires forall b {:trigger Verified(s', b)} :: InArea(nr, a, b) ==> Verified(s', b)
    ensures AreasOk(s', areas[nr := (if nr in areas then areas[nr] else {}) + {a}])
  {
    hide Inv;
    AreasStay(s, s', areas);
    assert AreaOk(s', nr, a);
    hide AreaOk;
    forall n, x | n in areas && x in areas[n] ensures AreaOk(s', n, x) {
    }
  }

  lemma LeaveOk(s: State, areas: map<nat, set<Area>>, nr: nat)
    requires AreasOk(s, areas)
    ensures AreasOk(s, areas - {nr})
  {
  }

  /** The word may be stored: its page is verified. */
  lemma WordVerified(s: State, areas: map<nat, set<Area>>, nr: nat, a: Area, addr: nat)
    requires Inv(s) && AreasOk(s, areas) && nr in areas && a in areas[nr] && a.addr <= addr &&
        addr + 4 <= a.addr + a.size
    requires nr in s.limits && addr % 4 == 0 && addr + 4 <= s.limits[nr] * 0x400000
    ensures addr / 0x400000 < s.limits[nr] && addr / 4096 % 1024 < 1024 && addr / 4 % 1024 < 1024
    ensures Verified(s, (16 * nr + addr / 0x400000) * 1024 + addr / 4096 % 1024)
  {
    hide Counted, SlotsOk, Aligned, Verified;
    assert AreaOk(s, nr, a);
    WordPage(nr, addr, s.limits[nr]);
    var b := (16 * nr + addr / 0x400000) * 1024 + addr / 4096 % 1024;
    assert InArea(nr, a, b) && b / 1024 == 16 * nr + addr / 0x400000;
  }

  lemma WordPage(nr: nat, addr: nat, dirs: nat)
    requires addr % 4 == 0 && addr + 4 <= dirs * 0x400000
    ensures addr / 0x400000 < dirs && addr / 4096 % 1024 < 1024 && addr / 4 % 1024 < 1024
    ensures (16 * nr + addr / 0x400000) * 1024 + addr / 4096 % 1024 == nr * 0x4000 + addr / 4096
  {
    assert addr / 4096 == addr / 0x400000 * 1024 + addr / 4096 % 1024;
  }

  lemma NoTables(s: State, nr: nat)
    requires Inv(s) && nr !in s.limits
    ensures forall d :: HasTable(s, d) ==> Owner(d) != nr
  {
    hide Counted, SlotsOk, Aligned;
  }

  lemma ElsewhereTasks(s: State, s': State, from: nat, n: nat)
    requires Elsewhere(s, s', from, n)
    ensures s'.tasks == s.tasks && s'.limits == s.limits && s'.hands == s.hands
  {
  }

  lemma CopyIsReady(s: State, s1: State, from: nat, to: nat)
    requires Inv(s) && Inv(s1) && from in s.limits && to !in s.limits && 0 < to < NR_TASKS
    requires s1 == s.(limits := s.limits[to := s.limits[from]])
    ensures s.limits[from] <= 16 && CopyReady(s1, 16 * from, 16 * to, s.limits[from])
  {
    var n := s.limits[from];
    hide Counted, SlotsOk, Aligned;
    forall e | 16 * to <= e < 16 * to + n
      ensures !HasTable(s1, e) && Offset(e) == Offset(16 * from + (e - 16 * to)) && Owner(e) == to && Offset(e) < n
    {
      DirIndex(to, e - 16 * to);
      DirIndex(from, e - 16 * to);
    }
  }

  /** The new process sees what its parent sees, and nobody else sees a difference. */
  lemma ForkSees(s: State, s1: State, s2: State, from: nat, to: nat, n: nat)
    requires Inv(s) && s1 == s.(limits := s.limits[to := n]) && from in s.limits && s.limits[from] == n &&
        to !in s.limits
    requires CopyReady(s1, 16 * from, 16 * to, n) && Copying(s1, s2, 16 * from, 16 * to, n, n, 0, false) && n <= 16
    ensures s2.tasks == s.tasks && s2.hands == s.hands && s2.limits == s1.limits && OthersSee(s, s2, to) && Inv(s2)
    ensures forall k: nat, i: nat :: k < 16 ==> See(s2, to, k, i) == See(s, from, k, i)
  {
    assert forall e: nat, j: nat :: View(s1, e, j) == View(s, e, j);
    NoTables(s, to);
    forall k: nat, i: nat | k < 16 ensures See(s2, to, k, i) == See(s, from, k, i) {
      var e := 16 * to + k;
      DirIndex(to, k);
      DirIndex(from, k);
      if k < n {
        assert View(s2, e, i) == View(s1, 16 * from + (e - 16 * to), i);
      } else {
        assert !HasTable(s, e) && !HasTable(s, 16 * from + k);
        NoTableNoView(s, e);
        NoTableNoView(s, 16 * from + k);
      }
    }
  }

  lemma ForkUndone(s: State, s1: State, s2: State, s3: State, to: nat, n: nat)
    requires Inv(s) && s1 == s.(limits := s.limits[to := n]) && to !in s.limits && n <= 16 && to < NR_TASKS
    requires Elsewhere(s1, s2, 16 * to, n) && Freed(s2, s3, 16 * to, n)
    requires forall e: nat, j: nat :: !(16 * to <= e < 16 * to + n) ==> View(s2, e, j) == View(s1, e, j)
    ensures var s4 := s3.(limits := s.limits);
            && Inv(s4) && s4.tasks == s.tasks && s4.hands == s.hands && s4.count == s.count
            && (forall x :: Target(s4, x) == Target(s, x))
            && (forall e: nat, j: nat :: View(s4, e, j) == View(s, e, j))
    ensures s3.limits == s1.limits
  {
    NoTables(s, to);
    forall e: nat | 16 * to <= e < 16 * to + n ensures !HasTable(s1, e) {
      DirIndex(to, e - 16 * to);
    }
    assert Inv(s3) && (forall x :: Target(s1, x) == Target(s, x)) &&
        (forall e: nat, j: nat :: View(s1, e, j) == View(s, e, j));
    RolledBack(s1, s2, s3, 16 * to, n);
    forall d | HasTable(s3, d) ensures Owner(d) != to {
      assert Target(s3, Dir(d)) == Target(s, Dir(d));
      assert HasTable(s, d);
    }
    assert s.limits - {to} == s3.limits - {to};
    LimitsInv(s3, to, s.limits);
    var s4 := s3.(limits := s.limits);
    assert forall x :: Target(s4, x) == Target(s3, x);
    SameCounts(s, s4);
  }

  lemma HandsBack(s: State, p: nat)
    requires Inv(s) && Paged(p) && s.count[p - LOW] == 0
    ensures HandIn(s, p).hands - {p} == s.hands && HandIn(s, p).count[p - LOW := 0] == s.count
  {
    HandInInv(s, p);
  }

  lemma HandOutView(s: State, p: nat)
    requires Inv(s) && Paged(p) && p in s.hands
    ensures forall e: nat, j: nat :: View(HandOut(s, p), e, j) == View(s, e, j)
  {
    HandOutInv(s, p);
    forall e: nat, j: nat ensures View(HandOut(s, p), e, j) == View(s, e, j) {
      assert Target(HandOut(s, p), Entry(e, j)) == Target(s, Entry(e, j));
    }
  }

  /** The page of the task structure is nothing a process sees. */
  lemma SeeAcross(s: State, s1: State, s2: State, s3: State, from: nat, to: nat)
    requires forall e: nat, j: nat :: View(s1, e, j) == View(s, e, j)
    requires OthersSee(s1, s2, to) && forall k: nat, i: nat :: k < 16 ==> See(s2, to, k, i) == See(s1, from, k, i)
    requires forall e: nat, j: nat :: View(s3, e, j) == View(s2, e, j)
    ensures OthersSee(s, s3, to) && forall k: nat, i: nat :: k < 16 ==> See(s3, to, k, i) == See(s, from, k, i)
  {
    hide View;
    forall k: nat, i: nat | k < 16 ensures See(s3, to, k, i) == See(s, from, k, i) {
      assert See(s2, to, k, i) == See(s1, from, k, i);
    }
  }

  lemma InitInv(s: State)
    requires Shape(s) && (forall d :: 0 <= d < 1024 ==> s.dir[d] == 0) &&
        (forall k :: 0 <= k < HIGH - LOW ==> s.count[k] == 0)
    requires s.tasks == map[] && s.limits == map[1 := 16] && s.hands == {}
    ensures Inv(s) && Shows(s, map[1 := map[]])
  {
    assert forall d :: !HasTable(s, d);
    assert forall x :: Target(s, x) == None;
    assert forall f :: Refs(s, f) == {};
    var m: Spaces := map[1 := map[]];
    assert ShowsOne(s, 1, m[1]);
  }

  // ---------- Pages are neither lost nor invented ----------

  /** When nobody is left, the pages that are not free are exactly those lost. */
  lemma AllFree(s: State)
    requires Inv(s) && s.limits == map[] && s.tasks == map[]
    ensures forall f: nat :: Paged(f) ==> s.count[f - LOW] == if f in s.hands then 1 else 0
  {
    forall x: Slot ensures !x.Hand? ==> Target(s, x) == None {
      if x.Dir? || x.Entry? {
        assert !HasTable(s, x.d);
      }
    }
    forall f: nat | Paged(f) ensures s.count[f - LOW] == if f in s.hands then 1 else 0 {
      assert Target(s, Hand(f)) == if f in s.hands then Some(f) else None;
      assert Refs(s, f) == if f in s.hands then {Hand(f)} else {};
    }
  }

  /** Nobody refers to a lost page. */
  lemma LostPage(s: State, f: nat)
    requires Inv(s) && Paged(f) && f in s.hands
    ensures forall x :: Target(s, x) == Some(f) ==> x == Hand(f)
    ensures s.count[f - LOW] == 1
  {
    assert SlotOk(s, Hand(f)) && Target(s, Hand(f)) == Some(f);
    HandOutInv(s, f);
  }

  /** One process touches all pages but one, and then a page that needs a page table as well.  The last page
      is lost: when the process has gone nobody refers to it, and still it is not free. */
  method LosePage() returns (m: Memory, ghost lost: nat)
    ensures fresh(m) && Inv(m.Snap()) && m.limits == map[] && m.tasks == map[] && Paged(lost)
    ensures forall x :: Target(m.Snap(), x) == Some(lost) ==> x == Hand(lost)
    ensures forall f: nat :: Paged(f) ==> m.Snap().count[f - LOW] == if f == lost then 1 else 0
  {
    m := new Memory();
    m.Touch(16, 1024);
    m.Touch(17, HIGH - LOW - 1025 - 2);
    var alive := m.DoNoPage(18, 0);
    assert !alive && m.hands != {};
    lost :| Paged(lost) && m.hands == {lost};
    m.DoExit(1);
    AllFree(m.Snap());
    LostPage(m.Snap(), lost);
  }
}
