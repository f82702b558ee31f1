/**
 Linux 0.01 paging as a value: the page directory, physical memory, the reference counts of
 `mem_map`, and the invariant that ties a count to the references that exist.
 */
module PageTables {
  import opened Seqs

  // Frame numbers: an address shifted right by 12.
  const LOW: nat := 0x200       // LOW_MEM
  const HIGH: nat := 0x800      // HIGH_MEMORY
  const NR_TASKS: nat := 64

  type Page = seq<nat>

  // ---------- Entries of the directory and of page tables ----------

  predicate Present(w: nat) {
    w % 2 == 1
  }

  predicate Writable(w: nat) {
    w / 2 % 2 == 1
  }

  /** `0xfffff000 & w`, as a frame number */
  function FrameOf(w: nat): nat {
    w / 4096
  }

  /** `page | 7` */
  function Mapped(f: nat): (w: nat)
    ensures Present(w) && Writable(w) && FrameOf(w) == f
  {
    f * 4096 + 7
  }

  /** `w & ~2` */
  function ReadOnly(w: nat): (r: nat)
    ensures !Writable(r) && (Present(r) <==> Present(w)) && FrameOf(r) == FrameOf(w)
  {
    if Writable(w) then w - 2 else w
  }

  /** `w | 2` */
  function ReadWrite(w: nat): (r: nat)
    ensures Writable(r) && (Present(r) <==> Present(w)) && FrameOf(r) == FrameOf(w)
  {
    if Writable(w) then w else w + 2
  }

  // ---------- State ----------

  datatype State = State(
    dir: seq<nat>,
    mem: seq<Page>,
    count: seq<nat>,
    tasks: map<nat, nat>,     // the page that holds the task structure of a process
    limits: map<nat, nat>,    // how many directory entries the segments of a process span
    hands: set<nat>)          // pages taken from `get_free_page` and not yet placed

  /** A place that can refer to a frame. */
  datatype Slot = Dir(d: nat) | Entry(d: nat, i: nat) | TaskPage(nr: nat) | Hand(f: nat)

  datatype Option<+T> = None | Some(value: T)

  predicate Shape(s: State) {
    && |s.dir| == 1024 && |s.mem| == HIGH && |s.count| == HIGH - LOW
    && (forall f :: 0 <= f < HIGH ==> |s.mem[f]| == 1024)
  }

  /** The page table behind directory entry `d`. */
  function Table(s: State, d: nat): nat
    requires d < |s.dir|
  {
    FrameOf(s.dir[d])
  }

  predicate HasTable(s: State, d: nat) {
    16 <= d < 1024 && d < |s.dir| && Present(s.dir[d])
  }

  /** The word of page `i` of directory entry `d`; 0 if there is no page table. */
  function Pte(s: State, d: nat, i: nat): nat {
    if HasTable(s, d) && Table(s, d) < |s.mem| && i < |s.mem[Table(s, d)]| && i < 1024 then s.mem[Table(s, d)][i] else 0
  }

  function Target(s: State, x: Slot): Option<nat> {
    match x
    case Dir(d) => if HasTable(s, d) then Some(Table(s, d)) else None
    case Entry(d, i) => if Present(Pte(s, d, i)) then Some(FrameOf(Pte(s, d, i))) else None
    case TaskPage(nr) => if 0 < nr < NR_TASKS && nr in s.tasks then Some(s.tasks[nr]) else None
    case Hand(f) => if f < HIGH && f in s.hands then Some(f) else None
  }

  ghost function Universe(): set<Slot> {
    (set d | 16 <= d < 1024 :: Dir(d)) + (set d, i | 16 <= d < 1024 && 0 <= i < 1024 :: Entry(d, i)) +
    (set nr | 0 < nr < NR_TASKS :: TaskPage(nr)) + (set f | 0 <= f < HIGH :: Hand(f))
  }

  lemma TargetInUniverse(s: State, x: Slot)
    requires Target(s, x).Some?
    ensures x in Universe()
  {
  }

  /** Everything that refers to frame `f`. */
  ghost function Refs(s: State, f: nat): set<Slot> {
    set x | x in Universe() && Target(s, x) == Some(f)
  }

  /** No other place refers to the frame of `x`. */
  ghost predicate Sole(s: State, x: Slot) {
    forall y {:trigger Target(s, y)} :: Target(s, y) == Target(s, x) ==> y == x
  }

  predicate Paged(f: nat) {
    LOW <= f < HIGH
  }

  ghost predicate Counted(s: State)
    requires |s.count| == HIGH - LOW
  {
    forall f :: LOW <= f < HIGH ==> s.count[f - LOW] == |Refs(s, f)|
  }

  /** Page tables, task structures and pages in hand belong to one place each; so does every page
      that can be written. */
  ghost predicate SlotOk(s: State, x: Slot) {
    match Target(s, x)
    case None => true
    case Some(f) =>
      && f < HIGH
      && (!x.Entry? || Writable(Pte(s, x.d, x.i)) ==> Paged(f) && Sole(s, x))
  }

  ghost predicate SlotsOk(s: State) {
    forall x {:trigger SlotOk(s, x)} :: SlotOk(s, x)
  }

  function Owner(d: nat): nat {
    d / 16
  }

  function Offset(d: nat): nat {
    d % 16
  }

  lemma DirIndex(nr: nat, k: nat)
    requires k < 16
    ensures Owner(16 * nr + k) == nr && Offset(16 * nr + k) == k
  {
  }

  /** A page that is shared is mapped at the same place of each address space. */
  ghost predicate Aligned(s: State) {
    forall d, i, d', i' {:trigger Target(s, Entry(d, i)), Target(s, Entry(d', i'))} ::
      (Target(s, Entry(d, i)).Some? && Target(s, Entry(d, i)) == Target(s, Entry(d', i')) &&
       Paged(Target(s, Entry(d, i)).value))
      ==> Offset(d) == Offset(d') && i == i'
  }

  /** Directory entries belong to processes, within their limits. */
  ghost predicate Owned(s: State) {
    && (forall d :: HasTable(s, d) ==> Owner(d) in s.limits && Offset(d) < s.limits[Owner(d)])
    && (forall nr :: nr in s.limits ==> 0 < nr < NR_TASKS && s.limits[nr] <= 16)
    && (forall nr :: nr in s.tasks ==> 0 < nr < NR_TASKS)
  }

  ghost predicate Inv(s: State) {
    Shape(s) && Counted(s) && SlotsOk(s) && Aligned(s) && Owned(s)
  }

  // ---------- What a process sees ----------

  /** The contents of page `i` of directory entry `d`, if it is mapped. */
  function View(s: State, d: nat, i: nat): Option<Page> {
    match Target(s, Entry(d, i))
    case None => None
    case Some(f) => if f < |s.mem| then Some(s.mem[f]) else None
  }

  // ---------- Page table words elsewhere ----------

  predicate Among(e: nat, from: nat, n: nat) {
    from <= e < from + n
  }

  /** The `n` directory entries at `from` */
  function Range(from: nat, n: nat): set<nat> {
    set e {:trigger Among(e, from, n)} | from <= e < from + n && Among(e, from, n)
  }

  /** The directory entries of a process */
  function DirsOf(nr: nat): set<nat> {
    Range(16 * nr, 16)
  }

  /** No page table word outside these directory entries has changed, its protection included. */
  ghost predicate WordsKept(s: State, s': State, touched: set<nat>) {
    forall e, j {:trigger Pte(s', e, j)} :: e !in touched ==> Pte(s', e, j) == Pte(s, e, j)
  }

  lemma WordsKeptTrans(s: State, s1: State, s2: State, touched: set<nat>)
    requires WordsKept(s, s1, touched) && WordsKept(s1, s2, touched)
    ensures WordsKept(s, s2, touched)
  {
    hide Pte;
    forall e, j | e !in touched ensures Pte(s2, e, j) == Pte(s, e, j) {
      assert Pte(s1, e, j) == Pte(s, e, j);
    }
  }

  lemma WordsKeptMore(s: State, s': State, touched: set<nat>, more: set<nat>)
    requires WordsKept(s, s', touched) && touched <= more
    ensures WordsKept(s, s', more)
  {
    hide Pte;
  }

  // ---------- Counting ----------

  /** `s'` differs from `s` in where `x` points. */
  ghost predicate OnlyMoves(s: State, s': State, x: Slot) {
    forall y {:trigger Target(s', y)} :: y != x ==> Target(s', y) == Target(s, y)
  }

  /** Changing where one place points changes the counts of the two frames by one. */
  lemma Retarget(s: State, s': State, x: Slot, f: nat)
    requires OnlyMoves(s, s', x)
    ensures |Refs(s', f)| == |Refs(s, f)| - (if Target(s, x) == Some(f) then 1 else 0) +
        (if Target(s', x) == Some(f) then 1 else 0)
  {
    hide Universe, Target;
    var r, r' := Refs(s, f), Refs(s', f);
    if Target(s, x) == Some(f) { TargetInUniverse(s, x); }
    if Target(s', x) == Some(f) { TargetInUniverse(s', x); }
    assert r' - {x} == r - {x};
    RemoveOne(r, x);
    RemoveOne(r', x);
  }

  lemma RemoveOne(r: set<Slot>, x: Slot)
    ensures |r| == |r - {x}| + (if x in r then 1 else 0)
  {
    if x in r {
      assert r == (r - {x}) + {x};
    } else {
      assert r - {x} == r;
    }
  }

  lemma NoRefs(s: State, f: nat)
    requires Inv(s) && Paged(f) && s.count[f - LOW] == 0
    ensures forall x :: Target(s, x) != Some(f)
  {
    assert Refs(s, f) == {};
    forall x ensures Target(s, x) != Some(f) {
      if x in Universe() {
        assert x !in Refs(s, f);
      } else if Target(s, x).Some? {
        TargetInUniverse(s, x);
      }
    }
  }

  /** Each process maps a frame at most once, so a count never exceeds the number of processes: the
      16 bits of a `mem_map` entry are enough. */
  lemma CountFits(s: State, f: nat)
    requires Inv(s) && Paged(f)
    ensures s.count[f - LOW] < NR_TASKS
  {
    var r := Refs(s, f);
    if exists x :: x in r && !x.Entry? {
      var x :| x in r && !x.Entry?;
      assert SlotOk(s, x) && Sole(s, x);
      assert r == {x};
    } else {
      forall x, y | x in r && y in r && Owner(x.d) == Owner(y.d) ensures x == y {
        assert Target(s, Entry(x.d, x.i)) == Target(s, Entry(y.d, y.i)) == Some(f);
      }
      OwnersBound(r);
    }
  }

  lemma OwnersBound(r: set<Slot>)
    requires forall x :: x in r ==> x.Entry? && 16 <= x.d < 1024
    requires forall x, y :: x in r && y in r && Owner(x.d) == Owner(y.d) ==> x == y
    ensures |r| < NR_TASKS
  {
    Pigeon(r, set x | x in r :: Owner(x.d));
    Smaller(set x | x in r :: Owner(x.d), UpTo(NR_TASKS - 1));
  }

  lemma {:induction false} Pigeon(r: set<Slot>, owners: set<nat>)
    requires forall x :: x in r ==> x.Entry?
    requires forall x, y :: x in r && y in r && Owner(x.d) == Owner(y.d) ==> x == y
    requires owners == set x | x in r :: Owner(x.d)
    ensures |r| == |owners|
  {
    if r != {} {
      var x :| x in r;
      assert owners - {Owner(x.d)} == set y | y in r - {x} :: Owner(y.d);
      Pigeon(r - {x}, owners - {Owner(x.d)});
      assert r == (r - {x}) + {x};
      assert owners == (owners - {Owner(x.d)}) + {Owner(x.d)};
    }
  }

  /** The numbers from 1 to `n` */
  function UpTo(n: nat): (r: set<nat>)
    ensures |r| == n && forall k :: k in r <==> 1 <= k <= n
  {
    if n == 0 then {} else UpTo(n - 1) + {n}
  }
}
