/**
 What processes see of paging: each one has an address space of its own, a map from page to
 contents, and `fork` copies it.  Copy on write is a way to do that lazily.
 */
module AddressSpaces {
  import opened PageTables
  import opened PageSteps
  import opened PageRanges

  /** The pages of one process, by directory entry (counted from its base) and page. */
  type Space = map<(nat, nat), Page>

  type Spaces = map<nat, Space>

  /** Page `i` behind the `k`-th directory entry of process `nr` */
  function See(s: State, nr: nat, k: nat, i: nat): Option<Page> {
    View(s, 16 * nr + k, i)
  }

  /** The spaces are what the page tables say. */
  ghost predicate Shows(s: State, m: Spaces) {
    && m.Keys == s.limits.Keys
    && forall nr {:trigger m[nr]} :: nr in m ==> ShowsOne(s, nr, m[nr])
  }

  ghost predicate ShowsOne(s: State, nr: nat, space: Space) {
    && (forall p {:trigger p in space} :: p in space ==> p.0 < 16)
    && (forall k: nat, i: nat {:trigger See(s, nr, k, i)} :: k < 16 ==> See(s, nr, k, i) == Lookup(space, k, i))
  }

  function Lookup(space: Space, k: nat, i: nat): Option<Page> {
    if (k, i) in space then Some(space[(k, i)]) else None
  }

  /** A page not yet mapped reads as zeros. */
  function PageAt(space: Space, k: nat, i: nat): Page {
    if (k, i) in space then space[(k, i)] else Zeros()
  }

  /** The word that process `nr` finds at word `off` of a page. */
  function WordSeen(s: State, nr: nat, k: nat, i: nat, off: nat): nat {
    match See(s, nr, k, i)
    case None => 0
    case Some(page) => if off < |page| then page[off] else 0
  }

  predicate InProcess(s: State, nr: nat, k: nat, i: nat, off: nat) {
    nr in s.limits && k < 16 && i < 1024 && off < 1024
  }

  /** One word of process `nr` has become `w`; every other word of every process is as before. */
  ghost predicate OneWord(s: State, s': State, nr: nat, k: nat, i: nat, off: nat, w: nat) {
    forall n: nat, b: nat, j: nat, o: nat {:trigger WordSeen(s', n, b, j, o)} :: InProcess(s', n, b, j, o) ==>
      WordSeen(s', n, b, j, o) == if (n, b, j, o) == (nr, k, i, off) then w else WordSeen(s, n, b, j, o)
  }

  // ---------- The simple machine ----------

  function Forked(m: Spaces, from: nat, to: nat): Spaces
    requires from in m
  {
    m[to := m[from]]
  }

  function Wrote(m: Spaces, nr: nat, k: nat, i: nat, off: nat, w: nat): Spaces
    requires nr in m
  {
    m[nr := m[nr][(k, i) := Poke(PageAt(m[nr], k, i), off, w)]]
  }

  /** The page is mapped from now on. */
  function Touched(m: Spaces, nr: nat, k: nat, i: nat): Spaces
    requires nr in m
  {
    m[nr := m[nr][(k, i) := PageAt(m[nr], k, i)]]
  }

  function Poke(page: Page, off: nat, w: nat): Page {
    if off < |page| then PutWord(page, off, w) else page
  }

  /** The word at byte address `addr` */
  function WroteWord(m: Spaces, nr: nat, addr: nat, w: nat): Spaces
    requires nr in m
  {
    Wrote(m, nr, addr / 0x400000, addr / 4096 % 1024, addr / 4 % 1024, w)
  }

  /** Consecutive words from byte address `addr` on */
  function WroteAll(m: Spaces, nr: nat, addr: nat, ws: seq<nat>): (r: Spaces)
    requires nr in m
    ensures r.Keys == m.Keys
  {
    if ws == [] then m
    else WroteWord(WroteAll(m, nr, addr, ws[..|ws| - 1]), nr, addr + 4 * (|ws| - 1), ws[|ws| - 1])
  }

  datatype Event =
    | Fork(from: nat, to: nat)
    | Load(nr: nat, k: nat, i: nat, off: nat)
    | Store(nr: nat, k: nat, i: nat, off: nat, w: nat)
    | Verify(nr: nat, addr: nat, size: int)      // `verify_area`, in a system call of the process
    | KernelPut(nr: nat, addr: nat, w: nat)      // a store of the kernel to a word so verified
    | Leave(nr: nat)                             // the system call returns
    | Exit(nr: nat)
    | Release(nr: nat)

  datatype Outcome = Done | Word(w: nat) | NoMemory | Refused

  /** What process `n` finds at a word after event `e`: what was stored there just now, what the parent had there, or
      what was there before. */
  function Found(s: State, e: Event, out: Outcome, n: nat, b: nat, j: nat, o: nat): nat {
    match e
    case Store(nr, k, i, off, w) =>
      if out.Done? && (n, b, j, o) == (nr, k, i, off) then w else WordSeen(s, n, b, j, o)
    case KernelPut(nr, addr, w) =>
      if out.Done? && n == nr && addr / 4 == 0x100000 * b + 1024 * j + o then w else WordSeen(s, n, b, j, o)
    case Fork(from, to) => if out.Done? && n == to then WordSeen(s, from, b, j, o) else WordSeen(s, n, b, j, o)
    case _ => WordSeen(s, n, b, j, o)
  }

  ghost predicate WordsAfter(s: State, e: Event, out: Outcome, s': State) {
    && (forall n: nat, b: nat, j: nat, o: nat {:trigger WordSeen(s', n, b, j, o)} :: InProcess(s', n, b, j, o) ==>
          WordSeen(s', n, b, j, o) == Found(s, e, out, n, b, j, o))
    && (e.Load? && out.Word? ==> out.w == WordSeen(s, e.nr, e.k, e.i, e.off))
  }

  /** The word that was stored last at a place of process `nr`, or of the process it was forked from. */
  function Recalled(s: State, es: seq<Event>, outs: seq<Outcome>, nr: nat, k: nat, i: nat, off: nat): nat
    requires |es| == |outs|
  {
    if es == [] then WordSeen(s, nr, k, i, off)
    else
      var n := |es| - 1;
      match es[n]
      case Store(p, b, j, o, w) =>
        if outs[n].Done? && (p, b, j, o) == (nr, k, i, off) then w else Recalled(s, es[..n], outs[..n], nr, k, i, off)
      case KernelPut(p, addr, w) =>
        if outs[n].Done? && p == nr && addr / 4 == 0x100000 * k + 1024 * i + off then w
        else Recalled(s, es[..n], outs[..n], nr, k, i, off)
      case Fork(from, to) =>
        Recalled(s, es[..n], outs[..n], if outs[n].Done? && to == nr then from else nr, k, i, off)
      case _ => Recalled(s, es[..n], outs[..n], nr, k, i, off)
  }

  /** Every process finds what was stored last at each place, and so did every load. */
  ghost predicate Recalls(s: State, es: seq<Event>, outs: seq<Outcome>, s': State) {
    && |es| == |outs|
    && (forall n: nat, b: nat, j: nat, o: nat {:trigger WordSeen(s', n, b, j, o)} :: InProcess(s', n, b, j, o) ==>
          WordSeen(s', n, b, j, o) == Recalled(s, es, outs, n, b, j, o))
    && (forall x {:trigger outs[x]} :: 0 <= x < |es| && es[x].Load? && outs[x].Word? ==>
          outs[x].w == Recalled(s, es[..x], outs[..x], es[x].nr, es[x].k, es[x].i, es[x].off))
  }

  lemma RecallsNone(s: State)
    ensures Recalls(s, [], [], s)
  {
  }

  /** One event more. */
  lemma RecallsNext(s: State, es: seq<Event>, outs: seq<Outcome>, s1: State, e: Event, out: Outcome, s2: State)
    requires Recalls(s, es, outs, s1) && WordsAfter(s1, e, out, s2)
    requires s2.limits.Keys <= s1.limits.Keys + (if e.Fork? && out.Done? then {e.to} else {})
    requires e.Fork? && out.Done? ==> e.from in s1.limits
    requires e.Load? && out.Word? ==> InProcess(s1, e.nr, e.k, e.i, e.off)
    ensures Recalls(s, es + [e], outs + [out], s2)
  {
    var es', outs' := es + [e], outs + [out];
    assert es'[..|es|] == es && outs'[..|es|] == outs;
    hide WordSeen;
    forall n: nat, b: nat, j: nat, o: nat | InProcess(s2, n, b, j, o)
      ensures WordSeen(s2, n, b, j, o) == Recalled(s, es', outs', n, b, j, o)
    {
      assert WordSeen(s2, n, b, j, o) == Found(s1, e, out, n, b, j, o);
      if e.Fork? && out.Done? && n == e.to {
        assert InProcess(s1, e.from, b, j, o);
      } else {
        assert InProcess(s1, n, b, j, o);
      }
    }
    RecallsLoads(s, es, outs, s1, e, out, s2);
  }

  lemma RecallsLoads(s: State, es: seq<Event>, outs: seq<Outcome>, s1: State, e: Event, out: Outcome, s2: State)
    requires Recalls(s, es, outs, s1) && WordsAfter(s1, e, out, s2)
    requires e.Load? && out.Word? ==> InProcess(s1, e.nr, e.k, e.i, e.off)
    ensures var es', outs' := es + [e], outs + [out];
            forall x {:trigger outs'[x]} :: 0 <= x < |es'| && es'[x].Load? && outs'[x].Word? ==>
              outs'[x].w == Recalled(s, es'[..x], outs'[..x], es'[x].nr, es'[x].k, es'[x].i, es'[x].off)
  {
    hide WordSeen, Recalled;
    var es', outs' := es + [e], outs + [out];
    forall x {:trigger outs'[x]} | 0 <= x < |es'| && es'[x].Load? && outs'[x].Word?
      ensures outs'[x].w == Recalled(s, es'[..x], outs'[..x], es'[x].nr, es'[x].k, es'[x].i, es'[x].off)
    {
      assert es'[..x] == es[..x] && outs'[..x] == outs[..x];
      if x < |es| {
        assert es'[x] == es[x] && outs'[x] == outs[x];
      } else {
        assert es[..x] == es && outs[..x] == outs;
      }
    }
  }

  /** What an event does to the spaces: out of memory, `fork` does nothing and a store kills its process. */
  function IdealStep(m: Spaces, e: Event, out: Outcome): Spaces {
    if out.Refused? then m else
    match e
    case Fork(from, to) => if out.Done? && from in m then Forked(m, from, to) else m
    case Load(nr, k, i, _) => if nr !in m then m else if out.Word? then Touched(m, nr, k, i) else m - {nr}
    case Store(nr, k, i, off, w) => if nr !in m then m else if out.Done? then Wrote(m, nr, k, i, off, w) else m - {nr}
    case Verify(nr, _, _) => if out.Done? then m else m - {nr}
    case KernelPut(nr, addr, w) => if nr !in m then m else if out.Done? then WroteWord(m, nr, addr, w) else m - {nr}
    case Leave(_) => m
    case Exit(nr) => m - {nr}
    case Release(_) => m
  }

  function IdealRun(m: Spaces, es: seq<Event>, outs: seq<Outcome>): Spaces
    requires |es| == |outs|
  {
    if es == [] then m
    else IdealStep(IdealRun(m, es[..|es| - 1], outs[..|es| - 1]), es[|es| - 1], outs[|es| - 1])
  }

  lemma RunOne(m: Spaces, e: Event, out: Outcome)
    ensures IdealRun(m, [e], [out]) == IdealStep(m, e, out)
  {
    RunNext(m, [], [], e, out);
    assert [] + [e] == [e] && [] + [out] == [out];
  }

  lemma RunNext(m: Spaces, es: seq<Event>, outs: seq<Outcome>, e: Event, out: Outcome)
    requires |es| == |outs|
    ensures IdealRun(m, es + [e], outs + [out]) == IdealStep(IdealRun(m, es, outs), e, out)
  {
    assert (es + [e])[..|es|] == es && (outs + [out])[..|es|] == outs;
  }

  // ---------- Processes apart ----------

  /** The event has to do with process `nr`. */
  predicate Concerns(e: Event, nr: nat) {
    match e
    case Fork(from, to) => nr == from || nr == to
    case Load(n, _, _, _) => nr == n
    case Store(n, _, _, _, _) => nr == n
    case Verify(n, _, _) => nr == n
    case KernelPut(n, _, _) => nr == n
    case Leave(n) => nr == n
    case Exit(n) => nr == n
    case Release(n) => nr == n
  }

  ghost predicate Apart(es: seq<Event>, nr: nat) {
    forall i {:trigger es[i]} :: 0 <= i < |es| ==> !Concerns(es[i], nr)
  }

  /** The same space in both, or none in either. */
  predicate SameSpace(m: Spaces, m': Spaces, nr: nat) {
    (nr in m' <==> nr in m) && (nr in m ==> m'[nr] == m[nr])
  }

  /** What other processes do leaves the space of process `nr` alone. */
  lemma {:induction false} RunApart(m: Spaces, es: seq<Event>, outs: seq<Outcome>, nr: nat)
    requires |es| == |outs| && Apart(es, nr)
    ensures SameSpace(m, IdealRun(m, es, outs), nr)
  {
    if es != [] {
      var n := |es| - 1;
      assert forall i :: 0 <= i < n ==> es[..n][i] == es[i];
      RunApart(m, es[..n], outs[..n], nr);
    }
  }

  lemma {:induction false} RunBoth(m: Spaces, es: seq<Event>, outs: seq<Outcome>, es': seq<Event>, outs': seq<Outcome>)
    requires |es| == |outs| && |es'| == |outs'|
    ensures IdealRun(m, es + es', outs + outs') == IdealRun(IdealRun(m, es, outs), es', outs')
  {
    if es' == [] {
      assert es + es' == es && outs + outs' == outs;
    } else {
      var n := |es'| - 1;
      RunBoth(m, es, outs, es'[..n], outs'[..n]);
      RunNext(m, es + es'[..n], outs + outs'[..n], es'[n], outs'[n]);
      assert es + es' == es + es'[..n] + [es'[n]] && outs + outs' == outs + outs'[..n] + [outs'[n]];
    }
  }

  /** A system call that verifies an area and stores words to it; before each store other processes have done
      something, too. */
  function PutEvents(nr: nat, addr: nat, ws: seq<nat>, between: seq<seq<Event>>, j: nat): seq<Event>
    requires j <= |ws| && j <= |between|
  {
    if j == 0 then [Verify(nr, addr, 4 * |ws|)]
    else PutEvents(nr, addr, ws, between, j - 1) + between[j - 1] + [KernelPut(nr, addr + 4 * (j - 1), ws[j - 1])]
  }

  // ---------- Views ----------

  /** Only what process `nr` sees may have changed. */
  ghost predicate OthersSee(s: State, s': State, nr: nat) {
    forall e: nat, j: nat {:trigger View(s', e, j)} :: !(16 * nr <= e < 16 * nr + 16) ==>
        View(s', e, j) == View(s, e, j)
  }

  lemma SeenAlike(s: State, s': State, nr: nat, n: nat, space: Space)
    requires ShowsOne(s, n, space) && n != nr && OthersSee(s, s', nr)
    ensures ShowsOne(s', n, space)
  {
    hide View;
    forall k: nat, i: nat | k < 16 ensures See(s', n, k, i) == Lookup(space, k, i) {
      assert See(s, n, k, i) == Lookup(space, k, i);
    }
  }

  /** If nothing looks different, the spaces are the same. */
  lemma ShowsSame(s: State, s': State, m: Spaces)
    requires Shows(s, m) && s'.limits.Keys == s.limits.Keys
    requires forall e: nat, j: nat :: View(s', e, j) == View(s, e, j)
    ensures Shows(s', m)
  {
    hide View;
    forall nr | nr in m ensures ShowsOne(s', nr, m[nr]) {
      assert ShowsOne(s, nr, m[nr]);
      forall k: nat, i: nat | k < 16 ensures See(s', nr, k, i) == Lookup(m[nr], k, i) {
        assert See(s, nr, k, i) == Lookup(m[nr], k, i);
      }
    }
  }

  lemma ShowsWrite(s: State, s': State, m: Spaces, nr: nat, k: nat, i: nat, off: nat, w: nat)
    requires Shows(s, m) && nr in m && k < 16 && s'.limits.Keys == s.limits.Keys
    requires See(s', nr, k, i) == Some(Poke(PageAt(m[nr], k, i), off, w))
    requires forall e: nat, j: nat :: Entry(e, j) != Entry(16 * nr + k, i) ==> View(s', e, j) == View(s, e, j)
    ensures Shows(s', Wrote(m, nr, k, i, off, w))
  {
    hide View;
    var m' := Wrote(m, nr, k, i, off, w);
    assert OthersSee(s, s', nr);
    forall n | n in m' ensures ShowsOne(s', n, m'[n]) {
      assert ShowsOne(s, n, m[n]);
      if n == nr {
        forall b: nat, j: nat | b < 16 ensures See(s', n, b, j) == Lookup(m'[n], b, j) {
          assert See(s, n, b, j) == Lookup(m[n], b, j);
        }
      } else {
        SeenAlike(s, s', nr, n, m[n]);
      }
    }
  }

  lemma ShowsTouch(s: State, s': State, m: Spaces, nr: nat, k: nat, i: nat)
    requires Shows(s, m) && nr in m && k < 16 && s'.limits.Keys == s.limits.Keys
    requires See(s', nr, k, i) == Some(PageAt(m[nr], k, i))
    requires forall e: nat, j: nat :: Entry(e, j) != Entry(16 * nr + k, i) ==> View(s', e, j) == View(s, e, j)
    ensures Shows(s', Touched(m, nr, k, i))
  {
    var page := PageAt(m[nr], k, i);
    assert Wrote(m, nr, k, i, |page|, 0) == Touched(m, nr, k, i);
    ShowsWrite(s, s', m, nr, k, i, |page|, 0);
  }

  lemma ShowsFork(s: State, s': State, m: Spaces, from: nat, to: nat)
    requires Shows(s, m) && from in m && to !in m && from != to && s'.limits.Keys == s.limits.Keys + {to}
    requires OthersSee(s, s', to)
    requires forall k: nat, i: nat :: k < 16 ==> See(s', to, k, i) == See(s, from, k, i)
    ensures Shows(s', Forked(m, from, to))
  {
    hide View;
    var m' := Forked(m, from, to);
    forall n | n in m' ensures ShowsOne(s', n, m'[n]) {
      if n == to {
        assert ShowsOne(s, from, m[from]);
        forall k: nat, i: nat | k < 16 ensures See(s', n, k, i) == Lookup(m[from], k, i) {
          assert See(s, from, k, i) == Lookup(m[from], k, i);
        }
      } else {
        SeenAlike(s, s', to, n, m[n]);
      }
    }
  }

  lemma ShowsExit(s: State, s': State, m: Spaces, nr: nat)
    requires Shows(s, m) && nr in m && s'.limits.Keys == s.limits.Keys - {nr} && OthersSee(s, s', nr)
    ensures Shows(s', m - {nr})
  {
    hide View;
    forall n | n in m - {nr} ensures ShowsOne(s', n, (m - {nr})[n]) {
      assert ShowsOne(s, n, m[n]);
      SeenAlike(s, s', nr, n, m[n]);
    }
  }

  /** What a page holds before a store to it. */
  lemma PageBefore(s: State, m: Spaces, nr: nat, k: nat, i: nat)
    requires Shows(s, m) && nr in m && k < 16
    ensures PageAt(m[nr], k, i) == match See(s, nr, k, i) case None => Zeros() case Some(p) => p
  {
    hide View;
    assert ShowsOne(s, nr, m[nr]);
    assert See(s, nr, k, i) == Lookup(m[nr], k, i);
  }

  /** What a process finds is what its space holds. */
  lemma SeenWord(s: State, m: Spaces, nr: nat, k: nat, i: nat, off: nat)
    requires Inv(s) && Shows(s, m) && InProcess(s, nr, k, i, off)
    ensures nr in m && |PageAt(m[nr], k, i)| == 1024 && WordSeen(s, nr, k, i, off) == PageAt(m[nr], k, i)[off]
  {
    PageBefore(s, m, nr, k, i);
    ViewSize(s, 16 * nr + k, i);
    hide View;
  }

  lemma ViewSize(s: State, d: nat, i: nat)
    requires Inv(s)
    ensures View(s, d, i).Some? ==> |View(s, d, i).value| == 1024
  {
  }

  lemma WroteOneWord(s: State, s': State, m: Spaces, nr: nat, k: nat, i: nat, off: nat, w: nat)
    requires Inv(s) && Inv(s') && Shows(s, m) && InProcess(s, nr, k, i, off) && Shows(s', Wrote(m, nr, k, i, off, w))
    ensures OneWord(s, s', nr, k, i, off, w)
  {
    var m' := Wrote(m, nr, k, i, off, w);
    hide Inv, WordSeen;
    SeenWord(s, m, nr, k, i, off);
    forall n: nat, b: nat, j: nat, o: nat | InProcess(s', n, b, j, o)
      ensures WordSeen(s', n, b, j, o) == if (n, b, j, o) == (nr, k, i, off) then w else WordSeen(s, n, b, j, o)
    {
      SeenWord(s', m', n, b, j, o);
      SeenWord(s, m, n, b, j, o);
    }
  }

  lemma TouchedNoWord(s: State, s': State, m: Spaces, m': Spaces)
    requires Inv(s) && Inv(s') && Shows(s, m) && Shows(s', m') && m'.Keys <= m.Keys
    requires forall n, b: nat, j: nat :: n in m' ==> PageAt(m'[n], b, j) == PageAt(m[n], b, j)
    ensures forall n: nat, b: nat, j: nat, o: nat {:trigger WordSeen(s', n, b, j, o)} :: InProcess(s', n, b, j, o) ==>
              WordSeen(s', n, b, j, o) == WordSeen(s, n, b, j, o)
  {
    hide Inv, WordSeen, PageAt;
    forall n: nat, b: nat, j: nat, o: nat | InProcess(s', n, b, j, o)
      ensures WordSeen(s', n, b, j, o) == WordSeen(s, n, b, j, o)
    {
      SeenWord(s', m', n, b, j, o);
      SeenWord(s, m, n, b, j, o);
    }
  }

  /** What an event does to the spaces, word by word. */
  lemma WordsFollow(s: State, m: Spaces, e: Event, out: Outcome, s': State)
    requires Inv(s) && Inv(s') && Shows(s, m) && Shows(s', IdealStep(m, e, out))
    requires e.Fork? && out.Done? ==> e.from in m && e.to !in m
    requires e.Store? && out.Done? ==> InProcess(s, e.nr, e.k, e.i, e.off)
    requires e.KernelPut? && out.Done? ==> e.nr in m && e.addr / 0x400000 < 16
    requires e.Load? && out.Word? ==> out.w == WordSeen(s, e.nr, e.k, e.i, e.off)
    ensures WordsAfter(s, e, out, s')
  {
    if out.Done? && e.Store? {
      hide Inv, WordSeen, Shows;
      WroteOneWord(s, s', m, e.nr, e.k, e.i, e.off, e.w);
    } else if out.Done? && e.KernelPut? {
      hide Inv, WordSeen, WordsAfter;
      KeysShown(s, m);
      PutFollows(s, m, e, s');
    } else if out.Done? && e.Fork? {
      hide Inv, WordSeen, Shows, WordsAfter;
      ForkFollows(s, m, e, s');
    } else {
      hide Inv, WordSeen, Shows, WordsAfter;
      RestFollows(s, m, e, out, s');
    }
  }

  lemma RestFollows(s: State, m: Spaces, e: Event, out: Outcome, s': State)
    requires Inv(s) && Inv(s') && Shows(s, m) && Shows(s', IdealStep(m, e, out))
    requires out.Done? ==> !e.Store? && !e.KernelPut? && !e.Fork?
    requires e.Load? && out.Word? ==> out.w == WordSeen(s, e.nr, e.k, e.i, e.off)
    ensures WordsAfter(s, e, out, s')
  {
    hide Inv, WordSeen, Shows;
    TouchedNoWord(s, s', m, IdealStep(m, e, out));
  }

  lemma KeysShown(s: State, m: Spaces)
    requires Shows(s, m)
    ensures m.Keys == s.limits.Keys
  {
  }

  lemma PutFollows(s: State, m: Spaces, e: Event, s': State)
    requires Inv(s) && Inv(s') && Shows(s, m) && e.KernelPut? && e.nr in s.limits && e.addr / 0x400000 < 16
    requires e.nr in m && Shows(s', WroteWord(m, e.nr, e.addr, e.w))
    ensures WordsAfter(s, e, Done, s')
  {
    hide Inv, WordSeen, Shows;
    var k, i, off := e.addr / 0x400000, e.addr / 4096 % 1024, e.addr / 4 % 1024;
    WroteOneWord(s, s', m, e.nr, k, i, off, e.w);
    forall n: nat, b: nat, j: nat, o: nat | InProcess(s', n, b, j, o)
      ensures WordSeen(s', n, b, j, o) == Found(s, e, Done, n, b, j, o)
    {
      WordPlace(e.addr, b, j, o);
    }
  }

  lemma ForkFollows(s: State, m: Spaces, e: Event, s': State)
    requires Inv(s) && Inv(s') && Shows(s, m) && e.Fork? && e.from in m && e.to !in m
    requires Shows(s', Forked(m, e.from, e.to))
    ensures WordsAfter(s, e, Done, s')
  {
    var m' := Forked(m, e.from, e.to);
    KeysShown(s, m);
    KeysShown(s', m');
    hide Inv, WordSeen, Shows, PageAt;
    forall n: nat, b: nat, j: nat, o: nat | InProcess(s', n, b, j, o)
      ensures WordSeen(s', n, b, j, o) == Found(s, e, Done, n, b, j, o)
    {
      SeenWord(s', m', n, b, j, o);
      SeenWord(s, m, if n == e.to then e.from else n, b, j, o);
    }
  }

  /** The byte address of a word. */
  lemma WordPlace(addr: nat, b: nat, j: nat, o: nat)
    requires j < 1024 && o < 1024
    ensures addr / 4 == 0x100000 * b + 1024 * j + o <==>
            (b, j, o) == (addr / 0x400000, addr / 4096 % 1024, addr / 4 % 1024)
  {
    var a := addr / 4;
    assert addr / 4096 == a / 1024 && addr / 0x400000 == a / 0x100000;
    assert a == 0x100000 * (a / 0x100000) + 1024 * (a / 1024 % 1024) + a % 1024;
  }

  /** The word that process `nr` finds at byte address `a`. */
  function ByteWord(s: State, nr: nat, a: nat): nat {
    WordSeen(s, nr, a / 0x400000, a / 4096 % 1024, a / 4 % 1024)
  }

  ghost predicate Sized(space: Space) {
    forall k: nat, i: nat {:trigger PageAt(space, k, i)} :: |PageAt(space, k, i)| == 1024
  }

  lemma SizedSpace(s: State, m: Spaces, nr: nat)
    requires Inv(s) && Shows(s, m) && nr in m
    ensures Sized(m[nr])
  {
    assert ShowsOne(s, nr, m[nr]);
    forall k: nat, i: nat ensures |PageAt(m[nr], k, i)| == 1024 {
      if (k, i) in m[nr] {
        assert (k, i).0 < 16 && See(s, nr, k, i) == Lookup(m[nr], k, i);
        ViewSize(s, 16 * nr + k, i);
      }
    }
  }

  /** The word at byte address `a` of a space */
  function SpaceWord(space: Space, a: nat): nat {
    var page := PageAt(space, a / 0x400000, a / 4096 % 1024);
    if a / 4 % 1024 < |page| then page[a / 4 % 1024] else 0
  }

  /** What is at a byte address after words have been stored from `addr` on. */
  lemma {:induction false} WroteAllAt(m: Spaces, nr: nat, addr: nat, ws: seq<nat>, a: nat)
    requires nr in m && Sized(m[nr]) && addr % 4 == 0 && a % 4 == 0
    ensures Sized(WroteAll(m, nr, addr, ws)[nr])
    ensures SpaceWord(WroteAll(m, nr, addr, ws)[nr], a) ==
            if addr <= a < addr + 4 * |ws| then ws[(a - addr) / 4] else SpaceWord(m[nr], a)
  {
    hide SpaceWord, Sized, WroteWord;
    if ws != [] {
      var n := |ws| - 1;
      WroteAllAt(m, nr, addr, ws[..n], a);
      WroteWordAt(WroteAll(m, nr, addr, ws[..n]), nr, addr + 4 * n, ws[n], a);
      assert a == addr + 4 * n ==> (a - addr) / 4 == n;
      assert addr <= a < addr + 4 * n ==> (a - addr) / 4 < n;
      assert a < addr + 4 * n + 4 ==> a <= addr + 4 * n;
    }
  }

  lemma WroteWordAt(m: Spaces, nr: nat, addr: nat, w: nat, a: nat)
    requires nr in m && Sized(m[nr]) && addr % 4 == 0 && a % 4 == 0
    ensures Sized(WroteWord(m, nr, addr, w)[nr])
    ensures SpaceWord(WroteWord(m, nr, addr, w)[nr], a) == if a == addr then w else SpaceWord(m[nr], a)
  {
    var k, i, off := addr / 0x400000, addr / 4096 % 1024, addr / 4 % 1024;
    WordPlace(addr, a / 0x400000, a / 4096 % 1024, a / 4 % 1024);
    WordPlace(a, a / 0x400000, a / 4096 % 1024, a / 4 % 1024);
    assert |PageAt(m[nr], k, i)| == 1024;
    forall b: nat, j: nat ensures |PageAt(WroteWord(m, nr, addr, w)[nr], b, j)| == 1024 {
      assert |PageAt(m[nr], b, j)| == 1024;
    }
  }

  /** The words stored from `addr` on are what the process finds there, and the others are as before. */
  ghost predicate WordsPut(s: State, s': State, nr: nat, addr: nat, ws: seq<nat>) {
    forall a: nat {:trigger ByteWord(s', nr, a)} :: a % 4 == 0 && a < 0x4000000 ==>
      ByteWord(s', nr, a) ==
      if addr <= a < addr + 4 * |ws| then ws[(a - addr) / 4] else ByteWord(s, nr, a)
  }

  lemma WroteAllPut(s: State, s': State, m: Spaces, m': Spaces, nr: nat, addr: nat, ws: seq<nat>)
    requires Inv(s) && Inv(s') && Shows(s, m) && Shows(s', m') && nr in m && nr in m' && addr % 4 == 0
    requires m'[nr] == WroteAll(m, nr, addr, ws)[nr]
    ensures WordsPut(s, s', nr, addr, ws)
  {
    KeysShown(s, m);
    KeysShown(s', m');
    SizedSpace(s, m, nr);
    hide Inv, Shows, WordSeen, PageAt, WroteAll, Sized;
    forall a: nat | a % 4 == 0 && a < 0x4000000
      ensures ByteWord(s', nr, a) ==
              if addr <= a < addr + 4 * |ws| then ws[(a - addr) / 4] else ByteWord(s, nr, a)
    {
      SeenWord(s, m, nr, a / 0x400000, a / 4096 % 1024, a / 4 % 1024);
      SeenWord(s', m', nr, a / 0x400000, a / 4096 % 1024, a / 4 % 1024);
      WroteAllAt(m, nr, addr, ws, a);
    }
  }

  lemma WroteNone(m: Spaces, nr: nat, addr: nat)
    requires nr in m
    ensures WroteAll(m, nr, addr, []) == m
  {
  }

  lemma WroteNext(m: Spaces, nr: nat, addr: nat, ws: seq<nat>, j: nat)
    requires nr in m && j < |ws|
    ensures var a := addr + 4 * j;
            WroteAll(m, nr, addr, ws[..j + 1]) == WroteWord(WroteAll(m, nr, addr, ws[..j]), nr, a, ws[j])
  {
    assert ws[..j + 1][..j] == ws[..j];
  }

  lemma VerifyDone(m: Spaces, e: Event, out: Outcome)
    requires e.Verify?
    ensures e.nr in IdealStep(m, e, out) ==> !out.NoMemory? && IdealStep(m, e, out) == m
  {
  }

  /** The next word is stored into a space that holds the words before, and the other spaces are what they may be. */
  lemma PutDone(m: Spaces, nr: nat, addr: nat, ws: seq<nat>, j: nat, m1: Spaces, out: Outcome)
    requires nr in m && j < |ws| && (nr in m1 ==> m1[nr] == WroteAll(m, nr, addr, ws[..j])[nr])
    requires nr in m1 ==> !out.Refused?
    ensures var m2 := IdealStep(m1, KernelPut(nr, addr + 4 * j, ws[j]), out);
            nr in m2 ==> nr in m1 && out.Done? && m2[nr] == WroteAll(m, nr, addr, ws[..j + 1])[nr]
  {
    if nr in m1 && out.Done? {
      WroteNext(m, nr, addr, ws, j);
      WroteSame(WroteAll(m, nr, addr, ws[..j]), m1, nr, addr + 4 * j, ws[j]);
    }
  }

  lemma PutNext(m: Spaces, nr: nat, addr: nat, ws: seq<nat>, between: seq<seq<Event>>, j: nat, outs: seq<Outcome>,
      more: seq<Outcome>)
    requires j < |ws| == |between| && |outs| == |PutEvents(nr, addr, ws, between, j)| && |more| == |between[j]| + 1
    ensures |outs + more| == |PutEvents(nr, addr, ws, between, j + 1)|
    ensures IdealRun(m, PutEvents(nr, addr, ws, between, j + 1), outs + more) ==
            IdealRun(IdealRun(m, PutEvents(nr, addr, ws, between, j), outs),
              between[j] + [KernelPut(nr, addr + 4 * j, ws[j])], more)
  {
    var es, last := PutEvents(nr, addr, ws, between, j), [KernelPut(nr, addr + 4 * j, ws[j])];
    assert PutEvents(nr, addr, ws, between, j + 1) == es + (between[j] + last);
    RunBoth(m, es, outs, between[j] + last, more);
  }

  lemma ShowsKeys(s: State, m: Spaces)
    requires Shows(s, m)
    ensures m.Keys == s.limits.Keys
  {
  }

  /** The word goes to the space of process `nr`, whatever the other spaces are. */
  lemma WroteSame(m: Spaces, m': Spaces, nr: nat, addr: nat, w: nat)
    requires nr in m && nr in m' && m'[nr] == m[nr]
    ensures WroteWord(m', nr, addr, w)[nr] == WroteWord(m, nr, addr, w)[nr]
  {
  }

  /** Stores by one process leave every other address space alone. */
  lemma {:induction false} WroteOthers(m: Spaces, nr: nat, addr: nat, ws: seq<nat>, n: nat)
    requires nr in m && n in m && n != nr
    ensures WroteAll(m, nr, addr, ws)[n] == m[n]
  {
    if ws != [] {
      WroteOthers(m, nr, addr, ws[..|ws| - 1], n);
    }
  }
}
