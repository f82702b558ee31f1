/**
 What the program and the collector may do next, what that demands, and what it does to the state as the
 program sees it.
 */
module LuaEvents {
  import opened Seqs
  import opened LuaHeap
  import opened LuaInvariants
  import opened LuaSweep
  import opened LuaMutate

  /** One thing the program or the collector may do next; `a`, `b`, `f` name registers. */
  datatype Event =
    | Collect
    | CollectAll
    | Load(a: nat, n: int)
    | Copy(a: nat, b: nat)
    | CreateTable(a: nat)
    | CreateUserdata(a: nat, b: nat)
    | CreateThread(a: nat)
    | CreateCClosure(a: nat, b: nat, lo: nat, hi: nat)
    | CreateClosure(a: nat, f: nat, k: nat, captures: seq<Capture>)
    | CreateProto(a: nat)
    | CreateString(a: nat, hash: nat, text: string)
    | PutTable(a: nat, i: nat, b: nat)
    | FetchTable(a: nat, b: nat, i: nat)
    | PutMetatable(a: nat, b: nat)
    | FetchMetatable(a: nat, b: nat)
    | FetchBasicMt(a: nat, i: nat)
    | FetchEnv(a: nat, b: nat)
    | PutEnv(a: nat, b: nat)
    | FetchUpval(a: nat, f: nat, i: nat)
    | PutUpval(f: nat, i: nat, b: nat)
    | PutCUpvalue(f: nat, i: nat, b: nat)
    | PutConstant(a: nat, b: nat)
    | PutProto(a: nat, b: nat)
    | PutBasicMt(i: nat, a: nat)
    | CloseUpvals(level: nat)
    | Return(level: nat)
    | Resume(a: nat)
    | Yield
    | Fetch(a: nat, path: seq<Ref>)                // any object that the program can reach
    | CreateMain(a: nat, b: nat, nups: nat)
    | MoveTo(path: seq<Ref>, i: nat, b: nat)       // to the stack of any thread that it can reach
    | PutFixed(a: nat)
    | Switch(path: seq<Ref>)

  // ---------- Demands ----------

  /** The registers of the running function. */
  function RegsIn(h: Heap, running: Ref): seq<Value> {
    if running in h && h[running].Thread? then h[running].stack else []
  }

  /** Two threads that differ at most in their stacks. */
  predicate SameThread(o: Object, o': Object) {
    o.Thread? && o'.Thread? && o'.gt == o.gt && o'.openupval == o.openupval
  }

  function OptValue(r: Option<Ref>): Value {
    match r
    case None => Prim(0)
    case Some(x) => Obj(x)
  }

  /** Objects with an environment. */
  predicate HasEnv(o: Object) {
    o.Udata? || o.CClosure? || o.LClosure? || o.Thread?
  }

  /** What an event demands, of the heap, the roots, the metatables of the basic types and the running thread. */
  predicate Able(h: Heap, roots: set<Ref>, mt: seq<Option<Ref>>, running: Ref, e: Event) {
    var regs := RegsIn(h, running);
    match e
    case Collect => true
    case CollectAll => true
    case Load(a, _) => a < |regs|
    case Copy(a, b) => a < |regs| && b < |regs|
    case CreateTable(a) => a < |regs|
    case CreateUserdata(a, b) => a < |regs| && IsObj(h, regs, b)
    case CreateThread(a) => a < |regs|
    case CreateCClosure(a, b, _, _) => a < |regs| && IsObj(h, regs, b)
    case CreateClosure(a, f, k, cs) =>
      && a < |regs| && IsObj(h, regs, f) && h[regs[f].ref].LClosure?
      && var c := h[regs[f].ref];
      && c.proto in h && h[c.proto].Proto? && k < |h[c.proto].protos| && CapturesOk(cs, |c.upvals|, |regs|)
    case CreateProto(a) => a < |regs|
    case CreateString(a, _, _) => a < |regs|
    case PutTable(a, i, b) => IsObj(h, regs, a) && b < |regs| && h[regs[a].ref].Table? && i <= |h[regs[a].ref].slots|
    case FetchTable(a, b, i) => a < |regs| && IsObj(h, regs, b) && h[regs[b].ref].Table? && i < |h[regs[b].ref].slots|
    case PutMetatable(a, b) => IsObj(h, regs, a) && b < |regs| && (h[regs[a].ref].Table? || h[regs[a].ref].Udata?)
    case FetchMetatable(a, b) => a < |regs| && IsObj(h, regs, b) && (h[regs[b].ref].Table? || h[regs[b].ref].Udata?)
    case FetchBasicMt(a, i) => a < |regs| && i < |mt|
    case FetchEnv(a, b) => a < |regs| && IsObj(h, regs, b) && HasEnv(h[regs[b].ref])
    case PutEnv(a, b) => IsObj(h, regs, a) && IsObj(h, regs, b) && HasEnv(h[regs[a].ref])
    case FetchUpval(a, f, i) =>
      a < |regs| && IsObj(h, regs, f) && h[regs[f].ref].LClosure? && i < |h[regs[f].ref].upvals|
    case PutUpval(f, i, b) =>
      IsObj(h, regs, f) && b < |regs| && h[regs[f].ref].LClosure? && i < |h[regs[f].ref].upvals|
    case PutCUpvalue(f, i, b) =>
      IsObj(h, regs, f) && b < |regs| && h[regs[f].ref].CClosure? && i < |h[regs[f].ref].values|
    case PutConstant(a, b) => IsObj(h, regs, a) && b < |regs| && h[regs[a].ref].Proto?
    case PutProto(a, b) => IsObj(h, regs, a) && IsObj(h, regs, b) && h[regs[a].ref].Proto?
    case PutBasicMt(i, a) => i < |mt| && a < |regs|
    case CloseUpvals(_) => true
    case Return(_) => true
    case Resume(a) => IsObj(h, regs, a) && h[regs[a].ref].Thread?
    case Yield => true
    case Fetch(a, path) => a < |regs| && IsPath(h, roots, path)
    case CreateMain(a, b, _) =>
      && a < |regs| && IsObj(h, regs, b) && h[regs[b].ref].Proto?
      && running in h && h[running].Thread? && h[running].gt.Obj?
    case MoveTo(path, i, b) =>
      && IsPath(h, roots, path) && b < |regs| && path[|path| - 1] in h && h[path[|path| - 1]].Thread?
      && i <= |h[path[|path| - 1]].stack|
    case PutFixed(a) => IsObj(h, regs, a) && h[regs[a].ref].Str?
    case Switch(path) => IsPath(h, roots, path) && path[|path| - 1] in h && h[path[|path| - 1]].Thread?
  }

  predicate IsObj(h: Heap, regs: seq<Value>, a: nat) {
    a < |regs| && regs[a].Obj? && regs[a].ref in h
  }

  // ---------- Effects ----------

  /** Slot `i` of a table, or a new slot behind the others. */
  function PutSlot(slots: seq<Value>, i: nat, v: Value): (r: seq<Value>)
    requires i <= |slots|
    ensures |r| == (if i < |slots| then |slots| else i + 1) && r[i] == v
    ensures forall j :: 0 <= j < |slots| && j != i ==> r[j] == slots[j]
    ensures forall x :: x in r ==> x in slots || x == v
  {
    if i < |slots| then slots[i := v] else slots + [v]
  }

  function Range(regs: seq<Value>, lo: nat, hi: nat): seq<Value> {
    if lo <= hi <= |regs| then regs[lo..hi] else []
  }

  /** Different cells that did not exist before, each closed and holding nil. */
  ghost predicate NewCells(h: Heap, before: set<Ref>, us: seq<Ref>) {
    NoDup(us) && forall u :: u in us ==> u !in before && u in h && h[u] == ClosedUp(Prim(0))
  }

  /** Register `a` holds `v` now, and nothing else has changed. */
  ghost predicate Assigned(s: State, s': State, a: nat, v: Value) {
    && a < |RegsIn(s.heap, s.running)| && RegsIn(s'.heap, s'.running) == RegsIn(s.heap, s.running)[a := v]
    && s' == s.(heap := s'.heap) && s'.heap.Keys == s.heap.Keys
    && (forall o :: o in s'.heap && o != s.running ==> s'.heap[o] == s.heap[o])
    && s.running in s'.heap && SameThread(s.heap[s.running], s'.heap[s.running])
  }

  /** There is one object more, and register `a` holds it. */
  ghost predicate Made(s: State, s': State, a: nat, o: Ref, obj: Object) {
    && o !in s.heap && o in s'.heap && s'.heap[o] == obj && s'.heap.Keys == s.heap.Keys + {o}
    && Given(s, s', a, o)
  }

  /** Register `a` holds `o`, and no object of before has changed, but the running thread may have open upvalues
      more. */
  ghost predicate Given(s: State, s': State, a: nat, o: Ref) {
    && SameRoots(s, s') && s'.fixed == s.fixed
    && a < |RegsIn(s.heap, s.running)| && RegsIn(s'.heap, s'.running) == RegsIn(s.heap, s.running)[a := Obj(o)]
    && (forall x :: x in s.heap && x != s.running ==> x in s'.heap && s'.heap[x] == s.heap[x])
  }

  /** The heap is `h` now; nothing else that the program sees has changed. */
  ghost predicate Rewritten(s: State, s': State, h: Heap) {
    s'.heap == h && SameRoots(s, s') && s'.fixed == s.fixed
  }

  ghost predicate Stores(s: State, s': State, o: Ref, obj: Object) {
    Rewritten(s, s', s.heap[o := obj])
  }

  /** The value goes into the cell, or through an open one into the slot of a stack. */
  ghost predicate CellStored(s: State, s': State, u: Ref, v: Value) {
    u in s.heap &&
    match s.heap[u]
    case OpenUp(t, l) =>
      t in s.heap && s.heap[t].Thread? && l < |s.heap[t].stack| &&
      Stores(s, s', t, s.heap[t].(stack := s.heap[t].stack[l := v]))
    case ClosedUp(_) => Stores(s, s', u, ClosedUp(v))
    case _ => false
  }

  ghost predicate CellFetched(s: State, s': State, a: nat, u: Ref) {
    u in s.heap &&
    match s.heap[u]
    case OpenUp(t, l) =>
      t in s.heap && s.heap[t].Thread? && l < |s.heap[t].stack| && Assigned(s, s', a, s.heap[t].stack[l])
    case ClosedUp(v) => Assigned(s, s', a, v)
    case _ => false
  }

  /** The open upvalues of the running thread at or above `level`, the first `n`, are closed or freed. */
  ghost predicate ClosedAbove(s: State, s': State, level: nat, n: nat) {
    && s.running in s.heap && s.heap[s.running].Thread? && n <= |s.heap[s.running].openupval|
    && forall i :: 0 <= i < |s.heap[s.running].openupval| ==>
         var u := s.heap[s.running].openupval[i];
         && u in s.heap && s.heap[u].OpenUp?
         && (i < n <==> s.heap[u].level >= level)
         && (i < n && u in s'.heap ==> s'.heap[u] == ClosedUp(UpvalValue(s.heap, s.heap[u])))
         && (i >= n ==> u in s'.heap && s'.heap[u] == s.heap[u])
  }

  predicate Instance(c: Object, env: Ref, proto: Ref, n: nat) {
    c.LClosure? && c.env == env && c.proto == proto && |c.upvals| == n
  }

  /** A new object is made. */
  ghost predicate Creates(e: Event, s: State, s': State)
    requires Able(s.heap, s.Roots(), s.mt, s.running, e)
  {
    var h, regs := s.heap, RegsIn(s.heap, s.running);
    match e
    case CreateTable(a) => exists o :: Made(s, s', a, o, Table(None, []))
    case CreateUserdata(a, b) => exists o :: Made(s, s', a, o, Udata(None, regs[b].ref))
    case CreateThread(a) => exists o :: Made(s, s', a, o, Thread(h[s.running].gt, [Prim(0)], []))
    case CreateCClosure(a, b, lo, hi) => exists o :: Made(s, s', a, o, CClosure(regs[b].ref, Range(regs, lo, hi)))
    case CreateProto(a) => exists o :: Made(s, s', a, o, Proto([], []))
    case _ => false
  }

  /** A closure is made around captured or new upvalues, or a string is made or found. */
  ghost predicate Instantiates(e: Event, s: State, s': State)
    requires Able(s.heap, s.Roots(), s.mt, s.running, e)
  {
    var h, regs := s.heap, RegsIn(s.heap, s.running);
    match e
    case CreateClosure(a, f, k, cs) =>
      exists o ::
        && o !in h && o in s'.heap && Given(s, s', a, o)
        && Instance(s'.heap[o], h[regs[f].ref].env, h[h[regs[f].ref].proto].protos[k], |cs|)
        && AllCaptured(s', h[regs[f].ref].upvals, cs, s'.heap[o].upvals)
    case CreateMain(a, b, nups) =>
      exists o ::
        && o !in h && o in s'.heap && Given(s, s', a, o)
        && Instance(s'.heap[o], h[s.running].gt.ref, regs[b].ref, nups)
        && NewCells(s'.heap, h.Keys, s'.heap[o].upvals)
    case CreateString(a, hash, text) =>
      exists o ::
        && o in s'.heap && Given(s, s', a, o) && s'.heap[o] == Str(hash, text)
        && ((exists x :: x in h && h[x] == Str(hash, text)) ==> o in h)
    case _ => false
  }

  /** A reference, or another value, is stored into an object. */
  ghost predicate Puts(e: Event, s: State, s': State)
    requires Able(s.heap, s.Roots(), s.mt, s.running, e)
  {
    var h, regs := s.heap, RegsIn(s.heap, s.running);
    match e
    case PutTable(a, i, b) =>
      var t := regs[a].ref;
      Stores(s, s', t, Table(h[t].metatable, PutSlot(h[t].slots, i, regs[b])))
    case PutMetatable(a, b) =>
      var o, m := regs[a].ref, if regs[b].Obj? then Some(regs[b].ref) else None;
      Stores(s, s', o, if h[o].Table? then Table(m, h[o].slots) else Udata(m, h[o].env))
    case PutEnv(a, b) =>
      var o, env := regs[a].ref, regs[b].ref;
      Stores(s, s', o, if h[o].Thread? then h[o].(gt := Obj(env)) else h[o].(env := env))
    case PutUpval(f, i, b) => CellStored(s, s', h[regs[f].ref].upvals[i], regs[b])
    case PutCUpvalue(f, i, b) =>
      var o := regs[f].ref;
      Stores(s, s', o, CClosure(h[o].env, h[o].values[i := regs[b]]))
    case PutConstant(a, b) =>
      var o := regs[a].ref;
      Stores(s, s', o, Proto(h[o].k + [regs[b]], h[o].protos))
    case PutProto(a, b) =>
      var o := regs[a].ref;
      Stores(s, s', o, Proto(h[o].k, h[o].protos + [regs[b].ref]))
    case _ => false
  }

  /** A register gets a value. */
  ghost predicate Fetches(e: Event, s: State, s': State)
    requires Able(s.heap, s.Roots(), s.mt, s.running, e)
  {
    var h, regs := s.heap, RegsIn(s.heap, s.running);
    match e
    case Load(a, n) => Assigned(s, s', a, Prim(n))
    case Copy(a, b) => Assigned(s, s', a, regs[b])
    case FetchTable(a, b, i) => Assigned(s, s', a, h[regs[b].ref].slots[i])
    case FetchMetatable(a, b) => Assigned(s, s', a, OptValue(h[regs[b].ref].metatable))
    case FetchBasicMt(a, i) => Assigned(s, s', a, OptValue(s.mt[i]))
    case FetchEnv(a, b) =>
      var o := h[regs[b].ref];
      Assigned(s, s', a, if o.Thread? then o.gt else Obj(o.env))
    case FetchUpval(a, f, i) => CellFetched(s, s', a, h[regs[f].ref].upvals[i])
    case Fetch(a, path) => Assigned(s, s', a, Obj(path[|path| - 1]))
    case _ => false
  }

  /** Roots, stacks and threads. */
  ghost predicate Moves(e: Event, s: State, s': State)
    requires Able(s.heap, s.Roots(), s.mt, s.running, e)
  {
    var h, regs := s.heap, RegsIn(s.heap, s.running);
    match e
    case PutBasicMt(i, a) => s' == s.(mt := s.mt[i := if regs[a].Obj? then Some(regs[a].ref) else None])
    case CloseUpvals(level) =>
      KeepsAlive(s, s') && RegsIn(s'.heap, s'.running) == regs && exists n: nat :: ClosedAbove(s, s', level, n)
    case Return(level) =>
      && SameRoots(s, s') && s'.fixed == s.fixed && RegsIn(s'.heap, s'.running) == TopOf(regs, level)
      && exists n: nat :: ClosedAbove(s, s', level, n)
    case Resume(a) => s' == s.(running := regs[a].ref)
    case Yield => s' == s.(running := s.mainthread)
    case Switch(path) => s' == s.(running := path[|path| - 1])
    case MoveTo(path, i, b) =>
      var t := path[|path| - 1];
      Stores(s, s', t, h[t].(stack := PutAt(h[t].stack, i, regs[b])))
    case PutFixed(a) => s' == s.(fixed := s.fixed + {regs[a].ref})
    case _ => false
  }

  /** What an event that can happen does. */
  ghost predicate Happened(e: Event, s: State, s': State)
    requires Able(s.heap, s.Roots(), s.mt, s.running, e)
  {
    || (e.Collect? && Keeps(s, s'))
    || (e.CollectAll? && Keeps(s, s') && s'.heap.Keys == Reach(s'.heap, s'.Roots()) + s'.fixed)
    || Creates(e, s, s') || Instantiates(e, s, s') || Puts(e, s, s') || Fetches(e, s, s') || Moves(e, s, s')
  }

  /** An event that cannot happen changes nothing. */
  ghost predicate Does(e: Event, s: State, s': State) {
    if Able(s.heap, s.Roots(), s.mt, s.running, e) then Happened(e, s, s') else s' == s
  }
}
