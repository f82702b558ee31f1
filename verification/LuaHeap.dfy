/**
 The object graph the Lua 5.1 collector works on: objects, the strong references the collector
 follows, and reachability from the collector's roots.  Everything here is a value; the collector
 itself is the class in `LuaCollector.dfy`.
 */
module LuaHeap {
  import opened Seqs

  type Ref = nat

  datatype Option<+T> = None | Some(value: T)

  /** A tagged value: either a collectable object or anything else (nil, booleans, numbers ...). */
  datatype Value = Prim(n: int) | Obj(ref: Ref)

  /** What the collector sees of each kind of object. A table lists the keys and values of its live
      entries; an open upvalue points at a slot of its thread's stack. */
  datatype Object =
    | Str(hash: nat, text: string)
    | Udata(metatable: Option<Ref>, env: Ref)
    | Table(metatable: Option<Ref>, slots: seq<Value>)
    | CClosure(env: Ref, values: seq<Value>)
    | LClosure(env: Ref, proto: Ref, upvals: seq<Ref>)
    | Proto(k: seq<Value>, protos: seq<Ref>)
    | Thread(gt: Value, stack: seq<Value>, openupval: seq<Ref>)
    | OpenUp(thread: Ref, level: nat)
    | ClosedUp(value: Value)

  type Heap = map<Ref, Object>

  /** The colour bits of an object's mark; `which` tells the two whites apart. */
  datatype Colour = White(which: bool) | Gray | Black

  type Marks = map<Ref, Colour>

  datatype Phase = Pause | Propagate | SweepString | Sweep | Finalize

  function OptRefs(r: Option<Ref>): seq<Ref> {
    match r
    case None => []
    case Some(x) => [x]
  }

  function ValueRefs(vs: seq<Value>): (rs: seq<Ref>)
    ensures forall r :: r in rs <==> Obj(r) in vs
  {
    if vs == [] then []
    else
      assert vs == [vs[0]] + vs[1..];
      (match vs[0] case Prim(_) => [] case Obj(r) => [r]) + ValueRefs(vs[1..])
  }

  predicate Traversable(o: Object) {
    o.Table? || o.CClosure? || o.LClosure? || o.Proto? || o.Thread?
  }

  predicate IsUpval(o: Object) {
    o.OpenUp? || o.ClosedUp?
  }

  /** Objects chained in `rootgc`: all but strings (string table) and open upvalues (their thread). */
  predicate InRoot(o: Object) {
    !o.Str? && !o.OpenUp?
  }

  /** The value an upvalue currently stands for: its own, or the stack slot it still points at. */
  function UpvalValue(h: Heap, u: Object): Value
    requires IsUpval(u)
  {
    match u
    case OpenUp(t, l) => if t in h && h[t].Thread? && l < |h[t].stack| then h[t].stack[l] else Prim(0)
    case ClosedUp(v) => v
  }

  /** The objects that the traversal of `o` marks. */
  function Edges(h: Heap, o: Ref): (rs: seq<Ref>) {
    if o !in h then [] else
    match h[o]
    case Str(_, _) => []
    case Udata(mt, env) => OptRefs(mt) + [env]
    case Table(mt, slots) => OptRefs(mt) + ValueRefs(slots)
    case CClosure(env, vs) => [env] + ValueRefs(vs)
    case LClosure(env, p, us) => [env, p] + us
    case Proto(k, ps) => ValueRefs(k) + ps
    case Thread(gt, stack, _) => ValueRefs([gt]) + ValueRefs(stack)
    case OpenUp(_, _) => ValueRefs([UpvalValue(h, h[o])])
    case ClosedUp(v) => ValueRefs([v])
  }

  // ---------- What the fields of an object hold ----------

  predicate ValueIn(v: Value, S: set<Ref>) {
    v.Obj? ==> v.ref in S
  }

  predicate AllIn(vs: seq<Value>, S: set<Ref>) {
    forall i :: 0 <= i < |vs| ==> ValueIn(vs[i], S)
  }

  predicate OptIn(r: Option<Ref>, S: set<Ref>) {
    r.Some? ==> r.value in S
  }

  /** Each reference in each field of the object lies in `S`; an open upvalue stands for the slot it points at. */
  predicate FieldsIn(h: Heap, x: Object, S: set<Ref>) {
    match x
    case Str(_, _) => true
    case Udata(metatable, env) => OptIn(metatable, S) && env in S
    case Table(metatable, slots) => OptIn(metatable, S) && AllIn(slots, S)
    case CClosure(env, values) => env in S && AllIn(values, S)
    case LClosure(env, proto, upvals) => env in S && proto in S && forall u :: u in upvals ==> u in S
    case Proto(k, protos) => AllIn(k, S) && forall p :: p in protos ==> p in S
    case Thread(gt, stack, _) => ValueIn(gt, S) && AllIn(stack, S)
    case OpenUp(t, level) => t in h && h[t].Thread? && level < |h[t].stack| ==> ValueIn(h[t].stack[level], S)
    case ClosedUp(value) => ValueIn(value, S)
  }

  /** What the traversal marks is what the fields hold, no more and no less. */
  lemma FieldsAreEdges(h: Heap, o: Ref, S: set<Ref>)
    requires o in h
    ensures FieldsIn(h, h[o], S) <==> forall c :: c in Edges(h, o) ==> c in S
  {
    match h[o] {
      case Str(_, _) =>
      case Udata(mt, _) => OptEdges(mt, S);
      case Table(mt, slots) =>
        OptEdges(mt, S);
        ValueEdges(slots, S);
      case CClosure(_, values) => ValueEdges(values, S);
      case LClosure(_, _, _) =>
      case Proto(k, _) => ValueEdges(k, S);
      case Thread(gt, stack, _) =>
        ValueEdges([gt], S);
        ValueEdges(stack, S);
      case OpenUp(_, _) => ValueEdges([UpvalValue(h, h[o])], S);
      case ClosedUp(v) => ValueEdges([v], S);
    }
  }

  lemma OptEdges(r: Option<Ref>, S: set<Ref>)
    ensures OptIn(r, S) <==> forall c :: c in OptRefs(r) ==> c in S
  {
    if r.Some? {
      assert r.value in OptRefs(r);
    }
  }

  lemma ValueEdges(vs: seq<Value>, S: set<Ref>)
    ensures AllIn(vs, S) <==> forall c :: c in ValueRefs(vs) ==> c in S
    ensures |vs| == 1 ==> (AllIn(vs, S) <==> ValueIn(vs[0], S))
  {
    if AllIn(vs, S) {
      forall c | c in ValueRefs(vs) ensures c in S {
        var i :| 0 <= i < |vs| && vs[i] == Obj(c);
        assert ValueIn(vs[i], S);
      }
    }
    if forall c :: c in ValueRefs(vs) ==> c in S {
      forall i | 0 <= i < |vs| ensures ValueIn(vs[i], S) {
        assert vs[i] in vs;
      }
    }
  }

  ghost predicate Closed(h: Heap, S: set<Ref>) {
    forall o, c :: o in S && c in Edges(h, o) ==> c in S
  }

  /** `o` belongs to every set that holds the roots and is closed under strong references. */
  ghost predicate Reachable(h: Heap, roots: set<Ref>, o: Ref) {
    forall S: set<Ref> :: roots <= S && Closed(h, S) ==> o in S
  }

  ghost function Reach(h: Heap, roots: set<Ref>): set<Ref> {
    set o | o in h && Reachable(h, roots, o)
  }

  lemma ReachableRoot(h: Heap, roots: set<Ref>, o: Ref)
    requires o in roots
    ensures Reachable(h, roots, o)
  {
  }

  lemma ReachableEdge(h: Heap, roots: set<Ref>, o: Ref, c: Ref)
    requires Reachable(h, roots, o) && c in Edges(h, o)
    ensures Reachable(h, roots, c)
  {
    forall S: set<Ref> | roots <= S && Closed(h, S) ensures c in S {
      assert o in S;
    }
  }

  /** A path of references that starts at a root. */
  predicate IsPath(h: Heap, roots: set<Ref>, path: seq<Ref>) {
    path != [] && path[0] in roots && forall i :: 0 < i < |path| ==> path[i] in Edges(h, path[i - 1])
  }

  lemma {:induction false} PathReachable(h: Heap, roots: set<Ref>, path: seq<Ref>)
    requires IsPath(h, roots, path)
    ensures Reachable(h, roots, path[|path| - 1])
    decreases |path|
  {
    hide Edges, Reachable;
    var n := |path|;
    if n == 1 {
      ReachableRoot(h, roots, path[0]);
    } else {
      PathReachable(h, roots, path[..n - 1]);
      ReachableEdge(h, roots, path[n - 2], path[n - 1]);
    }
  }

  ghost predicate Leads(h: Heap, roots: set<Ref>, path: seq<Ref>, o: Ref) {
    IsPath(h, roots, path) && path[|path| - 1] == o
  }

  lemma PathMore(h: Heap, roots: set<Ref>, path: seq<Ref>, o: Ref, c: Ref)
    requires Leads(h, roots, path, o) && c in Edges(h, o)
    ensures Leads(h, roots, path + [c], c) && Reachable(h, roots, c)
  {
    PathReachable(h, roots, path);
    ReachableEdge(h, roots, o, c);
    hide Edges, Reachable;
  }

  lemma PathStart(h: Heap, roots: set<Ref>, r: Ref)
    requires r in roots
    ensures Leads(h, roots, [r], r) && Reachable(h, roots, r)
  {
    ReachableRoot(h, roots, r);
  }

  /** If nothing reachable is missing, a path leads to everything that is reachable. */
  lemma PathExists(h: Heap, roots: set<Ref>, o: Ref) returns (path: seq<Ref>)
    requires Reachable(h, roots, o) && forall x :: Reachable(h, roots, x) ==> x in h
    ensures Leads(h, roots, path, o)
  {
    hide Edges, Leads, IsPath;
    var S := set x | x in h && exists p :: Leads(h, roots, p, x);
    assert roots <= S && Closed(h, S) by {
      hide Reachable;
      forall r | r in roots ensures r in S {
        PathStart(h, roots, r);
      }
      forall x, c | x in S && c in Edges(h, x) ensures c in S {
        var p :| Leads(h, roots, p, x);
        PathMore(h, roots, p, x, c);
      }
    }
    assert o in S;
    path :| Leads(h, roots, path, o);
  }

  /** A closed set of existing objects that holds the roots contains everything reachable. */
  lemma ReachInside(h: Heap, roots: set<Ref>, S: set<Ref>)
    requires roots <= S && Closed(h, S)
    ensures forall o :: Reachable(h, roots, o) ==> o in S
  {
  }

  lemma ReachClosed(h: Heap, roots: set<Ref>, S: set<Ref>)
    requires roots <= S && Closed(h, S) && S <= h.Keys
    ensures roots <= Reach(h, roots) && Closed(h, Reach(h, roots))
  {
    ReachInside(h, roots, S);
    forall o | o in roots ensures o in Reach(h, roots) {
      ReachableRoot(h, roots, o);
    }
    forall o, c | o in Reach(h, roots) && c in Edges(h, o) ensures c in Reach(h, roots) {
      ReachableEdge(h, roots, o, c);
    }
  }

  /** Two heaps that agree on a closed set holding the roots reach the same objects. */
  lemma ReachAgree(h: Heap, h': Heap, roots: set<Ref>, S: set<Ref>)
    requires roots <= S && Closed(h, S) && S <= h.Keys && S <= h'.Keys
    requires forall o, c :: o in S ==> (c in Edges(h, o) <==> c in Edges(h', o))
    ensures Reach(h, roots) == Reach(h', roots)
  {
    forall o ensures Reachable(h, roots, o) <==> Reachable(h', roots, o) {
      if Reachable(h, roots, o) {
        forall T: set<Ref> | roots <= T && Closed(h', T) ensures o in T {
          assert roots <= T * S && Closed(h, T * S);
        }
      }
      if Reachable(h', roots, o) {
        forall T: set<Ref> | roots <= T && Closed(h, T) ensures o in T {
          assert roots <= T * S && Closed(h', T * S);
        }
      }
    }
    ReachInside(h, roots, S);
    assert Closed(h', S);
    ReachInside(h', roots, S);
  }
}
