/**
 `sleep_on` and `wake_up` of `kernel/sched.c`.  A wait queue is one pointer to the last sleeper; every
 sleeper remembers the one before it in a local variable on its own kernel stack.
 */
module SleepQueues {
  const NULL: int := -1

  /** A task is awake, or inside `sleep_on` with its local variable `tmp`. */
  datatype Place = Awake | Asleep(tmp: int)

  /** The pointers through which a sleeper can be reached. */
  datatype Pointer = Queue(q: nat) | Saved(t: nat)

  function Value(head: seq<int>, at: seq<Place>, p: Pointer): int {
    match p
    case Queue(q) => if q < |head| then head[q] else NULL
    case Saved(t) => if t < |at| && at[t].Asleep? then at[t].tmp else NULL
  }

  /** Asleep, and not yet made runnable. */
  predicate Sleeps(running: seq<bool>, at: seq<Place>, x: int) {
    0 <= x < |at| == |running| && at[x].Asleep? && !running[x]
  }

  /** Every pointer leads to a task that sleeps. */
  ghost predicate Aimed(head: seq<int>, running: seq<bool>, at: seq<Place>) {
    forall p: Pointer {:trigger Value(head, at, p)} :: Value(head, at, p) != NULL ==>
        Sleeps(running, at, Value(head, at, p))
  }

  /** No task is named twice. */
  ghost predicate Once(head: seq<int>, at: seq<Place>) {
    forall p: Pointer, r: Pointer {:trigger Value(head, at, p), Value(head, at, r)} ::
      p != r && Value(head, at, p) != NULL ==> Value(head, at, p) != Value(head, at, r)
  }

  /** `label[x]` is the queue that `x` waits on, or NULL once that queue has been woken. */
  ghost predicate NamedBy(head: seq<int>, running: seq<bool>, at: seq<Place>, label_: seq<int>, x: nat) {
    x < |label_| == |at| == |running| &&
    if label_[x] == NULL then exists t: nat :: t < |at| && Value(head, at, Saved(t)) == x && label_[t] == NULL
    else 0 <= label_[x] < |head| && (Value(head, at, Queue(label_[x])) == x ||
           exists t: nat :: t < |at| && Value(head, at, Saved(t)) == x && label_[t] == label_[x] && !running[t])
  }

  /** Every task that sleeps is named. */
  ghost predicate Named(head: seq<int>, running: seq<bool>, at: seq<Place>, label_: seq<int>) {
    forall x: nat {:trigger NamedBy(head, running, at, label_, x)} :: Sleeps(running, at, x) ==>
        NamedBy(head, running, at, label_, x)
  }

  /** A sleeper remembers one that went to sleep before it. */
  ghost predicate Ordered(at: seq<Place>, since: seq<nat>, clock: nat) {
    |since| == |at| && forall t: nat {:trigger since[t]} :: t < |at| && at[t].Asleep? ==>
      since[t] < clock && (0 <= at[t].tmp < |at| ==> since[at[t].tmp] < since[t])
  }

  ghost predicate Inv(head: seq<int>, running: seq<bool>, at: seq<Place>, label_: seq<int>, since: seq<nat>,
      clock: nat) {
    && |running| == |at| == |label_|
    && Aimed(head, running, at) && Once(head, at) && Named(head, running, at, label_) && Ordered(at, since, clock)
    && (forall t: nat {:trigger at[t]} :: t < |at| && at[t].Awake? ==> running[t])
    && (forall t: nat {:trigger label_[t]} :: t < |at| && at[t].Asleep? && running[t] ==> label_[t] == NULL)
  }

  function Woken(running: seq<bool>, x: int): seq<bool> {
    if 0 <= x < |running| then running[x := true] else running
  }

  class Sleepers {
    var head: seq<int>            // the wait queues
    var running: seq<bool>        // task states
    var at: seq<Place>
    ghost var label_: seq<int>
    ghost var since: seq<nat>
    ghost var clock: nat

    ghost predicate Valid()
      reads this
    {
      Inv(head, running, at, label_, since, clock)
    }

    constructor (queues: nat, tasks: nat)
      ensures Valid() && |head| == queues && |at| == tasks && forall t: nat {:trigger at[t]} :: t < tasks ==>
          at[t] == Awake
    {
      head := seq(queues, _ => NULL);
      running := seq(tasks, _ => true);
      at := seq(tasks, _ => Awake);
      label_ := seq(tasks, _ => NULL);
      since := seq(tasks, _ => 0);
      clock := 0;
    }

    /** `sleep_on` by task `t`, up to its call of `schedule`. */
    method SleepOn(t: nat, q: nat)
      requires Valid() && 0 < t < |at| && at[t].Awake? && q < |head|       // "task[0] trying to sleep"
      modifies this
      ensures Valid() && head == old(head)[q := t] && running == old(running)[t := false]
      ensures at == old(at)[t := Asleep(old(head)[q])] && label_ == old(label_)[t := q]
    {
      Slept(head, running, at, label_, since, clock, t, q);
      hide Inv;
      var tmp := head[q];
      head := head[q := t];
      running := running[t := false];
      at := at[t := Asleep(tmp)];
      label_ := label_[t := q];
      since := since[t := clock];
      clock := clock + 1;
    }

    /** `wake_up` */
    method WakeUp(q: nat)
      requires Valid() && q < |head|
      modifies this`head, this`running, this`label_
      ensures Valid() && |head| == |old(head)| && at == old(at) && head == old(head)[q := NULL]
      ensures running == Woken(old(running), old(head)[q])
      ensures forall x: nat {:trigger label_[x]} :: x < |at| ==>
          label_[x] == if old(label_)[x] == q then NULL else old(label_)[x]
    {
      ghost var head0, running0, label0 := head, running, label_;
      assert Value(head, at, Queue(q)) == head[q];
      if head[q] != NULL {
        HeadLabel(head, running, at, label_, q);
        running := running[head[q] := true];
        head := head[q := NULL];
      }
      ghost var n := |at|;
      label_ := seq(n, x requires 0 <= x < |label0| => if label0[x] == q then NULL else label0[x]);
      WokenAimed(head0, running0, at, q);
      WokenNamed(head0, running0, at, label0, label_, q);
    }

    /** The rest of `sleep_on`, when task `t` runs again. */
    method Resume(t: nat)
      requires Valid() && t < |at| && at[t].Asleep? && running[t]
      modifies this`running, this`at
      ensures Valid() && at == old(at)[t := Awake]
      ensures running == Woken(old(running), old(at)[t].tmp)
    {
      ghost var running0, at0 := running, at;
      var tmp := at[t].tmp;
      assert Value(head, at, Saved(t)) == tmp;
      if tmp != NULL {
        SavedLabel(head, running, at, label_, t);
        running := running[tmp := true];
      }
      at := at[t := Awake];
      ResumedAimed(head, running0, at0, t);
      ResumedNamed(head, running0, at0, label_, t);
    }

    /** Runnable sleepers run, in any order, until there is none left: then every task that was waiting on
        a queue that has been woken is awake. */
    method ResumeAll()
      requires Valid()
      modifies this`running, this`at
      ensures Valid() && |at| == |old(at)|
      ensures forall t: nat {:trigger at[t]} :: t < |at| ==>
                at[t] == if old(at)[t].Asleep? && label_[t] != NULL then old(at)[t] else Awake
    {
      var t := 0;
      while t < |at|
        invariant t <= |at| == |old(at)| && Valid()
        invariant forall x: nat {:trigger at[x]} :: x < |at| ==>
            at[x] == old(at)[x] || (at[x] == Awake && old(at)[x].Asleep? && label_[x] == NULL)
        invariant forall x: nat {:trigger at[x]} :: x < t ==> !(at[x].Asleep? && running[x])
        decreases Sleeping(at), |at| - t
      {
        if at[t].Asleep? && running[t] {
          FewerSleep(at, t);
          Resume(t);
          t := 0;
        } else {
          t := t + 1;
        }
      }
      forall x: nat | x < |at| ensures at[x].Awake? || label_[x] != NULL {
        NoneLeft(head, running, at, label_, since, clock, x);
      }
    }

    /** One wake-up, followed by the tasks that it makes runnable one after the other, wakes the whole queue
        and nobody else. */
    method WakeAll(q: nat)
      requires Valid() && q < |head|
      modifies this
      ensures Valid() && |at| == |old(at)|
      ensures forall t: nat {:trigger at[t]} :: t < |at| ==>
                at[t] == if old(at)[t].Asleep? && old(label_)[t] != NULL &&
                    old(label_)[t] != q then old(at)[t] else Awake
    {
      WakeUp(q);
      ghost var label1 := label_;
      ResumeAll();
      assert forall t: nat {:trigger at[t]} :: t < |at| ==>
          label1[t] == if old(label_)[t] == q then NULL else old(label_)[t];
    }

    ghost function Snap(): Moment
      reads this
    {
      Moment(head, running, at)
    }

    /** One event, if it can happen. */
    method Step(e: Event)
      requires Valid()
      modifies this
      ensures Valid() && |at| == |old(at)| && |head| == |old(head)| && Does(e, old(Snap()), Snap())
    {
      match e {
        case Sleep(t, q) =>
          if 0 < t < |at| && at[t].Awake? && q < |head| {
            SleepOn(t, q);
          }
        case Wake(q) =>
          if q < |head| {
            WakeUp(q);
          }
        case Continue(t) =>
          if t < |at| && at[t].Asleep? && running[t] {
            Resume(t);
          }
      }
    }

    /** Any interleaving of sleeping, waking and resuming; `ms` are the states between the events. */
    method Run(es: seq<Event>) returns (ghost ms: seq<Moment>)
      requires Valid()
      modifies this
      ensures Valid() && |at| == |old(at)| && |head| == |old(head)|
      ensures |ms| == |es| + 1 && ms[0] == old(Snap()) && ms[|es|] == Snap()
      ensures forall i {:trigger es[i]} :: 0 <= i < |es| ==> Does(es[i], ms[i], ms[i + 1])
    {
      hide Inv, Does;
      ms := [Snap()];
      var i := 0;
      while i < |es|
        invariant 0 <= i <= |es| && Valid() && |at| == |old(at)| && |head| == |old(head)|
        invariant |ms| == i + 1 && ms[0] == old(Snap()) && ms[i] == Snap()
        invariant forall j {:trigger es[j]} :: 0 <= j < i ==> Does(es[j], ms[j], ms[j + 1])
      {
        Step(es[i]);
        ms := ms + [Snap()];
        i := i + 1;
      }
    }
  }

  datatype Event = Sleep(t: nat, q: nat) | Wake(q: nat) | Continue(t: nat)

  datatype Moment = Moment(head: seq<int>, running: seq<bool>, at: seq<Place>)

  /** Nobody but `x`, if that is a task, becomes runnable. */
  ghost predicate OneWoken(running: seq<bool>, running': seq<bool>, x: int) {
    |running'| == |running| &&
    forall t: nat {:trigger running'[t]} :: t < |running| ==> running'[t] == (running[t] || t == x)
  }

  /** What an event does; one that cannot happen now does nothing. */
  ghost predicate Does(e: Event, s: Moment, s': Moment) {
    match e
    case Sleep(t, q) =>
      if 0 < t < |s.at| && s.at[t].Awake? && q < |s.head| then
        && s'.head == s.head[q := t] && s'.at == s.at[t := Asleep(s.head[q])]
        && t < |s.running| && s'.running == s.running[t := false]
      else s' == s
    case Wake(q) =>
      if q < |s.head| then
        s'.head == s.head[q := NULL] && s'.at == s.at && OneWoken(s.running, s'.running, s.head[q])
      else s' == s
    case Continue(t) =>
      if t < |s.at| && s.at[t].Asleep? && t < |s.running| && s.running[t] then
        s'.head == s.head && s'.at == s.at[t := Awake] && OneWoken(s.running, s'.running, s.at[t].tmp)
      else s' == s
  }

  function Sleeping(at: seq<Place>): nat {
    if at == [] then 0 else (if at[0].Asleep? then 1 else 0) + Sleeping(at[1..])
  }

  lemma {:induction false} FewerSleep(at: seq<Place>, t: nat)
    requires t < |at| && at[t].Asleep?
    ensures Sleeping(at[t := Awake]) < Sleeping(at)
  {
    if t == 0 {
      assert at[0 := Awake][1..] == at[1..];
    } else {
      FewerSleep(at[1..], t - 1);
      assert at[t := Awake][1..] == at[1..][t - 1 := Awake];
    }
  }

  /** Without runnable sleepers, nobody who has been woken sleeps: going from pointer to pointer, each
      sleeper would be remembered by one that went to sleep later. */
  lemma {:induction false} NoneLeft(head: seq<int>, running: seq<bool>, at: seq<Place>, label_: seq<int>,
      since: seq<nat>, clock: nat, x: nat)
    requires Named(head, running, at, label_) && Ordered(at, since, clock) && |at| == |running| == |label_|
    requires forall t: nat {:trigger at[t]} :: t < |at| ==> !(at[t].Asleep? && running[t])
    requires x < |at|
    ensures at[x].Awake? || label_[x] != NULL
    decreases clock - since[x]
  {
    if at[x].Asleep? && label_[x] == NULL {
      assert NamedBy(head, running, at, label_, x);
      var t: nat :| t < |at| && Value(head, at, Saved(t)) == x && label_[t] == NULL;
      assert since[t] == since[t] && since[x] == since[x];
      NoneLeft(head, running, at, label_, since, clock, t);
    }
  }

  lemma Slept(head: seq<int>, running: seq<bool>, at: seq<Place>, label_: seq<int>, since: seq<nat>, clock: nat,
      t: nat, q: nat)
    requires Inv(head, running, at, label_, since, clock) && t < |at| && at[t].Awake? && q < |head|
    ensures |running| == |at| == |label_| == |since|
    ensures Inv(head[q := t], running[t := false], at[t := Asleep(head[q])], label_[t := q], since[t := clock],
        clock + 1)
  {
    SleptAimed(head, running, at, t, q);
    SleptNamed(head, running, at, label_, t, q);
    SleptOrdered(head, running, at, since, clock, t, q);
    hide Aimed, Once, Named, Ordered;
  }

  lemma SleptAimed(head: seq<int>, running: seq<bool>, at: seq<Place>, t: nat, q: nat)
    requires Aimed(head, running, at) && Once(head, at) && t < |at| == |running| && at[t].Awake? && q < |head|
    ensures Aimed(head[q := t], running[t := false], at[t := Asleep(head[q])]) &&
        Once(head[q := t], at[t := Asleep(head[q])])
  {
    var head', at' := head[q := t], at[t := Asleep(head[q])];
    forall p: Pointer ensures Value(head', at', p) == if p == Queue(q) then t else if p == Saved(t) then head[q]
        else Value(head, at, p) {
    }
    assert Value(head, at, Queue(q)) == head[q];
    forall p: Pointer | Value(head, at, p) != NULL ensures Value(head, at, p) != t {
    }
  }

  lemma SleptNamed(head: seq<int>, running: seq<bool>, at: seq<Place>, label_: seq<int>, t: nat, q: nat)
    requires Aimed(head, running, at) && Once(head, at) && Named(head, running, at, label_)
    requires t < |at| == |running| == |label_| && at[t].Awake? && q < |head|
    ensures Named(head[q := t], running[t := false], at[t := Asleep(head[q])], label_[t := q])
  {
    var head', running', at', label' := head[q := t], running[t := false], at[t := Asleep(head[q])], label_[t := q];
    forall x: nat | Sleeps(running', at', x) ensures NamedBy(head', running', at', label', x) {
      if x == t {
        assert Value(head', at', Queue(q)) == t;
      } else {
        assert Sleeps(running, at, x) && NamedBy(head, running, at, label_, x);
        if label_[x] == q && Value(head, at, Queue(q)) == x {
          assert Value(head', at', Saved(t)) == x && label'[t] == q;
        } else if label_[x] != NULL && Value(head, at, Queue(label_[x])) == x {
          assert Value(head', at', Queue(label_[x])) == x;
        } else {
          var s: nat :| s < |at| && Value(head, at, Saved(s)) == x && label_[s] == label_[x] &&
              (label_[x] != NULL ==> !running[s]);
          assert s != t && Value(head', at', Saved(s)) == x;
        }
      }
    }
  }

  lemma WokenAimed(head: seq<int>, running: seq<bool>, at: seq<Place>, q: nat)
    requires Aimed(head, running, at) && Once(head, at) && q < |head| && |at| == |running|
    requires head[q] != NULL ==> 0 <= head[q] < |at|
    ensures var head', running' := if head[q] != NULL then head[q := NULL] else head, if head[q] != NULL then
        running[head[q] := true] else running;
            Aimed(head', running', at) && Once(head', at)
  {
    var head' := if head[q] != NULL then head[q := NULL] else head;
    forall p: Pointer ensures Value(head', at, p) == if p == Queue(q) then NULL else Value(head, at, p) {
    }
    assert Value(head, at, Queue(q)) == head[q];
  }

  lemma WokenNamed(head: seq<int>, running: seq<bool>, at: seq<Place>, label_: seq<int>, label': seq<int>, q: nat)
    requires Aimed(head, running, at) && Once(head, at) && Named(head, running, at, label_) && q < |head| &&
        |at| == |running| == |label_| == |label'|
    requires head[q] != NULL ==> 0 <= head[q] < |at|
    requires forall x: nat {:trigger label'[x]} :: x < |at| ==> label'[x] == if label_[x] == q then NULL else label_[x]
    ensures var head', running' := if head[q] != NULL then head[q := NULL] else head, if head[q] != NULL then
        running[head[q] := true] else running;
            Named(head', running', at, label')
  {
    var head', running' := if head[q] != NULL then head[q := NULL] else head, if head[q] != NULL then
        running[head[q] := true] else running;
    forall p: Pointer ensures Value(head', at, p) == if p == Queue(q) then NULL else Value(head, at, p) {
    }
    assert Value(head, at, Queue(q)) == head[q];
    forall x: nat | Sleeps(running', at, x) ensures NamedBy(head', running', at, label', x) {
      assert Sleeps(running, at, x) && NamedBy(head, running, at, label_, x) && x != head[q];
      if label_[x] != NULL && Value(head, at, Queue(label_[x])) == x {
        assert label_[x] != q && Value(head', at, Queue(label'[x])) == x;
      } else {
        var s: nat :| s < |at| && Value(head, at, Saved(s)) == x && label_[s] == label_[x] &&
            (label_[x] != NULL ==> !running[s]);
        assert Value(head', at, Saved(s)) == x && label'[s] == label'[x];
        if head[q] != NULL { HeadLabel(head, running, at, label_, q); }
      }
    }
  }

  lemma SleptOrdered(head: seq<int>, running: seq<bool>, at: seq<Place>, since: seq<nat>, clock: nat, t: nat, q: nat)
    requires Aimed(head, running, at) && Ordered(at, since, clock) && t < |at| == |running| && at[t].Awake? &&
        q < |head|
    ensures Ordered(at[t := Asleep(head[q])], since[t := clock], clock + 1)
  {
    assert Value(head, at, Queue(q)) == head[q];
    forall s: nat | s < |at| && at[s].Asleep? ensures at[s].tmp != t && since[s] < clock {
      assert Value(head, at, Saved(s)) == at[s].tmp && since[s] == since[s];
    }
    assert 0 <= head[q] < |at| ==> since[head[q]] == since[head[q]];
  }

  /** The task at the head of a queue waits on that queue. */
  lemma HeadLabel(head: seq<int>, running: seq<bool>, at: seq<Place>, label_: seq<int>, q: nat)
    requires Aimed(head, running, at) && Once(head, at) && Named(head, running, at, label_) && q < |head| &&
        head[q] != NULL
    requires |at| == |running| == |label_|
    ensures 0 <= head[q] < |at| && label_[head[q]] == q
  {
    assert Value(head, at, Queue(q)) == head[q];
    var x := head[q];
    assert NamedBy(head, running, at, label_, x);
  }

  lemma ResumedAimed(head: seq<int>, running: seq<bool>, at: seq<Place>, t: nat)
    requires Aimed(head, running, at) && Once(head, at) && t < |at| == |running| && at[t].Asleep? && running[t]
    requires at[t].tmp != NULL ==> 0 <= at[t].tmp < |at|
    ensures var running' := if at[t].tmp != NULL then running[at[t].tmp := true] else running;
            Aimed(head, running', at[t := Awake]) && Once(head, at[t := Awake])
  {
    var at' := at[t := Awake];
    forall p: Pointer ensures Value(head, at', p) == if p == Saved(t) then NULL else Value(head, at, p) {
    }
    assert Value(head, at, Saved(t)) == at[t].tmp;
  }

  lemma ResumedNamed(head: seq<int>, running: seq<bool>, at: seq<Place>, label_: seq<int>, t: nat)
    requires Aimed(head, running, at) && Once(head, at) && Named(head, running, at, label_) &&
        t < |at| == |running| == |label_| && at[t].Asleep? && running[t]
    requires at[t].tmp != NULL ==> 0 <= at[t].tmp < |at|
    requires label_[t] == NULL
    ensures var running' := if at[t].tmp != NULL then running[at[t].tmp := true] else running;
            Named(head, running', at[t := Awake], label_)
  {
    var at', running' := at[t := Awake], if at[t].tmp != NULL then running[at[t].tmp := true] else running;
    forall p: Pointer ensures Value(head, at', p) == if p == Saved(t) then NULL else Value(head, at, p) {
    }
    assert Value(head, at, Saved(t)) == at[t].tmp;
    forall x: nat | Sleeps(running', at', x) ensures NamedBy(head, running', at', label_, x) {
      assert Sleeps(running, at, x) && NamedBy(head, running, at, label_, x) && x != at[t].tmp;
      if label_[x] != NULL && Value(head, at, Queue(label_[x])) == x {
        assert Value(head, at', Queue(label_[x])) == x;
      } else {
        var s: nat :| s < |at| && Value(head, at, Saved(s)) == x && label_[s] == label_[x] &&
            (label_[x] != NULL ==> !running[s]);
        assert s != t && Value(head, at', Saved(s)) == x;
        if at[t].tmp != NULL { SavedLabel(head, running, at, label_, t); }
      }
    }
  }

  /** The task that a woken one remembers has been woken with it. */
  lemma SavedLabel(head: seq<int>, running: seq<bool>, at: seq<Place>, label_: seq<int>, t: nat)
    requires Aimed(head, running, at) && Once(head, at) && Named(head, running, at, label_) &&
        t < |at| == |running| == |label_|
    requires at[t].Asleep? && at[t].tmp != NULL && label_[t] == NULL
    ensures 0 <= at[t].tmp < |at| && label_[at[t].tmp] == NULL
  {
    assert Value(head, at, Saved(t)) == at[t].tmp;
    var x := at[t].tmp;
    assert NamedBy(head, running, at, label_, x);
  }
}
