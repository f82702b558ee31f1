/**
 The process scheduler of `kernel/sched.c`: time slices, and who runs next.
 */
module Scheduler {
  const NR_TASKS: nat := 64
  const HZ: nat := 100

  datatype State = Running | Interruptible | Uninterruptible | Zombie

  /** A task; `alarm` is 0 if there is none, `signal` says whether some signal is pending. */
  datatype Task = Task(state: State, counter: int, priority: int, alarm: nat, signal: bool)

  datatype Slot = Empty | Used(task: Task)

  type Table = s: seq<Slot> | |s| == NR_TASKS witness seq(NR_TASKS, _ => Empty)

  /** Slot 0 holds the idle task, whose state is never looked at. */
  predicate Runnable(tasks: Table, i: int) {
    0 < i < NR_TASKS && tasks[i].Used? && tasks[i].task.state == Running
  }

  function Counter(tasks: Table, i: int): int {
    if 0 <= i < NR_TASKS && tasks[i].Used? then tasks[i].task.counter else 0
  }

  function Priority(tasks: Table, i: int): int {
    if 0 <= i < NR_TASKS && tasks[i].Used? then tasks[i].task.priority else 0
  }

  /** There is an idle task, no slice is negative, and every task has a priority. */
  ghost predicate Fit(tasks: Table) {
    tasks[0].Used? &&
    forall i {:trigger tasks[i]} :: 0 <= i < NR_TASKS && tasks[i].Used? ==>
        tasks[i].task.counter >= 0 && tasks[i].task.priority > 0
  }

  datatype Cpu = Cpu(tasks: Table, current: nat, jiffies: nat)

  /** Between two events a runnable task runs, or the idle task. */
  ghost predicate Good(s: Cpu) {
    Fit(s.tasks) && (s.current == 0 || Runnable(s.tasks, s.current))
  }

  // ---------- What `schedule` does ----------

  function Checked(s: Slot, jiffies: nat): Slot {
    if s.Empty? then s
    else
      var t := if s.task.alarm != 0 && s.task.alarm < jiffies then s.task.(signal := true, alarm := 0) else s.task;
      Used(if t.signal && t.state == Interruptible then t.(state := Running) else t)
  }

  /** Due alarms are signalled, and interruptible sleepers with a signal are runnable. */
  function AllChecked(tasks: Table, jiffies: nat): Table {
    seq(NR_TASKS, i requires 0 <= i < NR_TASKS => if i == 0 then tasks[0] else Checked(tasks[i], jiffies))
  }

  /** `(counter >> 1) + priority` */
  function Refilled(s: Slot): Slot {
    if s.Used? then Used(s.task.(counter := s.task.counter / 2 + s.task.priority)) else s
  }

  function AllRefilled(tasks: Table): Table {
    seq(NR_TASKS, i requires 0 <= i < NR_TASKS => if i == 0 then tasks[0] else Refilled(tasks[i]))
  }

  /** Every runnable task has used up its slice, and there is one. */
  ghost predicate Exhausted(tasks: Table) {
    (exists i :: 0 < i < NR_TASKS && Runnable(tasks, i)) &&
    forall i {:trigger Runnable(tasks, i)} :: Runnable(tasks, i) ==> Counter(tasks, i) == 0
  }

  /** The task that is chosen: the last runnable one with the largest slice, or the idle task if none is
      runnable. */
  ghost predicate Chosen(tasks: Table, next: int) {
    if next == 0 then forall i {:trigger Runnable(tasks, i)} :: !Runnable(tasks, i)
    else
      Runnable(tasks, next) && Counter(tasks, next) > 0 &&
      forall i {:trigger Runnable(tasks, i)} :: Runnable(tasks, i) ==>
        Counter(tasks, i) <= Counter(tasks, next) && (i > next ==> Counter(tasks, i) < Counter(tasks, next))
  }

  ghost predicate Scheduled(s: Cpu, s': Cpu) {
    var a := AllChecked(s.tasks, s.jiffies);
    s'.tasks == (if Exhausted(a) then AllRefilled(a) else a) && Chosen(s'.tasks, s'.current) && s'.jiffies == s.jiffies
  }

  /** What becomes of a task when `schedule` is called: a due alarm is cleared and signalled, a signalled sleeper that
      may be interrupted is runnable, and a new slice is the priority and half of what was left. */
  predicate Turned(o: Task, n: Task, jiffies: nat, refilled: bool) {
    var due := 0 < o.alarm < jiffies;
    && n.alarm == (if due then 0 else o.alarm)
    && n.signal == (due || o.signal)
    && n.state == (if o.state == Interruptible && (due || o.signal) then Running else o.state)
    && n.counter == (if refilled then o.counter / 2 + o.priority else o.counter)
    && n.priority == o.priority
  }

  /** Slot by slot; the idle task is left alone. */
  ghost predicate AllTurned(old_: Table, new_: Table, jiffies: nat, refilled: bool) {
    new_[0] == old_[0] &&
    forall i {:trigger new_[i]} :: 0 < i < NR_TASKS ==>
      new_[i].Used? == old_[i].Used? && (old_[i].Used? ==> Turned(old_[i].task, new_[i].task, jiffies, refilled))
  }

  lemma ScheduledTurned(s: Cpu, s': Cpu)
    requires Scheduled(s, s')
    ensures AllTurned(s.tasks, s'.tasks, s.jiffies, Exhausted(AllChecked(s.tasks, s.jiffies)))
  {
  }

  // ---------- Events ----------

  datatype Event =
    | Tick(user: bool)            // the clock interrupts a process, or the kernel
    | Resched                     // `schedule` on the way back to a process
    | Sleep(state: State)         // the running task goes to sleep
    | Wake(i: nat)                // a sleeping task is made runnable
    | Fork(nr: nat)               // the running task gets a child in slot `nr`
    | Nice(increment: int)
    | Alarm(seconds: int)
    | Signal(i: nat)
    | Exit(orphan: bool)          // without a father to wait for it, the task is released at once
    | Release(i: nat)

  predicate Enabled(s: Cpu, e: Event)
    requires s.current < NR_TASKS
  {
    match e
    case Sleep(st) => st == Interruptible || (st == Uninterruptible && s.current != 0)   // "task[0] trying to sleep"
    case Wake(i) => 0 < i < NR_TASKS && s.tasks[i].Used? &&
        (s.tasks[i].task.state == Interruptible || s.tasks[i].task.state == Uninterruptible)
    case Fork(nr) => 0 < nr < NR_TASKS && s.tasks[nr].Empty?
    case Signal(i) => 0 < i < NR_TASKS && s.tasks[i].Used?
    case Exit(_) => s.current != 0
    case Release(i) => 0 < i < NR_TASKS && s.tasks[i].Used? && s.tasks[i].task.state == Zombie
    case _ => true
  }

  function With(s: Cpu, i: nat, t: Task): Cpu
    requires i < NR_TASKS
  {
    s.(tasks := s.tasks[i := Used(t)])
  }

  function Max(a: int, b: int): int {
    if a < b then b else a
  }

  /** The running task has used a unit of its slice, if there was one left. */
  function Ticked(s: Cpu): Cpu
    requires s.current < NR_TASKS && s.tasks[s.current].Used?
  {
    var t := s.tasks[s.current].task;
    With(s, s.current, t.(counter := Max(t.counter - 1, 0))).(jiffies := s.jiffies + 1)
  }

  /** `sys_nice` */
  function Niced(t: Task, increment: int): Task {
    if t.priority - increment > 0 then t.(priority := t.priority - increment) else t
  }

  ghost predicate Steps(s: Cpu, e: Event, s': Cpu) {
    s.current < NR_TASKS && s.tasks[s.current].Used? && Enabled(s, e) &&
    var t := s.tasks[s.current].task;
    match e
    case Tick(user) => if user && Counter(Ticked(s).tasks, s.current) == 0 then Scheduled(Ticked(s), s')
        else s' == Ticked(s)
    case Resched => Scheduled(s, s')
    case Sleep(st) => Scheduled(With(s, s.current, t.(state := st)), s')
    case Wake(i) => s' == With(s, i, s.tasks[i].task.(state := Running))
    case Fork(nr) => s' == With(s, nr, Task(Running, t.priority, t.priority, 0, false))
    case Nice(increment) => s' == With(s, s.current, Niced(t, increment))
    case Alarm(seconds) => s' == With(s, s.current, t.(alarm := if seconds > 0 then s.jiffies + HZ * seconds else 0))
    case Signal(i) => s' == With(s, i, s.tasks[i].task.(signal := true))
    case Exit(orphan) => Scheduled(s.(tasks := s.tasks[s.current := if orphan then Empty
        else Used(t.(state := Zombie))]), s')
    case Release(i) => s' == s.(tasks := s.tasks[i := Empty])
  }

  // ---------- The kernel ----------

  class Machine {
    var task: Table
    var current: nat
    var jiffies: nat

    function Snap(): Cpu
      reads this
    {
      Cpu(task, current, jiffies)
    }

    /** Only the idle task exists. */
    constructor ()
      ensures Good(Snap()) && current == 0 && task[0] == Used(Task(Running, 15, 15, 0, false))
      ensures forall i {:trigger task[i]} :: 0 < i < NR_TASKS ==> task[i].Empty?
    {
      task := seq(NR_TASKS, i => if i == 0 then Used(Task(Running, 15, 15, 0, false)) else Empty);
      current, jiffies := 0, 0;
    }

    /** The first loop of `schedule`. */
    method CheckAlarms()
      modifies this`task
      ensures task == AllChecked(old(task), jiffies)
    {
      var p: nat := NR_TASKS - 1;
      while p > 0
        invariant 0 <= p < NR_TASKS
        invariant forall i {:trigger task[i]} :: 0 <= i < NR_TASKS ==>
            task[i] == if i > p then Checked(old(task)[i], jiffies) else old(task)[i]
      {
        if task[p].Used? {
          var t := task[p].task;
          if t.alarm != 0 && t.alarm < jiffies {
            t := t.(signal := true, alarm := 0);
          }
          if t.signal && t.state == Interruptible {
            t := t.(state := Running);
          }
          task := task[p := Used(t)];
        }
        p := p - 1;
      }
    }

    /** One round of the selection: the largest slice of a runnable task, or -1 and the idle task. */
    method Select() returns (c: int, next: nat)
      ensures next < NR_TASKS
      ensures if next == 0 then c == -1 else Runnable(task, next) && c == Counter(task, next) > -1
      ensures forall i {:trigger Runnable(task, i)} :: Runnable(task, i) ==>
                Counter(task, i) <= c && (i > next ==> Counter(task, i) < c || next == 0)
    {
      c := -1;
      next := 0;
      var i: nat := NR_TASKS;
      i := i - 1;
      while i > 0
        invariant 0 <= i < NR_TASKS && next < NR_TASKS && (next == 0 || next > i)
        invariant if next == 0 then c == -1 else Runnable(task, next) && c == Counter(task, next) > -1
        invariant forall j {:trigger Runnable(task, j)} :: j > i && Runnable(task, j) ==>
                    Counter(task, j) <= c && (j > next ==> Counter(task, j) < c || next == 0)
      {
        if task[i].Used? && task[i].task.state == Running && task[i].task.counter > c {
          c, next := task[i].task.counter, i;
        }
        i := i - 1;
      }
    }

    /** New slices for everybody but the idle task. */
    method Refill()
      modifies this`task
      ensures task == AllRefilled(old(task))
    {
      var p: nat := NR_TASKS - 1;
      while p > 0
        invariant 0 <= p < NR_TASKS
        invariant forall i {:trigger task[i]} :: 0 <= i < NR_TASKS ==>
            task[i] == if i > p then Refilled(old(task)[i]) else old(task)[i]
      {
        if task[p].Used? {
          task := task[p := Used(task[p].task.(counter := task[p].task.counter / 2 + task[p].task.priority))];
        }
        p := p - 1;
      }
    }

    /** `schedule`: at most two rounds, and slices are given out only when all are used up. */
    method Schedule() returns (ghost rounds: nat)
      requires Fit(task)
      modifies this`task, this`current
      ensures Fit(task) && current < NR_TASKS && Scheduled(old(Snap()), Snap())
      ensures 1 <= rounds <= 2 && (rounds == 2 <==> Exhausted(AllChecked(old(task), jiffies)))
      ensures AllTurned(old(task), task, jiffies, rounds == 2)
    {
      CheckAlarms();
      ghost var a := task;
      assert forall i {:trigger a[i]} :: 0 <= i < NR_TASKS ==>
          a[i] == (if i == 0 then old(task)[0] else Checked(old(task)[i], jiffies));
      var next: nat;
      rounds := 0;
      while true
        invariant rounds <= 1 && Fit(task)
        invariant if rounds == 0 then task == a else Exhausted(a) && task == AllRefilled(a)
        decreases 1 - rounds
      {
        var c: int;
        c, next := Select();
        rounds := rounds + 1;
        if c != 0 {
          break;
        }
        Refill();
      }
      current := next;
    }

    /** `do_timer`, with the count of the clock interrupt; `user` if it came from a process. */
    method DoTimer(user: bool)
      requires Good(Snap())
      modifies this
      ensures Good(Snap()) && Steps(old(Snap()), Tick(user), Snap())
    {
      jiffies := jiffies + 1;
      var c := task[current].task.counter - 1;
      task := task[current := Used(task[current].task.(counter := c))];
      if c > 0 {
        return;
      }
      task := task[current := Used(task[current].task.(counter := 0))];
      ghost var t := Snap();
      assert t == Ticked(old(Snap()));
      assert Good(t) by { FitWith(old(Snap()), current, task[current].task); }
      if !user {
        return;
      }
      ghost var rounds := Schedule();
    }

    /** The counter set-up of `copy_process`. */
    method CopyProcess(nr: nat)
      requires Good(Snap()) && Enabled(Snap(), Fork(nr))
      modifies this`task
      ensures Good(Snap()) && Steps(old(Snap()), Fork(nr), Snap())
    {
      var p := task[current].task;
      p := p.(state := Running);
      p := p.(counter := p.priority);
      p := p.(signal := false);
      p := p.(alarm := 0);
      task := task[nr := Used(p)];
      FitWith(old(Snap()), nr, p);
    }

    /** Any event that can happen. */
    method Step(e: Event)
      requires Good(Snap()) && Enabled(Snap(), e)
      modifies this
      ensures Good(Snap()) && Steps(old(Snap()), e, Snap())
    {
      ghost var s := Snap();
      var t := task[current].task;
      ghost var rounds: nat;
      match e {
        case Tick(user) =>
          DoTimer(user);
        case Resched =>
          rounds := Schedule();
        case Sleep(st) =>
          task := task[current := Used(t.(state := st))];
          FitWith(s, current, t.(state := st));
          rounds := Schedule();
        case Wake(i) =>
          task := task[i := Used(task[i].task.(state := Running))];
          FitWith(s, i, task[i].task);
        case Fork(nr) =>
          CopyProcess(nr);
        case Nice(increment) =>
          if t.priority - increment > 0 {
            task := task[current := Used(t.(priority := t.priority - increment))];
          }
          FitWith(s, current, task[current].task);
        case Alarm(seconds) =>
          task := task[current := Used(t.(alarm := if seconds > 0 then jiffies + HZ * seconds else 0))];
          FitWith(s, current, task[current].task);
        case Signal(i) =>
          task := task[i := Used(task[i].task.(signal := true))];
          FitWith(s, i, task[i].task);
        case Exit(orphan) =>
          task := task[current := if orphan then Empty else Used(t.(state := Zombie))];
          FitWithout(s, current, task);
          rounds := Schedule();
        case Release(i) =>
          task := task[i := Empty];
          FitWithout(s, i, task);
      }
    }

    /** Those of the events that can happen, one after the other. */
    method Run(es: seq<Event>) returns (ghost run: seq<Cpu>, ghost done: seq<Event>)
      requires Good(Snap())
      modifies this
      ensures IsRun(run, done) && run[0] == old(Snap()) && run[|done|] == Snap()
    {
      hide Steps;
      run, done := [Snap()], [];
      for j := 0 to |es|
        invariant IsRun(run, done) && run[0] == old(Snap()) && run[|done|] == Snap() && Good(Snap())
      {
        if Enabled(Snap(), es[j]) {
          Step(es[j]);
          RunMore(run, done, es[j], Snap());
          run, done := run + [Snap()], done + [es[j]];
        }
      }
    }
  }

  lemma FitWith(s: Cpu, i: nat, t: Task)
    requires Fit(s.tasks) && i < NR_TASKS && t.counter >= 0 && t.priority > 0
    ensures Fit(With(s, i, t).tasks)
  {
    var u := With(s, i, t).tasks;
    forall j | 0 <= j < NR_TASKS && u[j].Used? ensures u[j].task.counter >= 0 && u[j].task.priority > 0 {
      assert s.tasks[j] == s.tasks[j];
    }
  }

  lemma FitWithout(s: Cpu, i: nat, r: Table)
    requires Fit(s.tasks) && 0 < i < NR_TASKS && s.tasks[i].Used?
    requires r == s.tasks[i := Empty] || r == s.tasks[i := Used(s.tasks[i].task.(state := Zombie))]
    ensures Fit(r)
  {
    forall j | 0 <= j < NR_TASKS && r[j].Used? ensures r[j].task.counter >= 0 && r[j].task.priority > 0 {
      assert s.tasks[j] == s.tasks[j];
    }
  }

  // ---------- Slices are bounded ----------

  /** The slice is twice the priority, or more. */
  predicate Broken(tasks: Table, i: nat) {
    i < NR_TASKS && tasks[i].Used? && tasks[i].task.counter >= 2 * tasks[i].task.priority
  }

  ghost predicate Bounded(tasks: Table) {
    forall i {:trigger Broken(tasks, i)} :: !Broken(tasks, i)
  }

  /** A call of `nice` that makes the priority too small for the slice. */
  predicate TooNice(s: Cpu, e: Event) {
    e.Nice? && 0 < Priority(s.tasks, s.current) - e.increment &&
    Counter(s.tasks, s.current) >= 2 * (Priority(s.tasks, s.current) - e.increment)
  }

  /** Is the bound of slot `i` broken after event `e`? */
  predicate BrokenBy(s: Cpu, e: Event, i: nat) {
    match e
    case Nice(increment) => if i == s.current &&
        0 < Priority(s.tasks, i) - increment then TooNice(s, e) else Broken(s.tasks, i)
    case Tick(_) => if i == s.current then Counter(s.tasks, i) - 1 >= 2 * Priority(s.tasks, i) else Broken(s.tasks, i)
    case Fork(nr) => i != nr && Broken(s.tasks, i)
    case Exit(orphan) => !(orphan && i == s.current) && Broken(s.tasks, i)
    case Release(j) => i != j && Broken(s.tasks, i)
    case _ => Broken(s.tasks, i)
  }

  /** New slices restore nothing: who has used up his slice was within the bound, and the others stay on
      their side of it. */
  lemma ScheduledBroken(s: Cpu, s': Cpu, i: nat)
    requires Fit(s.tasks) && Scheduled(s, s')
    ensures Broken(s'.tasks, i) <==> Broken(s.tasks, i)
  {
    if i < NR_TASKS {
      var a := AllChecked(s.tasks, s.jiffies);
      assert a[i] == if i == 0 then s.tasks[0] else Checked(s.tasks[i], s.jiffies);
      assert Exhausted(a) ==> s'.tasks[i] == if i == 0 then a[0] else Refilled(a[i]);
    }
  }

  /** What an event does to the bound, exactly. */
  lemma BrokenAfter(s: Cpu, e: Event, s': Cpu, i: nat)
    requires Good(s) && Steps(s, e, s')
    ensures Broken(s'.tasks, i) <==> BrokenBy(s, e, i)
  {
    var t := s.tasks[s.current].task;
    match e {
      case Tick(user) =>
        FitWith(s, s.current, Ticked(s).tasks[s.current].task);
        if user && Counter(Ticked(s).tasks, s.current) == 0 {
          ScheduledBroken(Ticked(s), s', i);
        }
      case Resched =>
        ScheduledBroken(s, s', i);
      case Sleep(st) =>
        FitWith(s, s.current, t.(state := st));
        ScheduledBroken(With(s, s.current, t.(state := st)), s', i);
      case Exit(orphan) =>
        var r := s.tasks[s.current := if orphan then Empty else Used(t.(state := Zombie))];
        FitWithout(s, s.current, r);
        ScheduledBroken(s.(tasks := r), s', i);
      case _ =>
    }
  }

  ghost predicate StepAt(run: seq<Cpu>, es: seq<Event>, k: nat) {
    k < |es| && k + 1 < |run| && Steps(run[k], es[k], run[k + 1]) && Good(run[k + 1])
  }

  ghost predicate IsRun(run: seq<Cpu>, es: seq<Event>) {
    |run| == |es| + 1 && Good(run[0]) && forall k: nat {:trigger StepAt(run, es, k)} :: k < |es| ==> StepAt(run, es, k)
  }

  lemma RunMore(run: seq<Cpu>, es: seq<Event>, e: Event, s': Cpu)
    requires IsRun(run, es) && Steps(run[|es|], e, s') && Good(s')
    ensures IsRun(run + [s'], es + [e])
  {
    hide Steps, Good;
    var run', es' := run + [s'], es + [e];
    forall k: nat | k < |es'| ensures StepAt(run', es', k) {
      assert k < |es| ==> StepAt(run, es, k);
    }
  }

  ghost predicate AllBounded(run: seq<Cpu>) {
    forall k {:trigger run[k]} :: 0 <= k < |run| ==> Bounded(run[k].tasks)
  }

  predicate NiceEnough(run: seq<Cpu>, es: seq<Event>) {
    forall k {:trigger es[k]} :: 0 <= k < |es| && k < |run| ==> !TooNice(run[k], es[k])
  }

  /** Over any run, every slice stays below twice the priority if and only if nobody is too nice. */
  lemma {:induction false} BoundKept(run: seq<Cpu>, es: seq<Event>)
    requires IsRun(run, es) && Bounded(run[0].tasks)
    ensures AllBounded(run) <==> NiceEnough(run, es)
    decreases |es|
  {
    hide Steps, Good, Bounded, TooNice;
    var n := |es|;
    if n == 0 {
      assert AllBounded(run);
    } else {
      RunPart(run, es);
      BoundKept(run[..n], es[..n - 1]);
      LastBounded(run, es);
      assert run[..n][n - 1] == run[n - 1];
      if Bounded(run[n - 1].tasks) {
        BoundAfter(run[n - 1], es[n - 1], run[n]);
      }
    }
  }

  lemma BoundAfter(s: Cpu, e: Event, s': Cpu)
    requires Good(s) && Steps(s, e, s') && Bounded(s.tasks)
    ensures Bounded(s'.tasks) <==> !TooNice(s, e)
  {
    hide Steps, Good;
    BrokenAfter(s, e, s', s.current);
    if !TooNice(s, e) {
      forall i ensures !Broken(s'.tasks, i) {
        BrokenAfter(s, e, s', i);
        assert !Broken(s.tasks, i);
      }
    }
  }

  lemma LastBounded(run: seq<Cpu>, es: seq<Event>)
    requires |run| == |es| + 1 && es != []
    ensures AllBounded(run) <==> AllBounded(run[..|es|]) && Bounded(run[|es|].tasks)
    ensures NiceEnough(run, es) <==> NiceEnough(run[..|es|], es[..|es| - 1]) && !TooNice(run[|es| - 1], es[|es| - 1])
    ensures AllBounded(run[..|es|]) ==> Bounded(run[|es| - 1].tasks)
  {
    hide Bounded, TooNice;
    var run', es' := run[..|es|], es[..|es| - 1];
    assert forall k :: 0 <= k < |es| ==> run'[k] == run[k];
    assert forall k :: 0 <= k < |es| - 1 ==> es'[k] == es[k];
    assert run'[|es| - 1] == run[|es| - 1];
  }

  lemma RunPart(run: seq<Cpu>, es: seq<Event>)
    requires IsRun(run, es) && es != []
    ensures IsRun(run[..|es|], es[..|es| - 1])
    ensures Good(run[|es| - 1]) && Steps(run[|es| - 1], es[|es| - 1], run[|es|]) && Good(run[|es|])
  {
    hide Steps, Good;
    var n := |es|;
    var run', es' := run[..n], es[..n - 1];
    forall k: nat | k < |es'| ensures StepAt(run', es', k) {
      assert StepAt(run, es, k);
    }
    assert run'[0] == run[0];
    assert StepAt(run, es, n - 1) && (n > 1 ==> StepAt(run, es, n - 2));
  }

  /** Slot `i` does not run, and keeps its task. */
  predicate SetAside(s: Cpu, e: Event, i: nat) {
    s.current != i && e != Fork(i) && e != Release(i)
  }

  /** Only time repairs a broken bound: while the task does not run it stays broken, whatever slices are
      given out. */
  lemma {:induction false} StaysBroken(run: seq<Cpu>, es: seq<Event>, i: nat)
    requires IsRun(run, es) && Broken(run[0].tasks, i)
    requires forall k {:trigger es[k]} :: 0 <= k < |es| ==> SetAside(run[k], es[k], i)
    ensures Broken(run[|es|].tasks, i)
    decreases |es|
  {
    hide Steps, Good, Broken, BrokenBy;
    var n := |es|;
    if n > 0 {
      RunPart(run, es);
      var run', es' := run[..n], es[..n - 1];
      forall k {:trigger es'[k]} | 0 <= k < |es'| ensures SetAside(run'[k], es'[k], i) {
        assert es'[k] == es[k] && run'[k] == run[k];
      }
      StaysBroken(run', es', i);
      assert SetAside(run[n - 1], es[n - 1], i);
      AsideStays(run[n - 1], es[n - 1], run[n], i);
    }
  }

  lemma AsideStays(s: Cpu, e: Event, s': Cpu, i: nat)
    requires Good(s) && Steps(s, e, s') && SetAside(s, e, i)
    ensures Broken(s'.tasks, i) <==> Broken(s.tasks, i)
  {
    hide Steps, Good;
    BrokenAfter(s, e, s', i);
    match e {
      case Nice(_) =>
      case Tick(_) =>
      case _ =>
    }
  }

  /** A child of the first task lowers its priority by 10 before it has used its slice. */
  method BreakBound() returns (m: Machine)
    ensures fresh(m) && Good(m.Snap()) && m.task[1] == Used(Task(Running, 15, 5, 0, false)) && Broken(m.task, 1)
  {
    m := new Machine();
    m.Step(Fork(1));
    assert forall i :: Runnable(m.task, i) <==> i == 1;
    ghost var s := m.Snap();
    m.Step(Resched);
    assert AllChecked(s.tasks, s.jiffies)[1] == s.tasks[1] && Runnable(AllChecked(s.tasks, s.jiffies), 1);
    assert forall i {:trigger m.task[i]} :: 1 < i < NR_TASKS ==> m.task[i] == Checked(s.tasks[i], s.jiffies);
    m.Step(Nice(10));
  }

  // ---------- Nobody waits for ever ----------

  function Counters(tasks: Table): (v: seq<int>)
    ensures |v| == NR_TASKS && forall i {:trigger v[i]} :: 0 <= i < NR_TASKS ==> v[i] == Counter(tasks, i)
  {
    seq(NR_TASKS, i => Counter(tasks, i))
  }

  function Priorities(tasks: Table): (v: seq<int>)
    ensures |v| == NR_TASKS && forall i {:trigger v[i]} :: 0 <= i < NR_TASKS ==> v[i] == Priority(tasks, i)
  {
    seq(NR_TASKS, i => Priority(tasks, i))
  }

  /** The sum of what belongs to the tasks in `others`, below slot `n`. */
  function Total(v: seq<int>, others: set<nat>, n: nat): int
    requires n <= |v|
  {
    if n == 0 then 0 else Total(v, others, n - 1) + if n - 1 in others then v[n - 1] else 0
  }

  lemma {:induction false} TotalLess(u: seq<int>, v: seq<int>, others: set<nat>, n: nat, k: nat, d: int)
    requires n <= |u| == |v|
    requires forall i {:trigger u[i]} :: 0 <= i < n && i in others ==> u[i] + (if i == k then d else 0) <= v[i]
    ensures Total(u, others, n) + (if k in others && k < n then d else 0) <= Total(v, others, n)
  {
    if n > 0 {
      TotalLess(u, v, others, n - 1, k, d);
      assert n - 1 in others ==> u[n - 1] + (if n - 1 == k then d else 0) <= v[n - 1];
    }
  }

  lemma {:induction false} TotalSum(u: seq<int>, v: seq<int>, w: seq<int>, others: set<nat>, n: nat)
    requires n <= |u| == |v| == |w|
    requires forall i {:trigger u[i]} :: 0 <= i < n && i in others ==> u[i] <= v[i] + w[i]
    ensures Total(u, others, n) <= Total(v, others, n) + Total(w, others, n)
  {
    if n > 0 {
      TotalSum(u, v, w, others, n - 1);
      assert n - 1 in others ==> u[n - 1] <= v[n - 1] + w[n - 1];
    }
  }

  lemma {:induction false} TotalPositive(v: seq<int>, others: set<nat>, n: nat)
    requires n <= |v| && forall i {:trigger v[i]} :: 0 <= i < n ==> v[i] >= 0
    ensures Total(v, others, n) >= 0
  {
    if n > 0 {
      TotalPositive(v, others, n - 1);
      assert v[n - 1] >= 0;
    }
  }

  /** How many user ticks can still pass before `t` runs, if no other tasks than `others` and the idle task run
      before: their slices; their next slices if `t` has used up its own; and one tick more if the
      kernel has used up the slice of the running task. */
  function Waiting(s: Cpu, t: nat, others: set<nat>): int {
    Total(Counters(s.tasks), others, NR_TASKS)
    + (if Counter(s.tasks, t) > 0 then 0 else Total(Priorities(s.tasks), others, NR_TASKS))
    + (if s.current == 0 then Counter(s.tasks, 0) else 0)
    + (if Counter(s.tasks, s.current) > 0 then 0 else 1)
  }

  /** What two tables have in common if one of them holds the same tasks, or fewer, with no larger slices. */
  ghost predicate NoMore(tasks: Table, r: Table) {
    forall i :: 0 <= i < NR_TASKS ==> Counter(r, i) <= Counter(tasks, i) && Priority(r, i) <= Priority(tasks, i)
  }

  lemma NoMoreTotal(tasks: Table, r: Table, others: set<nat>)
    requires NoMore(tasks, r)
    ensures Total(Counters(r), others, NR_TASKS) <= Total(Counters(tasks), others, NR_TASKS)
    ensures Total(Priorities(r), others, NR_TASKS) <= Total(Priorities(tasks), others, NR_TASKS)
  {
    assert forall i {:trigger Counters(r)[i]} :: 0 <= i < NR_TASKS ==> Counter(r, i) <= Counter(tasks, i);
    assert forall i {:trigger Priorities(r)[i]} :: 0 <= i < NR_TASKS ==> Priority(r, i) <= Priority(tasks, i);
    TotalLess(Counters(r), Counters(tasks), others, NR_TASKS, NR_TASKS, 0);
    TotalLess(Priorities(r), Priorities(tasks), others, NR_TASKS, NR_TASKS, 0);
  }

  /** New slices are no more than the old ones and the priorities. */
  lemma RefilledTotal(a: Table, others: set<nat>)
    requires Fit(a)
    ensures Total(Counters(AllRefilled(a)), others, NR_TASKS) <= Total(Counters(a), others, NR_TASKS) +
        Total(Priorities(a), others, NR_TASKS)
  {
    var r := AllRefilled(a);
    forall i {:trigger Counters(r)[i]} | 0 <= i < NR_TASKS ensures Counters(r)[i] <= Counters(a)[i] + Priorities(a)[i] {
      assert r[i] == if i == 0 then a[0] else Refilled(a[i]);
    }
    TotalSum(Counters(r), Counters(a), Priorities(a), others, NR_TASKS);
  }

  /** Once `schedule` has been called a task with a slice runs, for `t` could. */
  lemma ScheduledNearer(s: Cpu, s': Cpu, t: nat, others: set<nat>)
    requires Fit(s.tasks) && Runnable(s.tasks, t) && Scheduled(s, s')
    ensures Fit(s'.tasks) && Runnable(s'.tasks, t) && s'.current != 0
    ensures Waiting(s', t, others) <=
            Total(Counters(s.tasks), others, NR_TASKS) +
            (if Counter(s.tasks, t) > 0 then 0 else Total(Priorities(s.tasks), others, NR_TASKS))
  {
    var a := AllChecked(s.tasks, s.jiffies);
    forall i | 0 <= i < NR_TASKS
      ensures a[i] == (if i == 0 then s.tasks[0] else Checked(s.tasks[i], s.jiffies))
      ensures Counter(a, i) == Counter(s.tasks, i) && Priority(a, i) == Priority(s.tasks, i)
      ensures a[i].Used? ==> a[i].task.counter >= 0 && a[i].task.priority > 0
    {
    }
    assert NoMore(s.tasks, a) && Fit(a) && Runnable(a, t);
    NoMoreTotal(s.tasks, a, others);
    forall i {:trigger s'.tasks[i]} | 0 <= i < NR_TASKS
      ensures s'.tasks[i] == if Exhausted(a) && i > 0 then Refilled(a[i]) else a[i]
    {
    }
    assert Fit(s'.tasks) by {
      forall i | 0 <= i < NR_TASKS && s'.tasks[i].Used?
          ensures s'.tasks[i].task.counter >= 0 && s'.tasks[i].task.priority > 0 {
        assert a[i] == a[i];
      }
    }
    assert Runnable(s'.tasks, t);
    RefilledTotal(a, others);
  }

  /** One of `others` or the idle task runs, and no task is made. */
  predicate Passes(s: Cpu, e: Event, t: nat, others: set<nat>) {
    !e.Fork? && s.current != t && (s.current == 0 || s.current in others)
  }

  /** By how much a call of `nice` can make the wait of `t` longer: if `t` has used up its slice, by what the
      priority of the running task gains. */
  function Raised(s: Cpu, e: Event, t: nat): nat {
    if e.Nice? && e.increment < 0 && Counter(s.tasks, t) == 0 && s.current != 0 then -e.increment else 0
  }

  /** An event before `t` runs makes the wait longer only if it raises a priority while the slice of `t` is used up,
      and then by no more than that; a user tick makes it shorter. */
  lemma TickNearer(s: Cpu, e: Event, s': Cpu, t: nat, others: set<nat>)
    requires Good(s) && Steps(s, e, s') && Runnable(s.tasks, t) && Passes(s, e, t, others) && 0 !in others &&
        t !in others
    ensures Runnable(s'.tasks, t)
    ensures Waiting(s', t, others) + (if e == Tick(true) then 1 else 0) <= Waiting(s, t, others) + Raised(s, e, t)
  {
    var c := s.tasks[s.current].task;
    match e {
      case Tick(user) =>
        var u := Ticked(s);
        FitWith(s, s.current, u.tasks[s.current].task);
        TickTotal(s, others);
        assert Runnable(u.tasks, t) && Counter(u.tasks, t) == Counter(s.tasks, t);
        assert s.tasks[s.current] == s.tasks[s.current];
        if user && Counter(u.tasks, s.current) == 0 {
          ScheduledNearer(u, s', t, others);
        }
      case Resched =>
        ScheduledNearer(s, s', t, others);
        assert s.tasks[s.current] == s.tasks[s.current];
      case Sleep(st) =>
        var u := With(s, s.current, c.(state := st));
        FitWith(s, s.current, c.(state := st));
        OthersLess(s, u, s.current, t, others);
        ScheduledNearer(u, s', t, others);
      case Exit(orphan) =>
        var u := s.(tasks := s.tasks[s.current := if orphan then Empty else Used(c.(state := Zombie))]);
        FitWithout(s, s.current, u.tasks);
        OthersLess(s, u, s.current, t, others);
        ScheduledNearer(u, s', t, others);
      case Wake(i) =>
        OthersLess(s, s', i, t, others);
      case Nice(increment) =>
        NiceTotal(s, increment, s', t, others);
      case Alarm(_) =>
        OthersLess(s, s', s.current, t, others);
      case Signal(i) =>
        OthersLess(s, s', i, t, others);
      case Release(i) =>
        OthersLess(s, s', i, t, others);
    }
  }

  /** `nice` changes one priority and no slice. */
  lemma NiceTotal(s: Cpu, increment: int, s': Cpu, t: nat, others: set<nat>)
    requires Good(s) && Steps(s, Nice(increment), s') && Runnable(s.tasks, t) && t != s.current && 0 !in others
    ensures Runnable(s'.tasks, t) && Waiting(s', t, others) <= Waiting(s, t, others) + Raised(s, Nice(increment), t)
  {
    var c := s.tasks[s.current].task;
    var d := if c.priority - increment > 0 then increment else 0;
    forall i | 0 <= i < NR_TASKS
      ensures Counter(s'.tasks, i) == Counter(s.tasks, i)
      ensures Priority(s'.tasks, i) + (if i == s.current then d else 0) == Priority(s.tasks, i)
    {
      assert s.tasks[i] == s.tasks[i] && s'.tasks[i] == s'.tasks[i];
    }
    TotalLess(Counters(s'.tasks), Counters(s.tasks), others, NR_TASKS, 0, 0);
    TotalLess(Priorities(s'.tasks), Priorities(s.tasks), others, NR_TASKS, s.current, d);
  }

  lemma TickTotal(s: Cpu, others: set<nat>)
    requires Good(s) && 0 !in others && (s.current == 0 || s.current in others)
    ensures var u, d := Ticked(s), if s.current != 0 && Counter(s.tasks, s.current) > 0 then 1 else 0;
            && Total(Counters(u.tasks), others, NR_TASKS) + d <= Total(Counters(s.tasks), others, NR_TASKS)
            && Total(Priorities(u.tasks), others, NR_TASKS) <= Total(Priorities(s.tasks), others, NR_TASKS)
  {
    var u, d := Ticked(s), if s.current != 0 && Counter(s.tasks, s.current) > 0 then 1 else 0;
    forall i | 0 <= i < NR_TASKS
      ensures Counter(u.tasks, i) <= Counter(s.tasks, i) && Priority(u.tasks, i) <= Priority(s.tasks, i)
    {
      assert s.tasks[i] == s.tasks[i];
    }
    NoMoreTotal(s.tasks, u.tasks, others);
    forall i {:trigger Counters(u.tasks)[i]} | 0 <= i < NR_TASKS && i in others
      ensures Counters(u.tasks)[i] + (if i == s.current then d else 0) <= Counters(s.tasks)[i]
    {
    }
    TotalLess(Counters(u.tasks), Counters(s.tasks), others, NR_TASKS, s.current, d);
  }

  /** One task has got another state, or has gone. */
  lemma OthersLess(s: Cpu, u: Cpu, i: nat, t: nat, others: set<nat>)
    requires Good(s) && i < NR_TASKS && u.current == s.current && Runnable(s.tasks, t)
    requires u.tasks == s.tasks[i := u.tasks[i]]
    requires u.tasks[i].Empty? ==> i != t
    requires u.tasks[i].Used? ==>
               s.tasks[i].Used? && u.tasks[i].task.counter == s.tasks[i].task.counter &&
                   u.tasks[i].task.priority == s.tasks[i].task.priority
    ensures Total(Counters(u.tasks), others, NR_TASKS) <= Total(Counters(s.tasks), others, NR_TASKS)
    ensures Total(Priorities(u.tasks), others, NR_TASKS) <= Total(Priorities(s.tasks), others, NR_TASKS)
    ensures Counter(u.tasks, t) == Counter(s.tasks, t)
    ensures u.tasks[i].Used? ==> Counter(u.tasks, i) == Counter(s.tasks, i)
  {
    assert NoMore(s.tasks, u.tasks) by {
      forall j | 0 <= j < NR_TASKS
        ensures Counter(u.tasks, j) <= Counter(s.tasks, j) && Priority(u.tasks, j) <= Priority(s.tasks, j)
      {
        assert s.tasks[j] == s.tasks[j];
      }
    }
    NoMoreTotal(s.tasks, u.tasks, others);
  }

  function UserTicks(es: seq<Event>): nat {
    if es == [] then 0 else UserTicks(es[..|es| - 1]) + if es[|es| - 1] == Tick(true) then 1 else 0
  }

  /** What calls of `nice` have added to the wait of `t`. */
  function Raises(run: seq<Cpu>, es: seq<Event>, t: nat): nat
    requires |run| == |es| + 1
  {
    if es == [] then 0
    else Raises(run[..|es|], es[..|es| - 1], t) + Raised(run[|es| - 1], es[|es| - 1], t)
  }

  /** While a runnable task waits, no more user ticks pass than `Waiting` says, and calls of `nice` add, whatever
      the kernel, the sleepers and the alarms do meanwhile; only no task is made. */
  lemma {:induction false} WaitBound(run: seq<Cpu>, es: seq<Event>, t: nat, others: set<nat>)
    requires IsRun(run, es) && Runnable(run[0].tasks, t) && 0 !in others && t !in others
    requires forall k {:trigger es[k]} :: 0 <= k < |es| ==> Passes(run[k], es[k], t, others)
    ensures UserTicks(es) <= Waiting(run[0], t, others) + Raises(run, es, t)
    ensures Runnable(run[|es|].tasks, t)
    ensures UserTicks(es) + Waiting(run[|es|], t, others) <= Waiting(run[0], t, others) + Raises(run, es, t)
    decreases |es|
  {
    hide Steps, Good, Waiting, Raised;
    var n := |es|;
    if n > 0 {
      RunPart(run, es);
      var run', es' := run[..n], es[..n - 1];
      forall k {:trigger es'[k]} | 0 <= k < |es'| ensures Passes(run'[k], es'[k], t, others) {
        assert es'[k] == es[k] && run'[k] == run[k];
      }
      WaitBound(run', es', t, others);
      assert Passes(run[n - 1], es[n - 1], t, others);
      TickNearer(run[n - 1], es[n - 1], run[n], t, others);
    }
    WaitingPositive(run[n], t, others);
  }

  lemma WaitingPositive(s: Cpu, t: nat, others: set<nat>)
    requires Good(s)
    ensures Waiting(s, t, others) >= 0
  {
    forall i {:trigger s.tasks[i]} | 0 <= i < NR_TASKS ensures Counter(s.tasks, i) >= 0 && Priority(s.tasks, i) >= 0 {
    }
    assert forall i {:trigger Counters(s.tasks)[i]} :: 0 <= i < NR_TASKS ==> Counters(s.tasks)[i] >= 0 by {
      assert forall i :: 0 <= i < NR_TASKS ==> s.tasks[i] == s.tasks[i];
    }
    assert forall i {:trigger Priorities(s.tasks)[i]} :: 0 <= i < NR_TASKS ==> Priorities(s.tasks)[i] >= 0 by {
      assert forall i :: 0 <= i < NR_TASKS ==> s.tasks[i] == s.tasks[i];
    }
    TotalPositive(Counters(s.tasks), others, NR_TASKS);
    TotalPositive(Priorities(s.tasks), others, NR_TASKS);
  }
}
