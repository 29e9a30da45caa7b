/** The round-robin scheduler. */
module Scheduling {
  // What every run of ticks, yields, terminations and additions keeps, and how long a ready task can
  // wait.

  import opened Words

  const MAX_TASKS: nat := 4

  datatype TaskState = READY | RUNNING | BLOCKED | ZOMBIE

  /** The states of the tasks by slot, the running slot, and the reschedule flag. */
  datatype Sched = Sched(states: seq<TaskState>, current: nat, need: bool)

  /** What a yield does: nothing, a context switch, or a kernel panic. */
  datatype Outcome = Stays | Switches(from: nat, to: nat) | Panics

  // ------------------------------------------------------------------ the specification

  /** The first ready slot from the k-th after the current one on, going round once. */
  function Search(s: Sched, k: nat): (r: Option<nat>)
    requires 1 <= k <= MAX_TASKS + 1
    ensures r.Some? ==> r.value < |s.states| && s.states[r.value] == READY
    decreases MAX_TASKS + 1 - k
  {
    if k > MAX_TASKS then None
    else
      var i := (s.current + k) % MAX_TASKS;
      if i < |s.states| && s.states[i] == READY then Some(i) else Search(s, k + 1)
  }

  /** The states after `next` takes over. */
  function Handed(s: Sched, next: nat): Sched
    requires s.current < |s.states| && next < |s.states|
  {
    var states := if s.states[s.current] != ZOMBIE then s.states[s.current := READY] else s.states;
    s.(states := states[next := RUNNING], current := next)
  }

  /** The part of a yield that looks for another task and hands over to it. */
  function Reschedule(s: Sched): (Sched, Outcome)
    requires s.current < |s.states|
  {
    var f := Search(s, 1);
    if f.Some? && f.value != s.current then (Handed(s, f.value), Switches(s.current, f.value))
    else if s.states[s.current] != ZOMBIE then (s, Stays)
    else if s.states[0] != ZOMBIE then (Handed(s.(states := s.states[0 := READY]), 0), Switches(s.current, 0))
    else (s, Panics)
  }

  /** scheduler_yield. `canary` says whether the word at the bottom of the stack is intact. */
  function Yield(s: Sched, canary: bool): (Sched, Outcome)
    requires s.current < |s.states|
  {
    var s1 := s.(need := false);
    if !s.need then (s, Stays)
    else if !canary then (s1, Panics)
    else if |s.states| == 1 then (s1, Stays)
    else Reschedule(s1)
  }

  /** scheduler_terminate_task. A task that terminates itself yields at once. */
  function Terminate(s: Sched, id: nat, canary: bool): (Sched, Outcome)
    requires s.current < |s.states|
  {
    if id >= |s.states| then (s, Stays)
    else
      var s1 := s.(states := s.states[id := ZOMBIE]);
      if id != s.current then (s1, Stays) else Yield(s1.(need := true), canary)
  }

  function Add(s: Sched): Sched {
    if |s.states| >= MAX_TASKS then s else s.(states := s.states + [READY])
  }

  // ------------------------------------------------------------------ runs

  /** What happens to the scheduler once it has started. */
  datatype Event = Tick | YieldCall | Kill(id: nat) | NewTask

  function Happens(s: Sched, e: Event): (Sched, Outcome)
    requires s.current < |s.states|
  {
    match e
    case Tick => (s.(need := true), Stays)
    case YieldCall => Yield(s, true)
    case Kill(id) => Terminate(s, id, true)
    case NewTask => (Add(s), Stays)
  }

  /** At least two tasks; the current one, and only it, is running; the idle task, in slot 0, has
      not been terminated. */
  ghost predicate Inv(s: Sched) {
    && 2 <= |s.states| <= MAX_TASKS && s.current < |s.states| && s.states[s.current] == RUNNING
    && s.states[0] != ZOMBIE
    && (forall i :: 0 <= i < |s.states| && i != s.current ==> s.states[i] == READY || s.states[i] == ZOMBIE)
  }

  ghost predicate IdleSpared(e: Event) {
    e.Kill? ==> e.id != 0
  }

  /** The slot `d` places after the current one, going round. */
  function Slot(s: Sched, d: nat): nat {
    (s.current + d) % MAX_TASKS
  }

  /** No ready slot from the k-th up to but not including the d-th. */
  ghost predicate NoneBefore(s: Sched, k: nat, d: nat) {
    forall j: nat :: k <= j < d ==> !ReadyAt(s, Slot(s, j))
  }

  /** The search finds the nearest ready slot. */
  lemma {:induction false} SearchNearest(s: Sched, k: nat) returns (d: nat)
    requires 1 <= k <= MAX_TASKS + 1
    ensures k <= d <= MAX_TASKS + 1 && NoneBefore(s, k, d)
    ensures Search(s, k) == if d <= MAX_TASKS then Some(Slot(s, d)) else None
    decreases MAX_TASKS + 1 - k
  {
    if k > MAX_TASKS || ReadyAt(s, Slot(s, k)) {
      d := k;
    } else {
      d := SearchNearest(s, k + 1);
    }
  }

  predicate ReadyAt(s: Sched, i: nat) {
    i < |s.states| && s.states[i] == READY
  }

  /** How many slots after the current one slot `j` comes, going round. */
  function Distance(s: Sched, j: nat): (d: nat)
    requires s.current < MAX_TASKS && j < MAX_TASKS
    ensures d < MAX_TASKS && (s.current + d) % MAX_TASKS == j && (d == 0 <==> j == s.current)
  {
    (j + MAX_TASKS - s.current) % MAX_TASKS
  }

  /** If any task is ready the search finds one, none nearer than it. */
  lemma SearchFinds(s: Sched, j: nat)
    requires s.current < |s.states| <= MAX_TASKS && ReadyAt(s, j) && j != s.current
    ensures Search(s, 1).Some? && (!ReadyAt(s, s.current) ==> Distance(s, Search(s, 1).value) <= Distance(s, j))
  {
    hide Search, Distance;
    var n := SearchNearest(s, 1);
    var d := Distance(s, j);
    assert ReadyAt(s, Slot(s, d));
    assert n <= d;
    if !ReadyAt(s, s.current) {
      Nearest(s, n);
    }
  }

  /** Every event keeps the invariant, and none of them panics or falls back on the idle task. */
  lemma HappensKeeps(s: Sched, e: Event)
    requires Inv(s) && IdleSpared(e)
    ensures Inv(Happens(s, e).0) && !Happens(s, e).1.Panics?
    ensures Happens(s, e).1.Switches? ==> Happens(s, e).1 == Switches(s.current, Happens(s, e).0.current)
    ensures Happens(s, e).1.Switches? ==> s.states[Happens(s, e).1.to] == READY
  {
    match e
    case Kill(id) =>
      if id == s.current {
        SearchFinds(s.(states := s.states[id := ZOMBIE], need := false), 0);
      }
    case _ =>
  }

  /** Where the invariant does not hold: a rescheduling yield panics if and only if the current task
      and the idle task are both terminated and nobody is ready. */
  lemma PanicsExactly(s: Sched)
    requires s.current < |s.states| && 2 <= |s.states| <= MAX_TASKS && s.need
    ensures Yield(s, true).1.Panics? <==>
              && s.states[s.current] == ZOMBIE && s.states[0] == ZOMBIE
              && forall i :: 0 <= i < |s.states| ==> s.states[i] != READY
  {
    var s1 := s.(need := false);
    forall i | 0 <= i < |s.states| && i != s.current && s.states[i] == READY
      ensures Search(s1, 1).Some?
    {
      SearchFinds(s1, i);
    }
    hide Search;
  }

  ghost predicate Spared(events: seq<Event>) {
    forall e :: e in events ==> IdleSpared(e)
  }

  function Runs(s: Sched, events: seq<Event>): Sched
    requires s.current < |s.states|
    decreases events
  {
    if events == [] then s
    else
      var s1 := Happens(s, events[0]).0;
      if s1.current < |s1.states| then Runs(s1, events[1..]) else s
  }

  lemma {:induction false} RunsKeep(s: Sched, events: seq<Event>)
    requires Inv(s) && Spared(events)
    ensures Inv(Runs(s, events))
    decreases events
  {
    if events != [] {
      assert events[0] in events;
      HappensKeeps(s, events[0]);
      RunsKeep(Happens(s, events[0]).0, events[1..]);
    }
  }

  /** In every reachable state, whatever happens next, no panic is reached and no fallback taken:
      a switch goes to a task that was ready. */
  lemma NeverPanics(s: Sched, events: seq<Event>, e: Event)
    requires Inv(s) && Spared(events) && IdleSpared(e)
    ensures Inv(Runs(s, events))
    ensures var s1 := Runs(s, events);
            var (s2, o) := Happens(s1, e);
            && Inv(s2) && !o.Panics? && (o.Switches? ==> s1.states[o.to] == READY && s2.states[o.to] == RUNNING)
  {
    RunsKeep(s, events);
    HappensKeeps(Runs(s, events), e);
  }

  lemma ZombieStep(s: Sched, e: Event, i: nat)
    requires Inv(s) && IdleSpared(e) && i < |s.states| && s.states[i] == ZOMBIE
    ensures var s1 := Happens(s, e).0;
            i < |s1.states| && s1.states[i] == ZOMBIE && s1.current != i
  {
    HappensKeeps(s, e);
  }

  /** A terminated task never runs again. */
  lemma {:induction false} ZombieForever(s: Sched, events: seq<Event>, i: nat)
    requires Inv(s) && Spared(events) && i < |s.states| && s.states[i] == ZOMBIE
    ensures var s1 := Runs(s, events);
            i < |s1.states| && s1.states[i] == ZOMBIE && s1.current != i
    decreases events
  {
    if events != [] {
      assert events[0] in events;
      HappensKeeps(s, events[0]);
      ZombieStep(s, events[0], i);
      ZombieForever(Happens(s, events[0]).0, events[1..], i);
    }
  }

  // ------------------------------------------------------------------ what every event does

  /** The running task hands over to the nearest ready one: the task in slot `to` runs, the one that
      ran is ready again unless it was terminated, and no other changes. */
  ghost predicate HandsOver(s: Sched, s': Sched, to: nat) {
    && s.current < |s.states| == |s'.states| <= MAX_TASKS && to < |s.states| && to != s.current && s'.current == to
    && s.states[to] == READY && NoneBefore(s, 1, Distance(s, to))
    && s'.states[to] == RUNNING
    && s'.states[s.current] == (if s.states[s.current] == ZOMBIE then ZOMBIE else READY)
    && (forall i :: 0 <= i < |s.states| && i != s.current && i != to ==> s'.states[i] == s.states[i])
  }

  /** A yield does nothing unless a reschedule is wanted. Then the wish is gone, and either another
      task runs or there is none that could. */
  lemma YieldMeans(s: Sched)
    requires 2 <= |s.states| <= MAX_TASKS && s.current < |s.states| && !ReadyAt(s, s.current)
    requires s.states[s.current] == ZOMBIE ==> ReadyAt(s, 0)
    ensures var (s', o) := Yield(s, true);
            if !s.need then s' == s && o == Stays
            else
              && !s'.need
              && (if exists i :: 0 <= i < |s.states| && s.states[i] == READY
                  then o == Switches(s.current, s'.current) && HandsOver(s, s', s'.current)
                  else o == Stays && s'.states == s.states && s'.current == s.current)
  {
    if s.need {
      var s1 := s.(need := false);
      var d := SearchNearest(s1, 1);
      forall i | 0 <= i < |s.states| && s.states[i] == READY
        ensures Search(s1, 1).Some?
      {
        SearchFinds(s1, i);
      }
      if Search(s1, 1).Some? {
        Nearest(s1, d);
        assert forall j: nat :: ReadyAt(s1, Slot(s1, j)) <==> ReadyAt(s, Slot(s, j));
      }
      hide Search;
    }
  }

  /** The nearest ready slot is that many places away. */
  lemma Nearest(s: Sched, d: nat)
    requires s.current < |s.states| <= MAX_TASKS && 1 <= d <= MAX_TASKS && NoneBefore(s, 1, d)
    requires ReadyAt(s, Slot(s, d)) && !ReadyAt(s, s.current)
    ensures d < MAX_TASKS && Distance(s, Slot(s, d)) == d
  {
  }

  /** Every event, state by state. */
  lemma EventMeans(s: Sched, e: Event)
    requires Inv(s) && IdleSpared(e)
    ensures var (s', o) := Happens(s, e);
            match e
            case Tick => s'.need && s'.states == s.states && s'.current == s.current && o == Stays
            case NewTask =>
              && s'.need == s.need && s'.current == s.current && o == Stays
              && s'.states == s.states + if |s.states| < MAX_TASKS then [READY] else []
            case YieldCall =>
              if s.need && exists i :: 0 <= i < |s.states| && s.states[i] == READY
              then !s'.need && o == Switches(s.current, s'.current) && HandsOver(s, s', s'.current)
              else !s'.need && o == Stays && s'.states == s.states && s'.current == s.current
            case Kill(id) =>
              if id >= |s.states| then s' == s && o == Stays
              else
                && s'.states[id] == ZOMBIE && |s'.states| == |s.states|
                && (id != s.current ==>
                      && s'.need == s.need && s'.current == s.current && o == Stays
                      && forall i :: 0 <= i < |s.states| && i != id ==> s'.states[i] == s.states[i])
                && (id == s.current ==>
                      && !s'.need && o == Switches(id, s'.current)
                      && HandsOver(s.(states := s.states[id := ZOMBIE]), s', s'.current))
  {
    match e
    case YieldCall => YieldMeans(s);
    case Kill(id) =>
      if id == s.current {
        var s1 := s.(states := s.states[id := ZOMBIE], need := true);
        assert s1.states[0] == READY;
        YieldMeans(s1);
        HandsOverSame(s1, s.(states := s.states[id := ZOMBIE]), Yield(s1, true).0);
      }
    case _ =>
  }

  lemma HandsOverSame(a: Sched, b: Sched, s': Sched)
    requires HandsOver(a, s', s'.current) && b.states == a.states && b.current == a.current
    ensures HandsOver(b, s', s'.current)
  {
    assert forall j: nat :: ReadyAt(a, Slot(a, j)) <==> ReadyAt(b, Slot(b, j));
  }

  /** The number of slots in use after some events, starting from `n`. */
  function SlotsAfter(n: nat, events: seq<Event>): nat
    decreases events
  {
    if events == [] then n
    else SlotsAfter(if events[0].NewTask? && n < MAX_TASKS then n + 1 else n, events[1..])
  }

  /** The task of slot `i` is terminated by one of the events, at a time when the slot is in use. */
  ghost predicate KilledIn(n: nat, events: seq<Event>, i: nat) {
    exists k :: 0 <= k < |events| && events[k] == Kill(i) && i < SlotsAfter(n, events[..k])
  }

  lemma KilledFirst(n: nat, events: seq<Event>, i: nat)
    requires events != []
    ensures var n1 := SlotsAfter(n, events[..1]);
            KilledIn(n, events, i) <==> (events[0] == Kill(i) && i < n) || KilledIn(n1, events[1..], i)
  {
    var n1 := SlotsAfter(n, events[..1]);
    assert events[..1] == [events[0]] && [events[0]][1..] == [];
    if KilledIn(n, events, i) {
      var k :| 0 <= k < |events| && events[k] == Kill(i) && i < SlotsAfter(n, events[..k]);
      if k > 0 {
        assert events[..k][0] == events[0] && events[..k][1..] == events[1..][..k - 1];
        assert events[1..][k - 1] == Kill(i);
      }
    }
    if KilledIn(n1, events[1..], i) {
      var k :| 0 <= k < |events[1..]| && events[1..][k] == Kill(i) && i < SlotsAfter(n1, events[1..][..k]);
      assert events[..k + 1][0] == events[0] && events[..k + 1][1..] == events[1..][..k];
      assert events[k + 1] == Kill(i);
    }
    if events[0] == Kill(i) && i < n {
      assert events[..0] == [];
    }
  }

  /** Over every run a task is terminated if and only if it was before or is terminated by one of the
      events; whoever yields, is preempted or waits stays alive. */
  lemma {:induction false} Fates(s: Sched, events: seq<Event>)
    requires Inv(s) && Spared(events)
    ensures var s' := Runs(s, events);
            && |s'.states| == SlotsAfter(|s.states|, events)
            && forall i :: 0 <= i < |s'.states| ==>
                 (s'.states[i] == ZOMBIE <==>
                    (i < |s.states| && s.states[i] == ZOMBIE) || KilledIn(|s.states|, events, i))
    decreases events
  {
    if events != [] {
      var e := events[0];
      var s1 := Happens(s, e).0;
      assert e in events;
      HappensKeeps(s, e);
      FateStep(s, e);
      Fates(s1, events[1..]);
      hide Happens, HandsOver;
      assert events[..1] == [e] && [e][1..] == [];
      forall i | 0 <= i < |Runs(s, events).states|
        ensures Runs(s, events).states[i] == ZOMBIE <==>
                  (i < |s.states| && s.states[i] == ZOMBIE) || KilledIn(|s.states|, events, i)
      {
        KilledFirst(|s.states|, events, i);
      }
    }
  }

  lemma FateStep(s: Sched, e: Event)
    requires Inv(s) && IdleSpared(e)
    ensures var s1 := Happens(s, e).0;
            && |s1.states| == SlotsAfter(|s.states|, [e])
            && forall i :: 0 <= i < |s1.states| ==>
                 (s1.states[i] == ZOMBIE <==>
                    (i < |s.states| && s.states[i] == ZOMBIE) || (e == Kill(i) && i < |s.states|))
  {
    EventMeans(s, e);
    assert [e][1..] == [];
    hide Happens;
  }

  // ------------------------------------------------------------------ bounded waiting

  /** A yield that reschedules. */
  predicate Effective(s: Sched, e: Event) {
    e.YieldCall? && s.need
  }

  /** The yields of a run that reschedule. */
  function Count(s: Sched, events: seq<Event>): nat
    requires s.current < |s.states|
    decreases events
  {
    if events == [] then 0
    else
      var s1 := Happens(s, events[0]).0;
      (if Effective(s, events[0]) then 1 else 0) + if s1.current < |s1.states| then Count(s1, events[1..]) else 0
  }

  /** A ready task that is not terminated stays ready or gets to run; every rescheduling yield
      brings it nearer. */
  lemma WaitingStep(s: Sched, e: Event, j: nat)
    requires Inv(s) && IdleSpared(e) && ReadyAt(s, j) && e != Kill(j)
    ensures var s1 := Happens(s, e).0;
            && Inv(s1) && j < |s1.states|
            && (s1.current == j || (ReadyAt(s1, j) && Distance(s1, j) <= Distance(s, j)
                                    && (Effective(s, e) ==> Distance(s1, j) < Distance(s, j))))
  {
    HappensKeeps(s, e);
    match e
    case YieldCall =>
      if s.need {
        YieldNearer(s, j);
      }
    case Kill(id) =>
      if id == s.current {
        YieldNearer(s.(states := s.states[id := ZOMBIE], need := true), j);
      }
    case _ =>
  }

  lemma YieldNearer(s: Sched, j: nat)
    requires 2 <= |s.states| <= MAX_TASKS && s.current < |s.states| && s.need && ReadyAt(s, j) && !ReadyAt(s, s.current)
    ensures var s1 := Yield(s, true).0;
            && s1.current < |s1.states| <= MAX_TASKS && j < |s1.states|
            && (s1.current == j || (ReadyAt(s1, j) && Distance(s1, j) < Distance(s, j)))
  {
    var s1 := s.(need := false);
    SearchFinds(s1, j);
    hide Search;
    Nearer(s1, Search(s1, 1).value, j);
    assert Distance(s1, j) == Distance(s, j);
    hide Distance;
  }

  /** Moving the current slot to one no farther than `j` brings `j` nearer. */
  lemma Nearer(s: Sched, next: nat, j: nat)
    requires s.current < |s.states| <= MAX_TASKS && next < |s.states| && j < |s.states|
    requires next != s.current && Distance(s, next) <= Distance(s, j)
    ensures Distance(s.(current := next), j) < Distance(s, j)
  {
  }

  /** Bounded waiting: among any events in which three yields reschedule, a ready task that is not
      terminated gets to run. */
  lemma {:induction false} BoundedWaiting(s: Sched, events: seq<Event>, j: nat)
    requires Inv(s) && Spared(events) && ReadyAt(s, j) && Kill(j) !in events
    requires Count(s, events) >= Distance(s, j)
    ensures exists k: nat :: k <= |events| && Runs(s, events[..k]).current == j
    decreases events
  {
    if events != [] {
      assert events[0] in events;
      WaitingStep(s, events[0], j);
      var s1 := Happens(s, events[0]).0;
      if s1.current == j {
        assert events[..1] == [events[0]] && [events[0]][1..] == [];
        assert Runs(s1, []) == s1;
        assert Runs(s, events[..1]).current == j;
      } else {
        BoundedWaiting(s1, events[1..], j);
        var k: nat :| k <= |events[1..]| && Runs(s1, events[1..][..k]).current == j;
        assert events[..k + 1][0] == events[0] && events[..k + 1][1..] == events[1..][..k];
        assert Runs(s, events[..k + 1]).current == j;
      }
    }
  }

  /** MAX_TASKS - 1 rescheduling yields are always enough. */
  lemma ThreeYields(s: Sched, events: seq<Event>, j: nat)
    requires Inv(s) && Spared(events) && ReadyAt(s, j) && Kill(j) !in events && Count(s, events) >= MAX_TASKS - 1
    ensures exists k: nat :: k <= |events| && Runs(s, events[..k]).current == j
  {
    BoundedWaiting(s, events, j);
  }

  // ------------------------------------------------------------------ the scheduler

  class TaskStruct {
    var id: nat
    var state: TaskState
    var canaryIntact: bool

    constructor ()
      ensures state == READY && canaryIntact
    {
      id, state, canaryIntact := 0, READY, true;
    }
  }

  class Scheduler {
    const tasks: array<TaskStruct?>
    var taskCount: nat
    var currentTask: TaskStruct?
    var currentTaskIndex: nat
    var started: bool
    var needReschedule: bool

    ghost function Objects(): set<TaskStruct>
      reads this, tasks
    {
      set t: TaskStruct | t in tasks[..]
    }

    /** Slots fill from the bottom with different task structures whose ids are their slots. Before
        the start every task is ready; afterwards the current task is the one in the current slot. */
    ghost predicate Valid()
      reads this, tasks, Objects()
    {
      && tasks.Length == MAX_TASKS && taskCount <= MAX_TASKS
      && (forall i :: taskCount <= i < MAX_TASKS ==> tasks[i] == null)
      && (forall i :: 0 <= i < taskCount ==> tasks[i] != null)
      && (forall i :: 0 <= i < taskCount ==> tasks[i].id == i)
      && (forall i, j :: 0 <= i < j < taskCount ==> tasks[i] != tasks[j])
      && (started ==> currentTaskIndex < taskCount && currentTask == tasks[currentTaskIndex])
      && (!started ==> currentTask == null && forall i :: 0 <= i < taskCount ==> tasks[i].state == READY)
    }

    ghost function View(): Sched
      requires Valid()
      reads this, tasks, Objects()
    {
      Sched(seq(taskCount,
                i requires 0 <= i < taskCount <= tasks.Length && tasks[i] != null reads this, tasks, Objects() =>
                  tasks[i].state),
            currentTaskIndex, needReschedule)
    }

    constructor ()
      ensures Valid() && fresh(tasks) && taskCount == 0 && !started && !needReschedule
    {
      tasks := new TaskStruct?[MAX_TASKS](_ => null);
      taskCount, currentTask, currentTaskIndex, started, needReschedule := 0, null, 0, false, false;
    }

    method AddTask(task: TaskStruct) returns (id: int)
      requires Valid() && (task in tasks[..] ==> taskCount >= MAX_TASKS)
      modifies this`taskCount, tasks, task
      ensures Valid() && View() == Add(old(View())) && started == old(started)
      ensures id == if old(taskCount) >= MAX_TASKS then -1 else old(taskCount)
    {
      if taskCount >= MAX_TASKS {
        return -1;
      }
      tasks[taskCount] := task;
      task.id := taskCount;
      task.state := READY;
      taskCount := taskCount + 1;
      return task.id;
    }

    /** Marks the first task as running; without a task the kernel halts. With at least two tasks this
        is where the invariant of all runs begins. */
    method Start() returns (halted: bool)
      requires Valid() && !started
      modifies this, Objects()
      ensures Valid() && halted == (old(taskCount) == 0)
      ensures !halted ==> started && View() == Sched(old(View()).states[0 := RUNNING], 0, old(needReschedule))
      ensures old(taskCount) >= 2 ==> Inv(View())
    {
      ghost var states := View().states;
      if taskCount == 0 {
        return true;
      }
      currentTask := tasks[0];
      currentTaskIndex := 0;
      currentTask.state := RUNNING;
      started := true;
      if taskCount >= 2 {
        StartedInv(states, needReschedule);
      }
      return false;
    }

    method TickHandler()
      requires Valid()
      modifies `needReschedule
      ensures Valid() && View() == if started then old(View()).(need := true) else old(View())
    {
      if started {
        needReschedule := true;
      }
    }

    /** The loop that looks for the next ready task. */
    lemma ReadySlot(i: nat)
      requires Valid() && i < MAX_TASKS
      ensures ReadyAt(View(), i) <==> tasks[i] != null && tasks[i].state == READY
    {
    }

    method FindReady() returns (next: nat, found: bool)
      requires Valid() && started
      ensures Search(View(), 1) == if found then Some(next) else None
      ensures next < MAX_TASKS
    {
      hide Search, ReadyAt;
      next, found := currentTaskIndex, false;
      var searchCount := 0;
      while searchCount < MAX_TASKS
        invariant 0 <= searchCount <= MAX_TASKS && next == (currentTaskIndex + searchCount) % MAX_TASKS
        invariant Search(View(), 1) == Search(View(), searchCount + 1)
      {
        next := (next + 1) % MAX_TASKS;
        searchCount := searchCount + 1;
        SearchOne(View(), searchCount);
        ReadySlot(next);
        if tasks[next] != null && tasks[next].state == READY {
          found := true;
          return;
        }
      }
      SearchOne(View(), MAX_TASKS + 1);
    }

    method YieldNow() returns (o: Outcome)
      requires Valid() && started
      modifies this`needReschedule, this`currentTask, this`currentTaskIndex, Objects()
      ensures Valid() && started && (View(), o) == Yield(old(View()), old(currentTask.canaryIntact))
    {
      if !needReschedule {
        return Stays;
      }
      needReschedule := false;
      assert View() == old(View()).(need := false);
      if !currentTask.canaryIntact {
        return Panics;
      }
      if taskCount == 1 {
        return Stays;
      }
      o := SwitchAway();
    }

    method SwitchAway() returns (o: Outcome)
      requires Valid() && started
      modifies this`currentTask, this`currentTaskIndex, Objects()
      ensures Valid() && started && (View(), o) == Reschedule(old(View()))
    {
      hide Search;
      var prev := currentTask;
      var nextIndex, found := FindReady();
      if !found || tasks[nextIndex] == prev {
        if prev.state != ZOMBIE {
          return Stays;
        }
        if tasks[0].state == ZOMBIE {
          return Panics;
        }
        ghost var s := View();
        tasks[0].state := READY;
        assert View() == s.(states := s.states[0 := READY]);
        nextIndex := 0;
      }
      o := HandOver(nextIndex);
    }

    /** The last part of a yield. The next task is always ready here. */
    method HandOver(nextIndex: nat) returns (o: Outcome)
      requires Valid() && started && nextIndex < taskCount && tasks[nextIndex].state == READY
      modifies this`currentTask, this`currentTaskIndex, Objects()
      ensures Valid() && started && View() == Handed(old(View()), nextIndex)
      ensures o == Switches(old(currentTaskIndex), nextIndex)
    {
      var prev, next := currentTask, tasks[nextIndex];
      o := Switches(currentTaskIndex, nextIndex);
      if prev.state != ZOMBIE {
        prev.state := READY;
      }
      next.state := RUNNING;
      currentTaskIndex := nextIndex;
      currentTask := next;
    }

    method TerminateTask(id: nat) returns (o: Outcome)
      requires Valid() && started
      modifies this, Objects()
      ensures Valid() && started && (View(), o) == Terminate(old(View()), id, old(currentTask.canaryIntact))
    {
      if id >= MAX_TASKS || tasks[id] == null {
        return Stays;
      }
      var task := tasks[id];
      task.state := ZOMBIE;
      ghost var s := View();
      assert s == old(View()).(states := old(View()).states[id := ZOMBIE]);
      if currentTask == task {
        needReschedule := true;
        assert View() == s.(need := true);
        o := YieldNow();
        return;
      }
      return Stays;
    }
  }

  lemma SearchOne(s: Sched, k: nat)
    requires 1 <= k <= MAX_TASKS + 1
    ensures Search(s, k) == if k > MAX_TASKS then None
                            else if ReadyAt(s, Slot(s, k)) then Some(Slot(s, k))
                            else Search(s, k + 1)
  {
  }

  /** Ready tasks, the first of them set running. */
  lemma StartedInv(states: seq<TaskState>, need: bool)
    requires 2 <= |states| <= MAX_TASKS && forall i :: 0 <= i < |states| ==> states[i] == READY
    ensures Inv(Sched(states[0 := RUNNING], 0, need))
  {
  }
}
