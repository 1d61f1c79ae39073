/** The task table: scheduling, waiting, signalling, ticks and cancellation. Each
    method is one update made with interrupts disabled. */
module Scheduler {
  import opened Common
  import opened Timer

  const SLOTS := 18
  const BOOT := 0
  const IDLE := 1
  const SLICE := 5
  const WORD := 0x1_0000_0000

  datatype State = Unused | Runnable | Running | Blocked | Exited

  /** What a task may wait for: the shared work event, its own process events, a device's. */
  datatype Event = Work | Children(slot: nat) | Input(slot: nat) | Device(number: nat)

  datatype Reason = NoReason | ByEvent | ByTimeout | ByCancellation

  datatype Task = Task(
    id: nat, state: State, process: bool, pid: nat, parent: nat, cancelled: bool, orphaned: bool,
    waiting: Option<Event>, timed: bool, deadline: nat, reason: Reason, slice: nat, reschedule: bool)

  const FREE := Task(0, Unused, false, 0, 0, false, false, None, false, 0, NoReason, 0, false)

  /** The same task at the same stage of life, whatever it is doing. */
  predicate Kin(a: Task, b: Task) {
    && b.id == a.id && b.process == a.process && b.pid == a.pid && b.parent == a.parent
    && b.cancelled == a.cancelled && b.orphaned == a.orphaned
    && Present(b) == Present(a) && Alive(b) == Alive(a) && (b.state == Exited <==> a.state == Exited)
  }

  predicate Present(t: Task) { t.state != Unused }
  predicate Alive(t: Task) { t.state in {Runnable, Running, Blocked} }

  // ----- Dispatch ------------------------------------------------------------------------

  /** May be dispatched ahead of idle. */
  predicate Ready(tasks: seq<Task>, i: nat) { i < |tasks| && i != IDLE && tasks[i].state == Runnable }

  /** How many places ahead of `from` slot `i` lies, 1 for the next and SLOTS for itself. */
  function Ahead(from: nat, i: nat): (d: nat)
    requires from < SLOTS && i < SLOTS
    ensures 1 <= d <= SLOTS && (from + d) % SLOTS == i
  {
    if i > from then i - from else i + SLOTS - from
  }

  /** Round robin: the nearest ready slot ahead, or idle if there is none. */
  ghost predicate Picks(tasks: seq<Task>, from: nat, next: nat)
    requires |tasks| == SLOTS && from < SLOTS
  {
    && next < SLOTS
    && (Ready(tasks, next) || (next == IDLE && forall i :: 0 <= i < SLOTS ==> !Ready(tasks, i)))
    && (Ready(tasks, next) ==> forall i :: 0 <= i < SLOTS && Ready(tasks, i) ==> Ahead(from, next) <= Ahead(from, i))
  }

  /** The circular search. */
  method Search(tasks: seq<Task>, from: nat) returns (next: nat)
    requires |tasks| == SLOTS && from < SLOTS
    ensures Picks(tasks, from, next)
  {
    var offset := 1;
    while offset <= SLOTS
      invariant 1 <= offset <= SLOTS + 1
      invariant forall i :: 0 <= i < SLOTS && Ready(tasks, i) ==> offset <= Ahead(from, i)
    {
      var candidate := (from + offset) % SLOTS;
      assert Ahead(from, candidate) == offset;
      if candidate != IDLE && tasks[candidate].state == Runnable { return candidate; }
      offset := offset + 1;
    }
    next := IDLE;
  }

  /** One dispatch brings every slot that stays ready strictly closer, or runs it. */
  lemma Closer(tasks: seq<Task>, from: nat, next: nat, k: nat)
    requires |tasks| == SLOTS && from < SLOTS && Picks(tasks, from, next) && k < SLOTS && Ready(tasks, k) && next != k
    ensures Ahead(next, k) < Ahead(from, k)
  {
    assert Ahead(from, next) <= Ahead(from, k);
  }

  /** A run of dispatches: the task table each one searched and the slot it left from. */
  ghost predicate Dispatches(tables: seq<seq<Task>>, currents: seq<nat>) {
    && |currents| == |tables| + 1
    && (forall t :: 0 <= t < |currents| ==> currents[t] < SLOTS)
    && (forall t :: 0 <= t < |tables| ==> |tables[t]| == SLOTS && Picks(tables[t], currents[t], currents[t + 1]))
  }

  /** A slot that is ready at every dispatch runs within SLOTS of them, whatever happens
      to the other slots in between. */
  lemma {:induction false} BoundedWaiting(tables: seq<seq<Task>>, currents: seq<nat>, k: nat)
    requires Dispatches(tables, currents) && k < SLOTS
    requires forall t :: 0 <= t < |tables| ==> Ready(tables[t], k)
    requires |tables| >= Ahead(currents[0], k)
    ensures exists t :: 0 < t <= Ahead(currents[0], k) && t < |currents| && currents[t] == k
    decreases |tables|
  {
    assert Picks(tables[0], currents[0], currents[1]) && Ready(tables[0], k);
    if currents[1] != k {
      Closer(tables[0], currents[0], currents[1], k);
      forall t | 0 <= t < |tables[1..]|
        ensures |tables[1..][t]| == SLOTS && Picks(tables[1..][t], currents[1..][t], currents[1..][t + 1])
        ensures Ready(tables[1..][t], k)
      {
        assert tables[1..][t] == tables[t + 1];
        assert currents[1..][t] == currents[t + 1] && currents[1..][t + 1] == currents[t + 2];
      }
      BoundedWaiting(tables[1..], currents[1..], k);
      var t :| 0 < t <= Ahead(currents[1], k) && t < |currents[1..]| && currents[1..][t] == k;
      assert currents[t + 1] == k;
    }
  }

  // ----- Waiting ---------------------------------------------------------------------------

  function SequenceOf(sequence: map<Event, nat>, e: Event): nat { if e in sequence then sequence[e] else 0 }

  /** A process waits on its own events only; the others are shared. */
  predicate MayAwait(i: nat, e: Event) { (e.Children? ==> e.slot == i) && (e.Input? ==> e.slot == i) }

  function Woken(t: Task, reason: Reason): Task {
    t.(waiting := None, timed := false, deadline := 0, reason := reason, state := Runnable)
  }

  /** A blocked task waits for something that has not happened yet: its event stands at
      the number it saw, its deadline is still ahead and nobody cancelled it. */
  ghost predicate WaitOk(t: Task, i: nat, sequence: map<Event, nat>, ticks: nat, seen: nat, left: nat) {
    if t.state == Blocked then
      && (t.waiting.Some? || t.timed)
      && (t.waiting.Some? ==> SequenceOf(sequence, t.waiting.value) == seen && MayAwait(i, t.waiting.value))
      && (if t.timed then left > 0 && Due(ticks, t.deadline, left) else t.deadline == 0)
      && !(t.process && t.cancelled)
    else
      t.waiting.None? && !t.timed && t.deadline == 0
  }

  ghost predicate WaitsOk(tasks: seq<Task>, sequence: map<Event, nat>, ticks: nat, seen: seq<nat>, left: seq<nat>) {
    && |seen| == |left| == |tasks| && ticks < CLOCK
    && forall i :: 0 <= i < |tasks| ==> WaitOk(tasks[i], i, sequence, ticks, seen[i], left[i])
  }

  /** Boot and idle are always there; nobody but the current task runs. */
  ghost predicate SlotsOk(tasks: seq<Task>, current: nat) {
    && |tasks| == SLOTS && current < SLOTS
    && tasks[BOOT].id == 1 && Alive(tasks[BOOT]) && !tasks[BOOT].process
    && tasks[IDLE].id == 2 && tasks[IDLE].state in {Runnable, Running} && !tasks[IDLE].process
    && (forall i :: 0 <= i < SLOTS ==>
          (tasks[i].state == Unused ==> tasks[i] == FREE) && (i != current ==> tasks[i].state != Running))
  }

  class Scheduler {
    var tasks: seq<Task>
    var current: nat
    var ticks: nat
    var sequence: map<Event, nat>
    /** The number each blocked task saw, and the ticks to its deadline. */
    ghost var seen: seq<nat>
    ghost var left: seq<nat>

    ghost predicate Valid()
      reads this
    {
      Settled() && tasks[current].state == Running
    }

    /** Valid, except that the current task may have just stopped running. */
    ghost predicate Settled()
      reads this
    {
      SlotsOk(tasks, current) && WaitsOk(tasks, sequence, ticks, seen, left)
    }

    constructor ()
      ensures Valid() && current == BOOT && ticks == 0
      ensures (forall i :: 2 <= i < SLOTS ==> tasks[i] == FREE) && tasks[BOOT].parent == 0 && tasks[IDLE].parent == 0
    {
      var boot := FREE.(id := 1, state := Running, slice := SLICE);
      var idle := FREE.(id := 2, state := Runnable);
      tasks := seq(SLOTS, i => if i == BOOT then boot else if i == IDLE then idle else FREE);
      current, ticks, sequence := BOOT, 0, map[];
      seen, left := seq(SLOTS, _ => 0), seq(SLOTS, _ => 0);
    }

    lemma Started()
      requires Valid()
      ensures |tasks| == SLOTS && tasks[BOOT].id == 1 && !tasks[BOOT].process && tasks[IDLE].id == 2
      ensures !tasks[IDLE].process
    {
      hide WaitsOk;
    }

    /** Choose and dispatch the next task. Only states of the two tasks involved change. */
    method Schedule()
      requires Settled() && (current == IDLE ==> tasks[current].state == Running)
      modifies this`tasks, this`current
      ensures Valid()
      ensures Picks(Paused(old(tasks), old(current)), old(current), current)
      ensures forall i :: 0 <= i < SLOTS ==> SameWait(old(tasks)[i], tasks[i])
      ensures forall i :: 0 <= i < SLOTS && i != current && i != old(current) ==> tasks[i] == old(tasks)[i]
      ensures tasks[current].slice == SLICE && !tasks[current].reschedule
      ensures current != old(current) ==>
        tasks[old(current)].state == Paused(old(tasks), old(current))[old(current)].state
    {
      hide WaitOk, Ahead, Picks, Ready;
      ghost var before := tasks;
      tasks := Paused(tasks, current);
      var next := Search(tasks, current);
      PickedIsRunnable(before, current, next);
      tasks := Dispatched(tasks, current, next);
      DispatchedOk(before, current, next, tasks);
      DispatchedWaits(before, tasks, sequence, ticks, seen, left);
      current := next;
    }

    /** Give way to whoever is next. */
    method Yield(protected: bool) returns (ok: bool)
      requires Valid()
      modifies this`tasks, this`current
      ensures Valid() && (ok <==> old(current) != IDLE && !protected)
      ensures !ok ==> tasks == old(tasks) && current == old(current)
      ensures ok ==> Picks(Paused(old(tasks), old(current)), old(current), current)
      ensures |tasks| == |old(tasks)| == SLOTS && forall i :: 0 <= i < SLOTS ==> SameWait(old(tasks)[i], tasks[i])
    {
      if current == IDLE || protected { return false; }
      Schedule();
      ok := true;
    }

    // ----- Waking -------------------------------------------------------------------------------

    /** Count the signal and wake every waiter, in one update. */
    method Signal(e: Event)
      requires Settled()
      modifies this`tasks, this`sequence
      ensures Settled() && sequence == old(sequence)[e := (SequenceOf(old(sequence), e) + 1) % WORD]
      ensures forall i :: 0 <= i < SLOTS ==> tasks[i] == Signalled(old(tasks)[i], e)
    {
      hide WaitOk;
      sequence := sequence[e := (SequenceOf(sequence, e) + 1) % WORD];
      for i := 0 to SLOTS
        modifies this`tasks
        invariant |tasks| == SLOTS && forall k :: 0 <= k < SLOTS ==>
          tasks[k] == if k < i then Signalled(old(tasks)[k], e) else old(tasks)[k]
      {
        if tasks[i].state == Blocked && tasks[i].waiting == Some(e) {
          tasks := tasks[i := Woken(tasks[i], ByEvent)];
        }
      }
      SignalKeeps(old(tasks), tasks, old(sequence), sequence, ticks, seen, left, e, current);
    }

    /** One timer interrupt: deadlines, the running task's slice, then the work event. */
    method Tick()
      requires Valid()
      modifies this`tasks, this`ticks, this`sequence, this`left
      ensures Valid() && ticks == (old(ticks) + 1) % CLOCK
      // A timed waiter times out on the tick its last one is due, and on no other.
      ensures forall i :: 0 <= i < SLOTS && old(tasks)[i].state == Blocked ==>
        (tasks[i].state == Runnable && tasks[i].reason == ByTimeout <==> old(tasks)[i].timed && old(left)[i] == 1)
      ensures forall i :: 0 <= i < SLOTS && tasks[i].state == Blocked && tasks[i].timed ==> left[i] + 1 == old(left)[i]
      ensures forall i :: 0 <= i < SLOTS && old(tasks)[i].state == Blocked && old(tasks)[i].waiting == Some(Work) ==>
        tasks[i].state == Runnable
      ensures tasks[current].reschedule <==> old(tasks)[current].reschedule || old(tasks)[current].slice == 1
      ensures |old(tasks)| == SLOTS && forall i :: 0 <= i < SLOTS ==> Kin(old(tasks)[i], tasks[i])
    {
      hide WaitOk, Due, WaitsOk, SlotsOk, Woken;
      SlotRange(tasks, current);
      ghost var before, due := tasks, left;
      Expire();
      SlotRange(tasks, current);
      ghost var timed := tasks;
      Charge();
      Signal(Work);
      SlotRange(tasks, current);
      TimedOut(before, due, ticks, timed, tasks, current);
      TickedKin(before, ticks, timed, tasks, current);
    }

    /** The clock moves on; waiters whose deadline is reached wake. */
    method Expire()
      requires Valid()
      modifies this`tasks, this`ticks, this`left
      ensures Valid() && ticks == (old(ticks) + 1) % CLOCK && |left| == |old(left)| == SLOTS
      ensures forall i :: 0 <= i < SLOTS ==>
        tasks[i] == Timed(old(tasks)[i], ticks) && left[i] == if old(left)[i] > 0 then old(left)[i] - 1 else 0
      ensures forall i :: 0 <= i < SLOTS && old(tasks)[i].state == Blocked && old(tasks)[i].timed ==>
        old(left)[i] > 0 && (Timer.Reached(ticks, old(tasks)[i].deadline) <==> old(left)[i] == 1)
    {
      hide WaitOk, Due;
      ticks := (ticks + 1) % CLOCK;
      ghost var due := left;
      left := seq(SLOTS, i requires 0 <= i < |due| => if due[i] > 0 then due[i] - 1 else 0);
      for i := 0 to SLOTS
        modifies this`tasks
        invariant |tasks| == SLOTS && forall k :: 0 <= k < SLOTS ==>
          tasks[k] == if k < i then Timed(old(tasks)[k], ticks) else old(tasks)[k]
      {
        if tasks[i].state == Blocked && tasks[i].timed && Timer.Reached(ticks, tasks[i].deadline) {
          tasks := tasks[i := Woken(tasks[i], ByTimeout)];
        }
      }
      TickKeeps(old(tasks), tasks, sequence, old(ticks), ticks, seen, old(left), left, current);
    }

    /** The running task has used one tick of its slice. */
    method Charge()
      requires Valid()
      modifies this`tasks
      ensures Valid() && |tasks| == SLOTS && forall i :: 0 <= i < SLOTS && i != current ==> tasks[i] == old(tasks)[i]
      ensures tasks[current] ==
        old(tasks)[current].(slice := tasks[current].slice, reschedule := tasks[current].reschedule)
      ensures tasks[current].reschedule <==> old(tasks)[current].reschedule || old(tasks)[current].slice == 1
    {
      hide WaitOk, Due;
      if tasks[current].slice > 0 {
        var t := tasks[current].(slice := tasks[current].slice - 1);
        tasks := tasks[current := if t.slice == 0 then t.(reschedule := true) else t];
      }
      SliceKeeps(old(tasks), tasks, sequence, ticks, seen, left, current);
    }

    /** Ask a task to end. A blocked one is woken at once. */
    method Cancel(i: nat)
      requires Settled() && i < SLOTS && tasks[i].process && Present(tasks[i])
      modifies this`tasks
      ensures Settled() && tasks == old(tasks)[i := Cancelled(old(tasks)[i])]
    {
      hide WaitOk;
      ghost var before := tasks;
      tasks := tasks[i := tasks[i].(cancelled := true)];
      if tasks[i].state == Blocked { tasks := tasks[i := Woken(tasks[i], ByCancellation)]; }
      CancelKeeps(before, tasks, sequence, ticks, seen, left, i, current);
    }

    /** Wait for an event past the number seen, or for a time, or for both. */
    method Wait(e: Option<Event>, observed: nat, timed: bool, duration: nat, protected: bool) returns (r: Outcome)
      requires Valid() && (e.Some? ==> MayAwait(current, e.value))
      modifies this`tasks, this`current, this`seen, this`left
      ensures Valid()
      ensures r == Refused <==>
        (e.None? && !timed) || old(current) == IDLE || protected || (timed && duration >= HALF_RANGE)
      ensures r != Slept ==> tasks == old(tasks) && current == old(current)
      // Neither a cancellation nor a signal since `observed` is slept through.
      ensures r == Slept ==> !(old(tasks)[old(current)].process && old(tasks)[old(current)].cancelled)
      ensures r == Slept && e.Some? ==> SequenceOf(sequence, e.value) == observed
      ensures r == Slept ==>
        tasks[old(current)].state == Blocked && tasks[old(current)].waiting == e && tasks[old(current)].timed == timed
      ensures r == Slept && timed ==> left[old(current)] == duration > 0
      ensures r == Slept ==> forall i :: 0 <= i < SLOTS && i != old(current) ==> SameWait(old(tasks)[i], tasks[i])
      ensures |old(tasks)| == SLOTS && forall i :: 0 <= i < SLOTS ==> Kin(old(tasks)[i], tasks[i])
    {
      hide WaitOk, Due;
      if e.None? && !timed { return Refused; }
      if current == IDLE || protected || (timed && duration >= HALF_RANGE) { return Refused; }
      var t := tasks[current];
      if t.process && t.cancelled { return Now(ByCancellation); }
      if e.Some? && SequenceOf(sequence, e.value) != observed { return Now(ByEvent); }
      if timed && duration == 0 { return Now(ByTimeout); }
      ghost var before, me := tasks, current;
      tasks := tasks[current := t.(waiting := e, timed := timed,
                      deadline := if timed then (ticks + duration) % CLOCK else 0, state := Blocked)];
      seen, left := seen[current := observed], left[current := duration];
      WaitKeeps(before, tasks, sequence, ticks, old(seen), seen, old(left), left, current, e, observed, timed,
                duration);
      Schedule();
      SleptKin(before, tasks, me);
      r := Slept;
    }
  }

  datatype Outcome = Refused | Now(reason: Reason) | Slept

  function Signalled(t: Task, e: Event): Task {
    if t.state == Blocked && t.waiting == Some(e) then Woken(t, ByEvent) else t
  }

  function Timed(t: Task, now: nat): Task {
    if t.state == Blocked && t.timed && Timer.Reached(now, t.deadline) then Woken(t, ByTimeout) else t
  }

  function Cancelled(t: Task): Task {
    var c := t.(cancelled := true);
    if c.state == Blocked then Woken(c, ByCancellation) else c
  }

  lemma SignalKeeps(tasks: seq<Task>, tasks': seq<Task>, sequence: map<Event, nat>, sequence': map<Event, nat>,
                    ticks: nat, seen: seq<nat>, left: seq<nat>, e: Event, current: nat)
    requires SlotsOk(tasks, current) && WaitsOk(tasks, sequence, ticks, seen, left) && |tasks'| == |tasks|
    requires forall i :: 0 <= i < |tasks| ==> tasks'[i] == Signalled(tasks[i], e)
    requires sequence' == sequence[e := (SequenceOf(sequence, e) + 1) % WORD]
    ensures SlotsOk(tasks', current) && WaitsOk(tasks', sequence', ticks, seen, left)
  {
    forall i | 0 <= i < |tasks|
      ensures WaitOk(tasks'[i], i, sequence', ticks, seen[i], left[i])
    {
      assert WaitOk(tasks[i], i, sequence, ticks, seen[i], left[i]);
    }
  }

  lemma TickKeeps(tasks: seq<Task>, tasks': seq<Task>, sequence: map<Event, nat>, ticks: nat, ticks': nat,
                  seen: seq<nat>, left: seq<nat>, left': seq<nat>, current: nat)
    requires SlotsOk(tasks, current) && WaitsOk(tasks, sequence, ticks, seen, left) && |tasks'| == |tasks| == |left'|
    requires ticks' == (ticks + 1) % CLOCK && forall i :: 0 <= i < |tasks| ==> tasks'[i] == Timed(tasks[i], ticks')
    requires forall i :: 0 <= i < |left| ==> left'[i] == if left[i] > 0 then left[i] - 1 else 0
    ensures SlotsOk(tasks', current) && WaitsOk(tasks', sequence, ticks', seen, left')
    ensures forall i :: 0 <= i < |tasks| && tasks[i].state == Blocked && tasks[i].timed ==>
      left[i] > 0 && (Timer.Reached(ticks', tasks[i].deadline) <==> left[i] == 1)
  {
    forall i | 0 <= i < |tasks|
      ensures WaitOk(tasks'[i], i, sequence, ticks', seen[i], left'[i])
      ensures tasks[i].state == Blocked && tasks[i].timed ==>
        left[i] > 0 && (Timer.Reached(ticks', tasks[i].deadline) <==> left[i] == 1)
    {
      assert WaitOk(tasks[i], i, sequence, ticks, seen[i], left[i]);
      if tasks[i].state == Blocked && tasks[i].timed {
        TickNearer(ticks, tasks[i].deadline, left[i]);
        ReachedExactly(ticks', tasks[i].deadline, left[i] - 1);
      }
    }
  }

  lemma SliceKeeps(tasks: seq<Task>, tasks': seq<Task>, sequence: map<Event, nat>, ticks: nat, seen: seq<nat>,
                   left: seq<nat>, current: nat)
    requires SlotsOk(tasks, current) && tasks[current].state == Running && WaitsOk(tasks, sequence, ticks, seen, left)
    requires |tasks'| == |tasks|
    requires forall i :: 0 <= i < |tasks| && i != current ==> tasks'[i] == tasks[i]
    requires tasks'[current] ==
      tasks[current].(slice := tasks'[current].slice, reschedule := tasks'[current].reschedule)
    ensures SlotsOk(tasks', current) && WaitsOk(tasks', sequence, ticks, seen, left)
  {
    assert WaitOk(tasks[current], current, sequence, ticks, seen[current], left[current]);
  }

  lemma SlotRange(tasks: seq<Task>, current: nat)
    requires SlotsOk(tasks, current)
    ensures |tasks| == SLOTS && current < SLOTS
  {
  }

  lemma TickedKin(tasks: seq<Task>, ticks: nat, timed: seq<Task>, tasks': seq<Task>, current: nat)
    requires |timed| == |tasks'| == |tasks| && current < |tasks|
    requires forall i :: 0 <= i < |tasks| ==> timed[i] == Timed(tasks[i], ticks)
    requires forall i :: 0 <= i < |tasks| && i != current ==> tasks'[i] == Signalled(timed[i], Work)
    requires tasks[current].state == Running
    requires tasks'[current] ==
      tasks[current].(slice := tasks'[current].slice, reschedule := tasks'[current].reschedule)
    ensures forall i :: 0 <= i < |tasks| ==> Kin(tasks[i], tasks'[i])
  {
    forall i | 0 <= i < |tasks| && i != current
      ensures Kin(tasks[i], tasks'[i])
    {
      assert tasks'[i] == Signalled(Timed(tasks[i], ticks), Work);
    }
  }

  /** What a tick did to each blocked task, read off the old state. */
  lemma TimedOut(tasks: seq<Task>, left: seq<nat>, ticks: nat, timed: seq<Task>, tasks': seq<Task>, current: nat)
    requires |timed| == |tasks'| == |tasks| == |left| && current < |tasks| && tasks[current].state == Running
    requires tasks'[current].state == Running
    requires forall i :: 0 <= i < |tasks| ==> timed[i] == Timed(tasks[i], ticks)
    requires forall i :: 0 <= i < |tasks| && i != current ==> tasks'[i] == Signalled(timed[i], Work)
    requires forall i :: 0 <= i < |tasks| && tasks[i].state == Blocked && tasks[i].timed ==>
      left[i] > 0 && (Timer.Reached(ticks, tasks[i].deadline) <==> left[i] == 1)
    ensures forall i :: 0 <= i < |tasks| && tasks[i].state == Blocked ==>
      (tasks'[i].state == Runnable && tasks'[i].reason == ByTimeout <==> tasks[i].timed && left[i] == 1)
    ensures forall i :: 0 <= i < |tasks| && tasks[i].state == Blocked && tasks[i].waiting == Some(Work) ==>
      tasks'[i].state == Runnable
    ensures forall i :: 0 <= i < |tasks| && tasks'[i].state == Blocked && tasks'[i].timed ==>
      tasks[i].state == Blocked && tasks[i].timed && left[i] > 0
  {
    forall i | 0 <= i < |tasks| && i != current
      ensures tasks[i].state == Blocked ==>
        (tasks'[i].state == Runnable && tasks'[i].reason == ByTimeout <==> tasks[i].timed && left[i] == 1)
      ensures tasks[i].state == Blocked && tasks[i].waiting == Some(Work) ==> tasks'[i].state == Runnable
      ensures tasks'[i].state == Blocked && tasks'[i].timed ==>
        tasks[i].state == Blocked && tasks[i].timed && left[i] > 0
    {
      assert tasks'[i] == Signalled(Timed(tasks[i], ticks), Work);
    }
  }

  lemma CancelKeeps(tasks: seq<Task>, tasks': seq<Task>, sequence: map<Event, nat>, ticks: nat, seen: seq<nat>,
                    left: seq<nat>, i: nat, current: nat)
    requires SlotsOk(tasks, current) && WaitsOk(tasks, sequence, ticks, seen, left) && i < |tasks| && tasks[i].process
    requires Present(tasks[i])
    requires tasks' == tasks[i := Cancelled(tasks[i])]
    ensures SlotsOk(tasks', current) && WaitsOk(tasks', sequence, ticks, seen, left)
  {
    forall k | 0 <= k < |tasks|
      ensures WaitOk(tasks'[k], k, sequence, ticks, seen[k], left[k])
    {
      assert WaitOk(tasks[k], k, sequence, ticks, seen[k], left[k]);
    }
  }

  lemma WaitKeeps(tasks: seq<Task>, tasks': seq<Task>, sequence: map<Event, nat>, ticks: nat, seen: seq<nat>,
                  seen': seq<nat>, left: seq<nat>, left': seq<nat>, current: nat, e: Option<Event>, observed: nat,
                  timed: bool, duration: nat)
    requires SlotsOk(tasks, current) && tasks[current].state == Running && WaitsOk(tasks, sequence, ticks, seen, left)
    requires current != IDLE
    requires (e.Some? || timed) && (e.Some? ==> SequenceOf(sequence, e.value) == observed && MayAwait(current, e.value))
    requires timed ==> 0 < duration < HALF_RANGE
    requires !(tasks[current].process && tasks[current].cancelled)
    requires tasks' ==
      tasks[current := tasks[current].(waiting := e, timed := timed,
                      deadline := if timed then (ticks + duration) % CLOCK else 0, state := Blocked)]
    requires seen' == seen[current := observed] && left' == left[current := duration]
    ensures SlotsOk(tasks', current) && WaitsOk(tasks', sequence, ticks, seen', left')
  {
    forall k | 0 <= k < |tasks|
      ensures WaitOk(tasks'[k], k, sequence, ticks, seen'[k], left'[k])
    {
      assert WaitOk(tasks[k], k, sequence, ticks, seen[k], left[k]);
    }
  }

  lemma SleptKin(tasks: seq<Task>, tasks': seq<Task>, me: nat)
    requires |tasks| == |tasks'| == SLOTS && me < SLOTS && tasks[me].state == Running
    requires forall i :: 0 <= i < SLOTS && i != me ==> SameWait(tasks[i], tasks'[i])
    requires tasks'[me].state == Blocked && tasks'[me].id == tasks[me].id && tasks'[me].process == tasks[me].process
    requires tasks'[me].pid == tasks[me].pid && tasks'[me].parent == tasks[me].parent
    requires tasks'[me].cancelled == tasks[me].cancelled && tasks'[me].orphaned == tasks[me].orphaned
    ensures forall i :: 0 <= i < SLOTS ==> Kin(tasks[i], tasks'[i])
  {
  }

  /** A signal between looking at an event and waiting on it is noticed, unless the
      counter came all the way round. */
  lemma SignalIsNoticed(observed: nat, signals: nat)
    requires observed < WORD && 0 < signals < WORD
    ensures (observed + signals) % WORD != observed
  {
    var sum := observed + signals;
    assert sum % WORD == if sum < WORD then sum else sum - WORD;
  }

  /** The running task goes back among the runnable ones; a blocked or exited one does not. */
  function Paused(tasks: seq<Task>, current: nat): (r: seq<Task>)
    requires current < |tasks|
    ensures |r| == |tasks|
  {
    if tasks[current].state == Running then tasks[current := tasks[current].(state := Runnable)] else tasks
  }

  /** The table once `next` runs. */
  function Dispatched(tasks: seq<Task>, previous: nat, next: nat): (r: seq<Task>)
    requires previous < |tasks| && next < |tasks|
    ensures |r| == |tasks|
  {
    var t := tasks[previous := tasks[previous].(reschedule := false)];
    t[next := t[next].(state := Running, reschedule := false, slice := SLICE)]
  }

  lemma PickedIsRunnable(tasks: seq<Task>, current: nat, next: nat)
    requires SlotsOk(tasks, current) && (current == IDLE ==> tasks[current].state == Running)
    requires Picks(Paused(tasks, current), current, next)
    ensures next < SLOTS && Paused(tasks, current)[next].state == Runnable
  {
    hide Ahead;
  }

  lemma DispatchedOk(tasks: seq<Task>, current: nat, next: nat, tasks': seq<Task>)
    requires SlotsOk(tasks, current) && next < SLOTS && Paused(tasks, current)[next].state == Runnable
    requires tasks' == Dispatched(Paused(tasks, current), current, next)
    ensures SlotsOk(tasks', next) && tasks'[next].state == Running
    ensures forall i :: 0 <= i < SLOTS ==> SameWait(tasks[i], tasks'[i])
    ensures forall i :: 0 <= i < SLOTS && i != next && i != current ==> tasks'[i] == tasks[i]
    ensures next != current ==> tasks'[current].state == Paused(tasks, current)[current].state
  {
    var paused := Paused(tasks, current);
    forall i | 0 <= i < SLOTS
      ensures i != next && i != current ==> tasks'[i] == tasks[i]
      ensures SameWait(tasks[i], tasks'[i])
      ensures (i != next ==> tasks'[i].state == paused[i].state && tasks'[i].state != Running)
      ensures tasks'[i].state == Unused ==> tasks'[i] == FREE
      ensures tasks'[i].id == tasks[i].id && tasks'[i].process == tasks[i].process
    {
      if i == next {
        assert tasks'[i] == (if i == current then paused[i].(reschedule := false) else paused[i])
            .(state := Running, reschedule := false, slice := SLICE);
      } else if i == current {
        assert tasks'[i] == paused[i].(reschedule := false);
      } else {
        assert tasks'[i] == tasks[i];
      }
    }
    assert tasks'[next].state == Running;
    assert SameWait(tasks[BOOT], tasks'[BOOT]) && SameWait(tasks[IDLE], tasks'[IDLE]);
  }

  lemma DispatchedWaits(tasks: seq<Task>, tasks': seq<Task>, sequence: map<Event, nat>, ticks: nat, seen: seq<nat>,
                        left: seq<nat>)
    requires WaitsOk(tasks, sequence, ticks, seen, left) && |tasks'| == |tasks|
    requires forall i :: 0 <= i < |tasks| ==> SameWait(tasks[i], tasks'[i])
    ensures WaitsOk(tasks', sequence, ticks, seen, left)
  {
    forall i | 0 <= i < |tasks|
      ensures WaitOk(tasks'[i], i, sequence, ticks, seen[i], left[i])
    {
      assert WaitOk(tasks[i], i, sequence, ticks, seen[i], left[i]);
    }
  }

  /** Identity, tree position and wait are untouched by a dispatch. */
  predicate SameWait(a: Task, b: Task) {
    b == a.(state := b.state, slice := b.slice, reschedule := b.reschedule)
    && if a.state == Runnable || a.state == Running then b.state == Runnable || b.state == Running
       else b.state == a.state
  }
}