/** The process registry: creation, exit with its whole descendant tree, and reaping,
    on top of the scheduler and the console sessions. */
module Registry {
  import opened Common
  import opened Scheduler
  import Timer
  import opened Session

  const PID_MAX := 0x7FFF_FFFF

  /** The answer to a request to end a process. */
  datatype Reply = Accepted | Invalid | Denied | NoProcess

  // ----- The process tree -----------------------------------------------------------------

  /** `i` descends from the task `root` through at most `n` others; `self` is left out. */
  ghost predicate DescendsIn(tasks: seq<Task>, self: nat, root: nat, i: nat, n: nat)
    decreases n
  {
    && 2 <= i < |tasks| && i != self && Present(tasks[i])
    && (|| tasks[i].parent == root
        || (&& n > 0
            && exists j ::
                 0 <= j < |tasks| && tasks[j].id == tasks[i].parent && DescendsIn(tasks, self, root, j, n - 1)))
  }

  ghost predicate Descends(tasks: seq<Task>, self: nat, i: nat)
    requires self < |tasks|
  {
    exists n: nat :: DescendsIn(tasks, self, tasks[self].id, i, n)
  }

  ghost predicate IdsOk(tasks: seq<Task>, nextId: nat) {
    && nextId < WORD && (nextId == 0 || nextId >= 3)
    && (forall i :: 0 <= i < |tasks| && Present(tasks[i]) ==> 0 < tasks[i].id < if nextId == 0 then WORD else nextId)
    && (forall i, j :: 0 <= i < j < |tasks| && Present(tasks[i]) && Present(tasks[j]) ==> tasks[i].id != tasks[j].id)
  }

  /** Every process has a number of its own, and none was given out twice. */
  ghost predicate PidsOk(tasks: seq<Task>, nextPid: nat) {
    && 0 < nextPid <= PID_MAX + 1
    && (forall i :: 0 <= i < |tasks| && Numbered(tasks[i]) ==> 0 < tasks[i].pid < nextPid)
    && (forall i, j :: 0 <= i < j < |tasks| && Numbered(tasks[i]) && Numbered(tasks[j]) ==>
          tasks[i].pid != tasks[j].pid)
  }

  predicate Numbered(t: Task) { Present(t) && t.process }

  predicate IsProcess(t: Task, pid: nat) { Numbered(t) && t.pid == pid }

  predicate SamePid(a: Task, b: Task) {
    Numbered(b) ==> Numbered(a) && a.pid == b.pid
  }

  lemma PidsKept(tasks: seq<Task>, tasks': seq<Task>, nextPid: nat)
    requires PidsOk(tasks, nextPid) && |tasks'| == |tasks|
    requires forall i :: 0 <= i < |tasks| ==> SamePid(tasks[i], tasks'[i])
    ensures PidsOk(tasks', nextPid)
  {
    forall i, j | 0 <= i < j < |tasks'| && Numbered(tasks'[i]) && Numbered(tasks'[j])
      ensures tasks'[i].pid != tasks'[j].pid
    {
      assert SamePid(tasks[i], tasks'[i]) && SamePid(tasks[j], tasks'[j]);
    }
    forall i | 0 <= i < |tasks'| && Numbered(tasks'[i])
      ensures 0 < tasks'[i].pid < nextPid
    {
      assert SamePid(tasks[i], tasks'[i]);
    }
  }

  lemma PidAdded(tasks: seq<Task>, tasks': seq<Task>, i: nat, nextPid: nat)
    requires PidsOk(tasks, nextPid) && nextPid <= PID_MAX && |tasks'| == |tasks|
    requires i < |tasks| && tasks' == tasks[i := tasks'[i]]
    requires tasks'[i].pid == nextPid
    ensures PidsOk(tasks', nextPid + 1)
  {
  }

  ghost predicate HasParent(tasks: seq<Task>, i: nat)
    requires i < |tasks|
  {
    exists j :: 0 <= j < |tasks| && Alive(tasks[j]) && tasks[j].id == tasks[i].parent
  }

  /** No process is left with a parent that has exited or gone. */
  ghost predicate TreeOk(tasks: seq<Task>) {
    forall i :: 0 <= i < |tasks| && Present(tasks[i]) ==>
      if tasks[i].process then i >= 2 && tasks[i].parent < tasks[i].id && HasParent(tasks, i) else tasks[i].parent == 0
  }

  /** Everything marked so far descends from the current task. */
  ghost predicate Sound(tasks: seq<Task>, self: nat, marks: seq<bool>)
    requires self < |tasks|
  {
    |marks| == |tasks| && forall i :: 0 <= i < |tasks| && marks[i] ==> Descends(tasks, self, i)
  }

  /** All children of the task with this id are marked. */
  ghost predicate Covered(tasks: seq<Task>, self: nat, marks: seq<bool>, id: nat) {
    && |marks| == |tasks|
    && forall i :: 2 <= i < |tasks| && i != self && Present(tasks[i]) && tasks[i].parent == id ==> marks[i]
  }

  /** Marked slots closed under children contain every descendant. */
  lemma {:induction false} ClosedIsComplete(tasks: seq<Task>, self: nat, marks: seq<bool>, i: nat, n: nat)
    requires self < |tasks| && |marks| == |tasks| && Covered(tasks, self, marks, tasks[self].id)
    requires forall j :: 0 <= j < |tasks| && marks[j] ==> Covered(tasks, self, marks, tasks[j].id)
    requires DescendsIn(tasks, self, tasks[self].id, i, n)
    ensures marks[i]
    decreases n
  {
    if tasks[i].parent != tasks[self].id {
      var j :| 0 <= j < |tasks| && tasks[j].id == tasks[i].parent && DescendsIn(tasks, self, tasks[self].id, j, n - 1);
      ClosedIsComplete(tasks, self, marks, j, n - 1);
    }
  }

  lemma ChildDescends(tasks: seq<Task>, self: nat, at: nat, i: nat)
    requires self < |tasks| && at < |tasks| && (at == self || Descends(tasks, self, at))
    requires 2 <= i < |tasks| && i != self && Present(tasks[i]) && tasks[i].parent == tasks[at].id
    ensures Descends(tasks, self, i)
  {
    if at == self {
      assert DescendsIn(tasks, self, tasks[self].id, i, 0);
    } else {
      var n: nat :| DescendsIn(tasks, self, tasks[self].id, at, n);
      assert DescendsIn(tasks, self, tasks[self].id, i, n + 1);
    }
  }

  /** Distinct slots are at most as many as there are. */
  lemma {:induction false} QueueFits(queue: seq<nat>, bound: nat)
    requires forall i :: 0 <= i < |queue| ==> queue[i] < bound
    requires forall i, j :: 0 <= i < j < |queue| ==> queue[i] != queue[j]
    ensures |queue| <= bound
    decreases bound
  {
    if queue != [] {
      assert queue[0] < bound;
      if exists i :: 0 <= i < |queue| && queue[i] == bound - 1 {
        var i :| 0 <= i < |queue| && queue[i] == bound - 1;
        QueueFits(queue[..i] + queue[i + 1..], bound - 1);
      } else {
        QueueFits(queue, bound - 1);
      }
    }
  }

  /** Queue every unmarked child of one task. */
  method Enlist(tasks: seq<Task>, self: nat, marks0: seq<bool>, pending0: seq<nat>, parent: nat, ghost queue0: seq<nat>,
                ghost at: nat)
    returns (marks: seq<bool>, pending: seq<nat>, ghost queue: seq<nat>)
    requires |tasks| == SLOTS && self < SLOTS && at < SLOTS && parent == tasks[at].id
    requires (at == self || Descends(tasks, self, at))
    requires Queued(tasks, self, marks0, pending0, queue0) && Sound(tasks, self, marks0)
    ensures Queued(tasks, self, marks, pending, queue) && Sound(tasks, self, marks)
    ensures queue0 <= queue && Covered(tasks, self, marks, parent) && forall i :: 0 <= i < SLOTS && marks0[i] ==>
      marks[i]
  {
    hide Descends;
    marks, pending, queue := marks0, pending0, queue0;
    for i := 2 to SLOTS
      invariant Queued(tasks, self, marks, pending, queue) && Sound(tasks, self, marks) && queue0 <= queue
      invariant forall k :: 0 <= k < SLOTS && marks0[k] ==> marks[k]
      invariant forall k :: 2 <= k < i && k != self && Present(tasks[k]) && tasks[k].parent == parent ==> marks[k]
    {
      if tasks[i].state != Unused && i != self && !marks[i] && tasks[i].parent == parent {
        ChildDescends(tasks, self, at, i);
        QueueGrows(tasks, self, marks, pending, queue, i);
        marks, pending, queue := marks[i := true], pending + [tasks[i].id], queue + [i];
      }
    }
  }

  /** The queue of ids follows a queue of distinct slots: the task itself, then every
      marked slot once. */
  ghost predicate Queued(tasks: seq<Task>, self: nat, marks: seq<bool>, pending: seq<nat>, queue: seq<nat>) {
    && |marks| == |tasks| == SLOTS && self < SLOTS && |queue| == |pending| >= 1 && queue[0] == self && !marks[self]
    && (forall k :: 0 <= k < |queue| ==>
          queue[k] < SLOTS && pending[k] == tasks[queue[k]].id && (k > 0 ==> marks[queue[k]]))
    && (forall j, k :: 0 <= j < k < |queue| ==> queue[j] != queue[k])
    && (forall i :: 0 <= i < SLOTS && marks[i] ==> i in queue[1..])
  }

  lemma QueueGrows(tasks: seq<Task>, self: nat, marks: seq<bool>, pending: seq<nat>, queue: seq<nat>, i: nat)
    requires Queued(tasks, self, marks, pending, queue) && i < SLOTS && i != self && !marks[i]
    ensures Queued(tasks, self, marks[i := true], pending + [tasks[i].id], queue + [i])
    ensures |pending| < SLOTS
  {
    assert (queue + [i])[1..] == queue[1..] + [i];
    assert forall k :: 0 <= k < |queue| ==> queue[k] != i;
    QueueFits(queue + [i], SLOTS);
  }

  /** The breadth-first search: exactly the descendants, and the fixed queue suffices. */
  method Descendants(tasks: seq<Task>, self: nat) returns (marks: seq<bool>)
    requires |tasks| == SLOTS && self < SLOTS
    ensures |marks| == SLOTS && forall i :: 0 <= i < SLOTS ==> (marks[i] <==> Descends(tasks, self, i))
  {
    hide Descends;
    marks := seq(SLOTS, _ => false);
    var pending := [tasks[self].id];
    ghost var queue: seq<nat> := [self];
    var head := 0;
    while head < |pending|
      invariant head <= |pending| <= SLOTS
      invariant Queued(tasks, self, marks, pending, queue) && Sound(tasks, self, marks)
      invariant forall k :: 0 <= k < head ==> Covered(tasks, self, marks, pending[k])
      decreases SLOTS - head
    {
      var parent := pending[head];
      ghost var at := queue[head];
      ghost var marks0, pending0 := marks, pending;
      if head > 0 { assert marks[at]; }
      marks, pending, queue := Enlist(tasks, self, marks, pending, parent, queue, at);
      QueueFits(queue, SLOTS);
      assert forall k :: 0 <= k < |pending0| ==> pending[k] == pending0[k];
      head := head + 1;
    }
    forall i | 0 <= i < SLOTS
      ensures marks[i] <==> Descends(tasks, self, i)
    {
      if Descends(tasks, self, i) { FoundAll(tasks, self, marks, pending, queue, i); }
    }
  }

  lemma FoundAll(tasks: seq<Task>, self: nat, marks: seq<bool>, pending: seq<nat>, queue: seq<nat>, i: nat)
    requires Queued(tasks, self, marks, pending, queue) && Descends(tasks, self, i)
    requires forall k :: 0 <= k < |pending| ==> Covered(tasks, self, marks, pending[k])
    ensures marks[i]
  {
    hide Covered;
    assert pending[0] == tasks[self].id;
    forall j | 0 <= j < |tasks| && marks[j]
      ensures Covered(tasks, self, marks, tasks[j].id)
    {
      var k :| 0 <= k < |queue[1..]| && queue[1..][k] == j;
      assert pending[k + 1] == tasks[j].id;
    }
    var n: nat :| DescendsIn(tasks, self, tasks[self].id, i, n);
    ClosedIsComplete(tasks, self, marks, i, n);
  }

  // ----- Counting --------------------------------------------------------------------------------

  function PresentCount(tasks: seq<Task>): nat {
    if |tasks| <= 2 then 0 else PresentCount(tasks[..|tasks| - 1]) + if Present(tasks[|tasks| - 1]) then 1 else 0
  }

  function ExitedCount(tasks: seq<Task>): nat {
    if |tasks| <= 2 then 0 else ExitedCount(tasks[..|tasks| - 1]) + if tasks[|tasks| - 1].state == Exited then 1 else 0
  }

  lemma {:induction false} CountsUpdated(tasks: seq<Task>, i: nat, t: Task)
    requires 2 <= i < |tasks|
    ensures PresentCount(tasks[i := t]) ==
      PresentCount(tasks) - (if Present(tasks[i]) then 1 else 0) + if Present(t) then 1 else 0
    ensures ExitedCount(tasks[i := t]) ==
      ExitedCount(tasks) - (if tasks[i].state == Exited then 1 else 0) + if t.state == Exited then 1 else 0
    decreases |tasks|
  {
    var after, front := tasks[i := t], tasks[..|tasks| - 1];
    if i == |tasks| - 1 {
      assert after[..|after| - 1] == front;
    } else {
      assert after[..|after| - 1] == front[i := t];
      CountsUpdated(front, i, t);
    }
  }

  lemma {:induction false} CountsSame(a: seq<Task>, b: seq<Task>)
    requires |a| == |b| && forall i :: 0 <= i < |a| ==>
      Present(a[i]) == Present(b[i]) && (a[i].state == Exited <==> b[i].state == Exited)
    ensures PresentCount(a) == PresentCount(b) && ExitedCount(a) == ExitedCount(b)
    decreases |a|
  {
    if |a| > 2 { CountsSame(a[..|a| - 1], b[..|b| - 1]); }
  }

  lemma {:induction false} CountsBound(tasks: seq<Task>)
    ensures ExitedCount(tasks) <= PresentCount(tasks) <= |tasks|
    decreases |tasks|
  {
    if |tasks| > 2 { CountsBound(tasks[..|tasks| - 1]); }
  }

  /** Differences of the wrapping counters are the slots in use and the ones to reap. */
  ghost predicate CountsOk(tasks: seq<Task>, created: nat, exited: nat, reaped: nat) {
    && created < WORD && exited < WORD && reaped < WORD
    && (created - reaped) % WORD == PresentCount(tasks) && (exited - reaped) % WORD == ExitedCount(tasks)
  }

  lemma Advance(a: nat, b: nat, n: nat)
    requires a < WORD && b < WORD && (a - b) % WORD == n && n + 1 < WORD
    ensures ((a + 1) % WORD - b) % WORD == n + 1
    ensures n > 0 ==> (a - (b + 1) % WORD) % WORD == n - 1
  {
    assert (a - b) % WORD == if a >= b then a - b else a - b + WORD;
    assert (a + 1) % WORD == if a + 1 == WORD then 0 else a + 1;
    assert (b + 1) % WORD == if b + 1 == WORD then 0 else b + 1;
  }

  // ----- Consoles ---------------------------------------------------------------------------------

  ghost predicate ConsoleOk(t: Task, m: Member) {
    && (m.live <==> t.process && Alive(t))
    && (!t.process ==> m.session.None?)
    && (m.live ==> m.cancelled == t.cancelled && m.id == t.id)
  }

  ghost predicate ConsolesOk(tasks: seq<Task>, members: seq<Member>) {
    |members| == |tasks| && forall i :: 0 <= i < |tasks| ==> ConsoleOk(tasks[i], members[i])
  }

  /** The worker slots nobody uses. */
  ghost function FreeSlots(tasks: seq<Task>, limit: nat): set<nat>
    requires limit <= |tasks|
  {
    set i: nat | 2 <= i < limit && tasks[i].state == Unused
  }

  lemma OneMoreSlot(tasks: seq<Task>, i: nat)
    requires 2 <= i < |tasks|
    ensures |FreeSlots(tasks, i + 1)| == |FreeSlots(tasks, i)| + if tasks[i].state == Unused then 1 else 0
  {
    assert FreeSlots(tasks, i + 1) == FreeSlots(tasks, i) + if tasks[i].state == Unused then {i} else {};
  }

  class Registry {
    const scheduler: Scheduler
    const console: Sessions
    var nextId: nat
    var nextPid: nat
    var created: nat
    var exited: nat
    var reaped: nat

    ghost predicate Valid()
      reads this, scheduler, console
    {
      scheduler.Valid() && console.Valid() && Consistent()
    }

    ghost predicate Consistent()
      reads this, scheduler, console
    {
      && IdsOk(scheduler.tasks, nextId) && TreeOk(scheduler.tasks) && CountsOk(scheduler.tasks, created, exited, reaped)
      && ConsolesOk(scheduler.tasks, console.members) && PidsOk(scheduler.tasks, nextPid)
    }

    constructor ()
      ensures Valid() && fresh(scheduler) && fresh(console)
    {
      scheduler := new Scheduler();
      console := new Sessions(SLOTS);
      nextId, nextPid, created, exited, reaped := 3, 1, 0, 0, 0;
      new;
      hide scheduler.Valid, console.Valid, IdsOk, TreeOk, CountsOk, ConsolesOk, PidsOk;
      scheduler.Started();
      StartsConsistent(scheduler.tasks, console.members);
    }

    /** The console record of a free slot is unused too. */
    lemma UnusedConsole(i: nat)
      requires Valid() && i < SLOTS && scheduler.tasks[i].state == Unused
      ensures i < |console.members| && console.Unused(i)
    {
      hide PidsOk, WaitsOk, MembersCounted, SessionsCounted, Placed, Linked, Shaped, CountsOk, TreeOk, IdsOk;
      console.ExitedIsFree(i);
    }

    /** A free worker slot, if there is one. */
    method AvailableSlot() returns (slot: nat)
      requires scheduler.Valid()
      ensures slot <= SLOTS && (slot < SLOTS ==> 2 <= slot && scheduler.tasks[slot].state == Unused)
      ensures slot == SLOTS ==> forall i :: 2 <= i < SLOTS ==> Present(scheduler.tasks[i])
      ensures |scheduler.tasks| == SLOTS && (slot < SLOTS <==> |FreeSlots(scheduler.tasks, SLOTS)| > 0)
    {
      hide WaitsOk;
      slot := 2;
      while slot < SLOTS && scheduler.tasks[slot].state != Unused
        invariant 2 <= slot <= SLOTS && forall i :: 2 <= i < slot ==> Present(scheduler.tasks[i])
      {
        slot := slot + 1;
      }
      if slot < SLOTS {
        assert slot in FreeSlots(scheduler.tasks, SLOTS);
      } else {
        assert FreeSlots(scheduler.tasks, SLOTS) == {};
      }
    }

    /** A process in front must leave a slot free for a control tool behind it. */
    method BackgroundCapacity() returns (ok: bool)
      requires scheduler.Valid()
      ensures |scheduler.tasks| == SLOTS && scheduler.current < SLOTS
      ensures ok <==> !scheduler.tasks[scheduler.current].process || |FreeSlots(scheduler.tasks, SLOTS)| > 1
    {
      hide WaitsOk;
      if !scheduler.tasks[scheduler.current].process { return true; }
      var free := 0;
      for i := 2 to SLOTS
        invariant free == |FreeSlots(scheduler.tasks, i)|
      {
        OneMoreSlot(scheduler.tasks, i);
        if scheduler.tasks[i].state == Unused { free := free + 1; }
      }
      ok := free > 1;
    }

    ghost function Launcher(): Option<nat>
      requires scheduler.current < |scheduler.tasks|
      reads scheduler
    {
      if scheduler.tasks[scheduler.current].process then Some(scheduler.current) else None
    }

    /** When a process may be created: identifiers are left, the creator is not being
        cancelled, the console lets it launch and a slot is free, two if it goes behind. */
    ghost predicate MayCreate(foreground: bool)
      requires Valid() && scheduler.current < |scheduler.tasks| == |console.members| == SLOTS
      reads this, scheduler, console
    {
      var me := scheduler.tasks[scheduler.current];
      && nextId != 0 && nextPid <= PID_MAX && !(me.process && me.cancelled)
      && console.MayLaunch(Launcher(), foreground)
      && |FreeSlots(scheduler.tasks, SLOTS)| > if me.process && !foreground then 1 else 0
    }

    lemma Sized()
      requires Valid()
      ensures scheduler.current < |scheduler.tasks| == |console.members| == SLOTS
    {
      hide PidsOk, WaitsOk, MembersCounted, SessionsCounted, Placed, Linked, Shaped, CountsOk, TreeOk, IdsOk;
    }

    /** Publish a new process. Once its slot and its right to launch are settled, joining
        the console cannot fail. */
    method CreateProcess(foreground: bool, shell: bool, refused: bool) returns (id: nat, ghost slot: nat)
      requires Valid() && (shell ==> foreground && !scheduler.tasks[scheduler.current].process)
      modifies this, scheduler`tasks, console
      ensures Valid() && scheduler.current == old(scheduler.current)
      ensures old(scheduler.current < |scheduler.tasks| == |console.members| == SLOTS)
      ensures id != 0 <==> !refused && old(MayCreate(foreground))
      ensures id == 0 ==>
        && scheduler.tasks == old(scheduler.tasks) && console.members == old(console.members)
        && nextId == old(nextId) && nextPid == old(nextPid)
      ensures id != 0 ==> id == old(nextId) && 2 <= slot < SLOTS && old(scheduler.tasks)[slot].state == Unused
      ensures id != 0 ==>
        && nextId == (id + 1) % WORD && nextPid == old(nextPid) + 1
        && scheduler.tasks ==
             old(scheduler.tasks)[slot := NewProcess(id, old(nextPid), old(scheduler.tasks)[scheduler.current].id)]
      ensures id != 0 ==>
        console.members[slot].live && (foreground ==> console.Owns(slot)) && (shell ==> console.IsShell(slot))
    {
      hide PidsOk, WaitsOk, MembersCounted, SessionsCounted, Placed, Linked, Shaped, CountsOk, SlotsOk, TreeOk, IdsOk;
      Sized();
      id, slot := 0, 0;
      var me := scheduler.current;
      var parent: Option<nat> := if scheduler.tasks[me].process then Some(me) else None;
      if nextId == 0 || nextPid > PID_MAX || refused || (scheduler.tasks[me].process && scheduler.tasks[me].cancelled) {
        return;
      }
      if !foreground {
        var capacity := BackgroundCapacity();
        if !capacity { return; }
      }
      var may := console.CanLaunch(parent, foreground);
      if !may { return; }
      var free := AvailableSlot();
      if free == SLOTS { return; }
      id, slot := nextId, free;
      Launch(free, parent, foreground);
      if shell { MarkRoot(free); }
    }

    /** Join the console and publish the record in one update. */
    method Launch(free: nat, parent: Option<nat>, foreground: bool)
      requires Valid() && nextId != 0 && nextPid <= PID_MAX && 2 <= free < SLOTS
      requires scheduler.tasks[free].state == Unused
      requires parent == if scheduler.tasks[scheduler.current].process then Some(scheduler.current) else None
      requires parent.Some? ==> parent.value < |console.members|
      requires console.MayLaunch(parent, foreground)
      modifies this, scheduler`tasks, console
      ensures Valid() && |console.members| == SLOTS
      ensures scheduler.tasks ==
        old(scheduler.tasks)[free := NewProcess(old(nextId), old(nextPid), old(scheduler.tasks)[scheduler.current].id)]
      ensures nextId == (old(nextId) + 1) % WORD && nextPid == old(nextPid) + 1
      ensures console.members[free].live && !console.members[free].shell && (foreground ==> console.Owns(free))
      ensures foreground && parent.None? ==> console.IsRoot(free)
    {
      hide PidsOk, WaitsOk, MembersCounted, SessionsCounted, Placed, Linked, Shaped, CountsOk, SlotsOk, TreeOk, IdsOk;
      SlotRange(scheduler.tasks, scheduler.current);
      UnusedConsole(free);
      ghost var members := console.members;
      var joined := console.Attach(free, nextId, parent, foreground);
      assert joined;
      ghost var before := scheduler.tasks;
      ghost var after := before[free := NewProcess(nextId, nextPid, before[scheduler.current].id)];
      Published(before, after, scheduler.current, free, nextId, nextPid);
      PidAdded(before, after, free, nextPid);
      scheduler.tasks := scheduler.tasks[free := NewProcess(nextId, nextPid, scheduler.tasks[scheduler.current].id)];
      nextPid := nextPid + 1;
      nextId := (nextId + 1) % WORD;
      created := (created + 1) % WORD;
      PublishedWaits(before, scheduler.tasks, scheduler.sequence, scheduler.ticks, scheduler.seen, scheduler.left,
                     free);
      PublishedCounts(before, scheduler.tasks, free, old(created), exited, reaped);
    }

    /** The first member of a new session may be its shell. */
    method MarkRoot(slot: nat)
      requires Valid() && slot < |console.members| && console.Owns(slot) && console.IsRoot(slot)
      requires !console.members[slot].shell
      modifies console`members
      ensures Valid() && |console.members| == old(|console.members|) && console.IsShell(slot) && console.Owns(slot)
      ensures console.members[slot].live
    {
      hide PidsOk, WaitsOk, MembersCounted, SessionsCounted, Placed, Linked, Shaped, CountsOk, SlotsOk, TreeOk, IdsOk;
      var marked := console.MarkShell(slot);
      assert marked;
    }

    // ----- Exit ---------------------------------------------------------------------------------------

    /** The descendants of the current task and, if it is a session's root, the rest of
        that session. */
    ghost predicate Doomed(i: nat)
      requires scheduler.current < |scheduler.tasks| == |console.members|
      reads scheduler, console
    {
      && i < |scheduler.tasks|
      && (|| Descends(scheduler.tasks, scheduler.current, i)
          || (&& console.IsRoot(scheduler.current) && 2 <= i && i != scheduler.current && Present(scheduler.tasks[i])
              && console.members[i].session == console.members[scheduler.current].session))
    }

    ghost function AllDoomed(): set<nat>
      requires scheduler.current < |scheduler.tasks| == |console.members|
      reads scheduler, console
    {
      set i: nat | i < |scheduler.tasks| && Doomed(i)
    }

    /** Who holds the console once the current task has ended: nobody if it was the root,
        otherwise the nearest member on the way back that is not cancelled, now or before. */
    ghost function Heir(): Option<nat>
      requires console.Valid() && scheduler.current < |scheduler.tasks| == |console.members|
      reads scheduler, console
    {
      console.SuccessorFrom(scheduler.current);
      WarnedFalls(console.members, AllDoomed(), console.order);
      var m := console.members[scheduler.current];
      if !m.live then console.Owner()
      else if console.IsRoot(scheduler.current) then None
      else if m.session != console.active then console.Owner()
      else SuccessorOf(Warned(console.members, AllDoomed()), console.order, console.Owner(), scheduler.current)
    }

    method FindDoomed() returns (marks: seq<bool>)
      requires Valid() && |console.members| == SLOTS && scheduler.current < |scheduler.tasks| == SLOTS
      ensures |marks| == SLOTS && forall i :: 0 <= i < SLOTS ==> (marks[i] <==> Doomed(i))
    {
      hide PidsOk, WaitsOk, MembersCounted, SessionsCounted, Placed, Linked, Shaped, CountsOk, TreeOk, IdsOk, Descends,
           SlotsOk;
      var me := scheduler.current;
      marks := Descendants(scheduler.tasks, me);
      var mine := console.members[me].session;
      if mine.Some? && mine.value < |console.sessions| && console.sessions[mine.value].root == Some(me) {
        for i := 2 to SLOTS
          invariant |marks| == SLOTS
          invariant forall k :: 0 <= k < SLOTS ==>
            (marks[k] <==> if k < i then Doomed(k) else Descends(scheduler.tasks, me, k))
        {
          if scheduler.tasks[i].state != Unused && i != me && console.members[i].session == mine {
            marks := marks[i := true];
          }
        }
      }
    }

    /** Adopt every doomed task into boot's care, cancel it and wake it. */
    method Abandon(marks: seq<bool>)
      requires Valid() && |marks| == |scheduler.tasks| == |console.members| == SLOTS
      requires forall i :: 0 <= i < SLOTS && marks[i] ==>
        i >= 2 && i != scheduler.current && scheduler.tasks[i].process && Present(scheduler.tasks[i])
      modifies scheduler`tasks, console`members
      ensures scheduler.Valid() && console.Valid() && ConsolesOk(scheduler.tasks, console.members)
      ensures |scheduler.tasks| == SLOTS == |console.members|
      ensures forall i :: 0 <= i < SLOTS ==>
        scheduler.tasks[i] == if marks[i] then Orphaned(old(scheduler.tasks)[i]) else old(scheduler.tasks)[i]
      ensures forall i :: 0 <= i < SLOTS ==>
        console.members[i] == old(console.members)[i].(cancelled := old(console.members)[i].cancelled || marks[i])
    {
      hide PidsOk, WaitsOk, CountsOk, TreeOk, IdsOk, SlotsOk, console.Valid, Orphaned, Present;
      SlotRange(scheduler.tasks, scheduler.current);
      for i := 2 to SLOTS
        modifies scheduler`tasks, console`members
        invariant scheduler.Valid() && console.Valid() && ConsolesOk(scheduler.tasks, console.members)
        invariant |scheduler.tasks| == SLOTS
        invariant forall k :: 0 <= k < SLOTS ==>
          scheduler.tasks[k] == if k < i && marks[k] then Orphaned(old(scheduler.tasks)[k]) else old(scheduler.tasks)[k]
        invariant |console.members| == SLOTS
        invariant forall k :: 0 <= k < SLOTS ==>
          console.members[k] ==
            old(console.members)[k].(cancelled := old(console.members)[k].cancelled || (k < i && marks[k]))
      {
        if marks[i] { AbandonOne(i); }
      }
    }

    method AbandonOne(i: nat)
      requires scheduler.Valid() && console.Valid() && ConsolesOk(scheduler.tasks, console.members)
      requires 2 <= i < |scheduler.tasks| && i != scheduler.current && scheduler.tasks[i].process
      requires Present(scheduler.tasks[i])
      modifies scheduler`tasks, console`members
      ensures scheduler.Valid() && console.Valid() && ConsolesOk(scheduler.tasks, console.members)
      ensures scheduler.tasks == old(scheduler.tasks)[i := Orphaned(old(scheduler.tasks)[i])]
      ensures console.members == old(console.members)[i := old(console.members)[i].(cancelled := true)]
    {
      hide PidsOk, WaitsOk, MembersCounted, SessionsCounted, Placed, Linked, Shaped, SlotsOk;
      SlotRange(scheduler.tasks, scheduler.current);
      ghost var before := scheduler.tasks;
      Adopt(before, scheduler.tasks[i := scheduler.tasks[i].(parent := 1, orphaned := true)], scheduler.current, i,
            scheduler.sequence, scheduler.ticks, scheduler.seen, scheduler.left);
      scheduler.tasks := scheduler.tasks[i := scheduler.tasks[i].(parent := 1, orphaned := true)];
      scheduler.Cancel(i);
      console.Cancel(i);
    }

    /** Abandon the whole tree of the current task, which is still at the console. */
    method AbandonTree() returns (ghost marks: seq<bool>)
      requires Valid() && scheduler.current != BOOT && scheduler.current != IDLE
      requires scheduler.current < |scheduler.tasks| == |console.members|
      modifies scheduler`tasks, console`members
      ensures scheduler.Valid() && console.Valid() && ConsolesOk(scheduler.tasks, console.members)
      ensures IdsOk(scheduler.tasks, nextId) && PidsOk(scheduler.tasks, nextPid)
      ensures CountsOk(scheduler.tasks, created, exited, reaped) && TreeWithout(scheduler.tasks, scheduler.current)
      ensures |marks| == |old(scheduler.tasks)| == |scheduler.tasks| == SLOTS
      ensures forall i :: 0 <= i < SLOTS ==> (marks[i] <==> old(Doomed(i)))
      ensures forall i :: 0 <= i < SLOTS ==>
        scheduler.tasks[i] == if marks[i] then Orphaned(old(scheduler.tasks)[i]) else old(scheduler.tasks)[i]
      ensures console.members == Warned(old(console.members), old(AllDoomed()))
      ensures var me := scheduler.current; var m := old(console.members)[me];
        old(Heir()) == if !m.live then old(console.Owner()) else if old(console.IsRoot(me)) then None
          else console.Successor(me)
    {
      hide PidsOk, WaitsOk, CountsOk, SlotsOk, TreeOk, IdsOk, Doomed, console.Valid, Orphaned, SuccessorOf, Falls,
           Trail;
      SlotRange(scheduler.tasks, scheduler.current);
      ghost var tasks0 := scheduler.tasks;
      ghost var heir := Heir();
      console.SuccessorFrom(scheduler.current);
      WarnedFalls(console.members, AllDoomed(), console.order);
      var found := FindDoomed();
      marks := found;
      DoomedAreProcesses(marks);
      Abandon(found);
      AbandonedOk(tasks0, scheduler.tasks, marks, scheduler.current, nextId, created, exited, reaped);
      OrphanedPids(tasks0, scheduler.tasks, nextPid);
      assert console.members == Warned(old(console.members), old(AllDoomed()));
      console.SuccessorFrom(scheduler.current);
    }

    /** The current task ends: its whole tree is abandoned first, then it leaves the
        console, tells its parent and never runs again. */
    method Exit() returns (discard: bool)
      requires Valid() && scheduler.current != BOOT && scheduler.current != IDLE
      requires scheduler.current < |scheduler.tasks| == |console.members|
      modifies this, scheduler, console
      ensures Valid() && |scheduler.tasks| == SLOTS && scheduler.tasks[old(scheduler.current)].state == Exited
      ensures forall i :: 0 <= i < SLOTS && i != old(scheduler.current) ==>
        Fate(old(scheduler.tasks)[i], scheduler.tasks[i], old(Doomed(i)))
      ensures console.Owner() == old(Heir())
      ensures Undisturbed(Warned(old(console.members), old(AllDoomed())), console.members, old(scheduler.current))
      ensures var m := old(console.members)[old(scheduler.current)];
        && (discard <==> m.live && m.shell && old(console.IsRoot(scheduler.current)))
        && (m.live && old(console.IsRoot(scheduler.current)) ==> console.active.None?)
    {
      hide PidsOk, WaitsOk, CountsOk, SlotsOk, TreeOk, IdsOk, ConsolesOk, Doomed, Fate, console.Valid, AllWoken,
           Orphaned;
      SlotRange(scheduler.tasks, scheduler.current);
      ghost var tasks0 := scheduler.tasks;
      var me := scheduler.current;
      ghost var marks := AbandonTree();
      ghost var tasks1 := scheduler.tasks;
      discard := Leave();
      ghost var tasks2 := scheduler.tasks;
      Notify(me);
      ghost var tasks3 := scheduler.tasks;
      SlotRange(scheduler.tasks, scheduler.current);
      Dispatch();
      FateIs(tasks0, marks, tasks1, tasks2, tasks3, scheduler.tasks, me);
    }

    lemma DoomedAreProcesses(marks: seq<bool>)
      requires Valid() && |marks| == |scheduler.tasks| == |console.members| == SLOTS && scheduler.current < SLOTS
      requires forall i :: 0 <= i < SLOTS ==> (marks[i] <==> Doomed(i))
      ensures forall i :: 0 <= i < SLOTS && marks[i] ==>
        i >= 2 && i != scheduler.current && scheduler.tasks[i].process && Present(scheduler.tasks[i])
      ensures forall i ::
          0 <= i < SLOTS && i != scheduler.current && Present(scheduler.tasks[i]) && scheduler.tasks[i].process ==>
        (scheduler.tasks[i].parent == scheduler.tasks[scheduler.current].id ==> marks[i])
    {
      hide PidsOk, WaitsOk, MembersCounted, SessionsCounted, Placed, Linked, Shaped, CountsOk;
      var tasks, me := scheduler.tasks, scheduler.current;
      forall i | 0 <= i < SLOTS && marks[i]
        ensures i >= 2 && i != me && tasks[i].process && Present(tasks[i])
      {
        if Descends(tasks, me, i) {
          var n: nat :| DescendsIn(tasks, me, tasks[me].id, i, n);
          assert Present(tasks[me]);
          if tasks[i].parent != tasks[me].id {
            var j :| 0 <= j < |tasks| && tasks[j].id == tasks[i].parent
              && DescendsIn(tasks, me, tasks[me].id, j, n - 1);
            assert Present(tasks[j]);
          }
        }
      }
      forall i | 0 <= i < SLOTS && i != me && Present(tasks[i]) && tasks[i].process && tasks[i].parent == tasks[me].id
        ensures marks[i]
      {
        assert DescendsIn(tasks, me, tasks[me].id, i, 0);
      }
    }

    /** Off the console and out of the running, with the registry's books in order. */
    method Leave() returns (discard: bool)
      requires scheduler.Valid() && console.Valid() && ConsolesOk(scheduler.tasks, console.members)
      requires IdsOk(scheduler.tasks, nextId) && PidsOk(scheduler.tasks, nextPid)
      requires CountsOk(scheduler.tasks, created, exited, reaped)
      requires 2 <= scheduler.current < |scheduler.tasks| && TreeWithout(scheduler.tasks, scheduler.current)
      modifies this`exited, scheduler`tasks, console
      ensures scheduler.Settled() && console.Valid() && Consistent()
      ensures scheduler.tasks ==
        old(scheduler.tasks)[scheduler.current := old(scheduler.tasks)[scheduler.current].(state := Exited)]
      ensures Undisturbed(old(console.members), console.members, scheduler.current)
      ensures var m := old(console.members)[scheduler.current]; var root := old(console.IsRoot(scheduler.current));
        && (discard <==> m.live && m.shell && root)
        && (m.live && root ==> console.active.None?)
        && console.Owner() == if !m.live then old(console.Owner()) else if root then None
             else old(console.Successor(scheduler.current))
    {
      hide PidsOk, WaitsOk, MembersCounted, SessionsCounted, Placed, Linked, Shaped, CountsOk, SlotsOk, IdsOk,
           TreeWithout, TreeOk, ConsolesOk, Undisturbed;
      SlotRange(scheduler.tasks, scheduler.current);
      var me := scheduler.current;
      ConsoleSize(scheduler.tasks, console.members);
      discard := console.MemberExit(me);
      ghost var before := scheduler.tasks;
      scheduler.tasks := scheduler.tasks[me := scheduler.tasks[me].(state := Exited)];
      exited := (exited + 1) % WORD;
      ExitedOk(before, scheduler.tasks, me, nextId, created, old(exited), reaped);
      PidsKept(before, scheduler.tasks, nextPid);
      ExitedWaits(before, scheduler.tasks, me, scheduler.sequence, scheduler.ticks, scheduler.seen, scheduler.left);
      ExitedConsoles(before, scheduler.tasks, old(console.members), console.members, me);
    }

    /** Tell the parent, and its prompt if it is a shell. */
    method Notify(me: nat)
      requires scheduler.Settled() && console.Valid() && Consistent() && me < |scheduler.tasks|
      modifies scheduler`tasks, scheduler`sequence
      ensures scheduler.Settled() && console.Valid() && Consistent()
      ensures AllWoken(old(scheduler.tasks), scheduler.tasks)
    {
      hide PidsOk, WaitsOk, CountsOk, SlotsOk, TreeOk, IdsOk, ConsolesOk, console.Valid, MaybeWoken, Signalled;
      SlotRange(scheduler.tasks, scheduler.current);
      UntouchedWoken(scheduler.tasks);
      if scheduler.tasks[me].process {
        var j := FindParent(me);
        if j < SLOTS {
          ghost var before := scheduler.tasks;
          scheduler.Signal(Children(j));
          ghost var middle := scheduler.tasks;
          SlotRange(scheduler.tasks, scheduler.current);
          SignalWakes(before, middle, Children(j));
          ConsoleSize(before, console.members);
          if console.IsShell(j) {
            scheduler.Signal(Input(j));
            SlotRange(scheduler.tasks, scheduler.current);
            SignalWakes(middle, scheduler.tasks, Input(j));
            WokenTwice(before, middle, scheduler.tasks);
          }
          WokenKin(before, scheduler.tasks);
          KinKeeps(before, scheduler.tasks, nextId, created, exited, reaped, console.members);
          PidsKept(before, scheduler.tasks, nextPid);
        }
      }
    }

    /** Hand the processor over. */
    method Dispatch()
      requires scheduler.Settled() && console.Valid() && Consistent()
      requires scheduler.current != IDLE && scheduler.current < |scheduler.tasks|
      modifies scheduler`tasks, scheduler`current
      ensures Valid() && |scheduler.tasks| == SLOTS && AllWoken(old(scheduler.tasks), scheduler.tasks)
    {
      hide PidsOk, WaitsOk, CountsOk, SlotsOk, TreeOk, IdsOk, ConsolesOk, console.Valid, MaybeWoken;
      ghost var before := scheduler.tasks;
      SlotRange(scheduler.tasks, scheduler.current);
      scheduler.Schedule();
      SlotRange(scheduler.tasks, scheduler.current);
      DispatchedKin(before, scheduler.tasks);
      WokenKin(before, scheduler.tasks);
      KinKeeps(before, scheduler.tasks, nextId, created, exited, reaped, console.members);
      PidsKept(before, scheduler.tasks, nextPid);
    }

    /** The slot of the parent, if it is still there. */
    method FindParent(me: nat) returns (j: nat)
      requires |scheduler.tasks| == SLOTS && me < SLOTS
      ensures j <= SLOTS
      ensures j < SLOTS ==> Present(scheduler.tasks[j]) && scheduler.tasks[j].id == scheduler.tasks[me].parent
      ensures j == SLOTS ==>
        forall k :: 0 <= k < SLOTS ==>
          !(Present(scheduler.tasks[k]) && scheduler.tasks[k].id == scheduler.tasks[me].parent)
    {
      j := 0;
      while j < SLOTS && !(scheduler.tasks[j].state != Unused && scheduler.tasks[j].id == scheduler.tasks[me].parent)
        invariant j <= SLOTS
        invariant forall k :: 0 <= k < j ==>
          !(Present(scheduler.tasks[k]) && scheduler.tasks[k].id == scheduler.tasks[me].parent)
      {
        j := j + 1;
      }
    }

    // ----- Reaping -----------------------------------------------------------------------------------

    /** Give an exited task's slot back. Nothing points to its console record any more,
        so leaving the console cannot fail. */
    method Reap(i: nat, refused: bool) returns (ok: bool)
      requires Valid() && 2 <= i < |scheduler.tasks| == |console.members|
      modifies this`reaped, scheduler`tasks, console`members, console`sessions
      ensures Valid() && (ok <==> old(scheduler.tasks)[i].state == Exited && !refused)
      ensures scheduler.tasks == if ok then old(scheduler.tasks)[i := FREE] else old(scheduler.tasks)
      ensures !ok ==> console.members == old(console.members)
    {
      hide PidsOk, WaitsOk, MembersCounted, SessionsCounted, Placed, Linked, Shaped, CountsOk, SlotsOk, TreeOk, IdsOk;
      SlotRange(scheduler.tasks, scheduler.current);
      if scheduler.tasks[i].state != Exited || refused { return false; }
      assert !console.members[i].live by { assert ConsoleOk(scheduler.tasks[i], console.members[i]); }
      var detached := console.Detach(i);
      assert detached;
      ghost var before := scheduler.tasks;
      scheduler.tasks := scheduler.tasks[i := FREE];
      reaped := (reaped + 1) % WORD;
      ReapedOk(before, scheduler.tasks, scheduler.current, i, nextId, created, exited, old(reaped));
      PidsKept(before, scheduler.tasks, nextPid);
      PublishedWaits(before, scheduler.tasks, scheduler.sequence, scheduler.ticks, scheduler.seen, scheduler.left, i);
      ok := true;
    }

    /** Free one slot, if it is due. */
    method Collect(i: nat, all: bool, refused: bool) returns (released: bool)
      requires Valid() && 2 <= i < |scheduler.tasks| == SLOTS && scheduler.current < SLOTS
      modifies this`reaped, scheduler`tasks, console`members, console`sessions
      ensures Valid() && scheduler.tasks == old(scheduler.tasks)[i :=
        Collected(old(scheduler.tasks)[i], !refused, all, old(scheduler.tasks)[scheduler.current].id)]
      ensures scheduler.tasks[scheduler.current].id == old(scheduler.tasks)[scheduler.current].id
      ensures PresentCount(scheduler.tasks) == PresentCount(old(scheduler.tasks)) - if released then 1 else 0
    {
      hide PidsOk, WaitsOk, CountsOk, SlotsOk, TreeOk, IdsOk, ConsolesOk, console.Valid, PresentCount;
      SlotRange(scheduler.tasks, scheduler.current);
      ConsoleSize(scheduler.tasks, console.members);
      CountsUpdated(scheduler.tasks, i, FREE);
      var t := scheduler.tasks[i];
      released := false;
      var awaited := t.process && !t.orphaned && (!all || t.parent != scheduler.tasks[scheduler.current].id);
      if t.state != Unused && !awaited {
        released := Reap(i, refused);
      }
    }

    /** Every ended task whose result nobody is entitled to any more, or that belongs to
        the current task when asked, is freed unless its resources are refused. */
    method ReapExited(all: bool, refused: set<nat>) returns (count: nat)
      requires Valid()
      modifies this`reaped, scheduler`tasks, console`members, console`sessions
      ensures Valid() && |scheduler.tasks| == SLOTS == |old(scheduler.tasks)| && scheduler.current < SLOTS
      ensures forall i :: 0 <= i < SLOTS ==>
        scheduler.tasks[i] ==
          Collected(old(scheduler.tasks)[i], i >= 2 && i !in refused, all, old(scheduler.tasks)[scheduler.current].id)
      ensures count == PresentCount(old(scheduler.tasks)) - PresentCount(scheduler.tasks)
    {
      hide PidsOk, WaitsOk, CountsOk, SlotsOk, TreeOk, IdsOk, ConsolesOk, console.Valid, PresentCount, Collected;
      SlotRange(scheduler.tasks, scheduler.current);
      NothingCollected(scheduler.tasks, all, scheduler.tasks[scheduler.current].id);
      ghost var me := scheduler.tasks[scheduler.current].id;
      count := 0;
      for i := 2 to SLOTS
        modifies this`reaped, scheduler`tasks, console`members, console`sessions
        invariant Valid() && |scheduler.tasks| == SLOTS && scheduler.tasks[scheduler.current].id == me
        invariant forall k :: 0 <= k < SLOTS ==>
          scheduler.tasks[k] == Collected(old(scheduler.tasks)[k], 2 <= k < i && k !in refused, all, me)
        invariant count == PresentCount(old(scheduler.tasks)) - PresentCount(scheduler.tasks)
      {
        var released := Collect(i, all, i in refused);
        if released { count := count + 1; }
      }
    }

    // ----- The other steps ------------------------------------------------------------------------------

    /** Ticks, signals, waits and yields move tasks between states and leave the registry
        as it is. */
    method Tick()
      requires Valid()
      modifies scheduler
      ensures Valid() && scheduler.ticks == (old(scheduler.ticks) + 1) % Timer.CLOCK
      ensures |scheduler.tasks| == |old(scheduler.tasks)| == SLOTS
      ensures forall i :: 0 <= i < SLOTS ==> Kin(old(scheduler.tasks)[i], scheduler.tasks[i])
      ensures forall i :: 0 <= i < SLOTS && old(scheduler.tasks)[i].state == Blocked ==>
        (scheduler.tasks[i].state == Runnable && scheduler.tasks[i].reason == ByTimeout <==>
          old(scheduler.tasks)[i].timed && old(scheduler.left)[i] == 1)
    {
      hide PidsOk, WaitsOk, MembersCounted, SessionsCounted, Placed, Linked, Shaped, CountsOk, SlotsOk, TreeOk, IdsOk,
           ConsolesOk;
      ghost var before := scheduler.tasks;
      scheduler.Tick();
      SlotRange(scheduler.tasks, scheduler.current);
      KinKeeps(before, scheduler.tasks, nextId, created, exited, reaped, console.members);
      PidsKept(before, scheduler.tasks, nextPid);
    }

    method Signal(e: Event)
      requires Valid()
      modifies scheduler`tasks, scheduler`sequence
      ensures Valid() && |scheduler.tasks| == |old(scheduler.tasks)| == SLOTS
      ensures forall i :: 0 <= i < SLOTS ==> scheduler.tasks[i] == Signalled(old(scheduler.tasks)[i], e)
    {
      hide PidsOk, WaitsOk, MembersCounted, SessionsCounted, Placed, Linked, Shaped, CountsOk, SlotsOk, TreeOk, IdsOk,
           ConsolesOk;
      ghost var before := scheduler.tasks;
      SlotRange(scheduler.tasks, scheduler.current);
      scheduler.Signal(e);
      SlotRange(scheduler.tasks, scheduler.current);
      KinKeeps(before, scheduler.tasks, nextId, created, exited, reaped, console.members);
      PidsKept(before, scheduler.tasks, nextPid);
    }

    method Yield(protected: bool) returns (ok: bool)
      requires Valid()
      modifies scheduler`tasks, scheduler`current
      ensures Valid() && (ok <==> old(scheduler.current) != IDLE && !protected)
      ensures AllWoken(old(scheduler.tasks), scheduler.tasks)
    {
      hide PidsOk, WaitsOk, CountsOk, SlotsOk, TreeOk, IdsOk, ConsolesOk, console.Valid;
      ghost var before := scheduler.tasks;
      ok := scheduler.Yield(protected);
      DispatchedKin(before, scheduler.tasks);
      WokenKin(before, scheduler.tasks);
      KinKeeps(before, scheduler.tasks, nextId, created, exited, reaped, console.members);
      PidsKept(before, scheduler.tasks, nextPid);
    }

    method Wait(e: Option<Event>, observed: nat, timed: bool, duration: nat, protected: bool) returns (r: Outcome)
      requires Valid() && (e.Some? ==> MayAwait(scheduler.current, e.value))
      modifies scheduler
      ensures Valid() && |scheduler.tasks| == |old(scheduler.tasks)| == SLOTS
      ensures forall i :: 0 <= i < SLOTS ==> Kin(old(scheduler.tasks)[i], scheduler.tasks[i])
      ensures r == Refused <==>
        (e.None? && !timed) || old(scheduler.current) == IDLE || protected || (timed && duration >= Timer.HALF_RANGE)
      ensures r == Slept && e.Some? ==> SequenceOf(scheduler.sequence, e.value) == observed
    {
      hide PidsOk, WaitsOk, MembersCounted, SessionsCounted, Placed, Linked, Shaped, CountsOk, SlotsOk, TreeOk, IdsOk,
           ConsolesOk;
      SlotRange(scheduler.tasks, scheduler.current);
      ghost var before := scheduler.tasks;
      r := scheduler.Wait(e, observed, timed, duration, protected);
      SlotRange(scheduler.tasks, scheduler.current);
      KinKeeps(before, scheduler.tasks, nextId, created, exited, reaped, console.members);
      PidsKept(before, scheduler.tasks, nextPid);
    }

    // ----- Cancellation from the keyboard --------------------------------------------------------------

    /** Ctrl+C reaches the process in front, unless that is the shell. */
    method CancelForeground() returns (requested: bool, ghost target: nat)
      requires Valid()
      modifies scheduler`tasks, console`members
      ensures Valid()
      ensures requested ==> target < |old(scheduler.tasks)| && old(console.Owner()) == Some(target)
      ensures requested ==> scheduler.tasks == old(scheduler.tasks)[target := Cancelled(old(scheduler.tasks)[target])]
      ensures requested ==>
        && target < |old(console.members)|
        && console.members == old(console.members)[target := old(console.members)[target].(cancelled := true)]
      ensures !requested ==> scheduler.tasks == old(scheduler.tasks) && console.members == old(console.members)
      ensures old(console.Owner()).Some? ==>
        old(console.Owner()).value < |old(console.members)| &&
        (requested <==> !old(console.members)[old(console.Owner()).value].shell)
    {
      hide PidsOk, WaitsOk, MembersCounted, SessionsCounted, Placed, Shaped, CountsOk, TreeOk, SlotsOk, LinkOk;
      SlotRange(scheduler.tasks, scheduler.current);
      SlotBoot(scheduler.tasks, scheduler.current);
      requested, target := false, 0;
      if console.active.None? { return; }
      var owner := console.sessions[console.active.value].owner;
      if owner.None? || console.members[owner.value].shell { return; }
      ghost var o := owner.value;
      assert ConsoleOk(scheduler.tasks[o], console.members[o]);
      var id := console.members[owner.value].id;
      var i := FindProcess(id);
      if i == SLOTS { return; }
      OneId(scheduler.tasks, nextId, i, o);
      requested, target := true, o;
      CancelAt(i);
    }

    /** The shell `m` is a command of, as its parent. */
    ghost predicate Commands(shell: nat, m: nat)
      requires shell < |scheduler.tasks| == |console.members| && m < |scheduler.tasks|
      reads scheduler, console
    {
      && Present(scheduler.tasks[shell]) && scheduler.tasks[shell].id == scheduler.tasks[m].parent
      && console.IsShell(shell)
      && console.active.Some? && console.active.value < |console.sessions| && console.Owns(m)
      && console.members[m].command && console.members[m].restore == Some(shell)
    }

    /** Who may be asked to end: a child, or, on behalf of the shell whose command the
        current process is, a child of that shell in the same session; never the caller
        itself, a shell, or a process nobody waits for. */
    ghost predicate MayEnd(i: nat, session: bool)
      requires i < |scheduler.tasks| == |console.members| && scheduler.current < |scheduler.tasks|
      reads scheduler, console
    {
      var me := scheduler.current;
      && i != me && !console.members[i].shell && !scheduler.tasks[i].orphaned
      && if session then
           exists j ::
             2 <= j < |scheduler.tasks| && Commands(j, me) && scheduler.tasks[i].parent == scheduler.tasks[j].id
             && console.members[i].session == console.members[j].session
         else scheduler.tasks[i].parent == scheduler.tasks[me].id
    }

    /** Ask the process numbered `pid` to end, for oneself or for one's shell. */
    method RequestTermination(pid: nat, session: bool) returns (reply: Reply, ghost target: nat)
      requires Valid()
      modifies scheduler`tasks, console`members
      ensures Valid() && scheduler.current < |old(scheduler.tasks)| == |old(console.members)| == SLOTS
      ensures target <= SLOTS
      ensures forall i :: 2 <= i < SLOTS ==> (i == target <==> IsProcess(old(scheduler.tasks)[i], pid))
      ensures reply ==
        if pid == 0 || pid > PID_MAX then Invalid
        else if !old(scheduler.tasks)[scheduler.current].process then Denied
        else if target == SLOTS then NoProcess
        else if !old(MayEnd(target, session)) then Denied
        else Accepted
      ensures scheduler.tasks ==
        if reply == Accepted && Alive(old(scheduler.tasks)[target])
        then old(scheduler.tasks)[target := Cancelled(old(scheduler.tasks)[target])] else old(scheduler.tasks)
      ensures console.members ==
        if reply == Accepted && Alive(old(scheduler.tasks)[target])
        then old(console.members)[target := old(console.members)[target].(cancelled := true)] else old(console.members)
    {
      hide PidsOk, WaitsOk, CountsOk, TreeOk, IdsOk, SlotsOk, ConsolesOk, console.Valid, MayEnd;
      Sized();
      var i := FindPid(pid);
      target := i;
      if pid == 0 || pid > PID_MAX { return Invalid, target; }
      if !scheduler.tasks[scheduler.current].process { return Denied, target; }
      if i == SLOTS { return NoProcess, target; }
      var granted := Authorized(i, session);
      if !granted { return Denied, target; }
      if scheduler.tasks[i].state != Exited { CancelAt(i); }
      reply := Accepted;
    }

    method Authorized(i: nat, session: bool) returns (ok: bool)
      requires Valid() && 2 <= i < |scheduler.tasks| == |console.members| == SLOTS && scheduler.current < SLOTS
      requires Present(scheduler.tasks[i]) && scheduler.tasks[i].process
      ensures ok <==> MayEnd(i, session)
    {
      hide PidsOk, WaitsOk, CountsOk, TreeOk, IdsOk, SlotsOk, ConsolesOk, console.Valid;
      var me := scheduler.current;
      if i == me || console.members[i].shell || scheduler.tasks[i].orphaned { return false; }
      if !session { return scheduler.tasks[i].parent == scheduler.tasks[me].id; }
      var j := FindShell(scheduler.tasks[me].parent);
      console.ValidRanges();
      var shell := console.CommandShell(me);
      ok := j < SLOTS && shell == Some(j) && scheduler.tasks[i].parent == scheduler.tasks[j].id
        && console.members[i].session.Some? && console.members[i].session == console.members[j].session;
      assert j < SLOTS && shell == Some(j) ==> Commands(j, me);
      assert forall n :: 2 <= n < SLOTS && Commands(n, me) ==> n == j && shell == Some(n);
    }

    /** The shell with this identifier. */
    method FindShell(id: nat) returns (j: nat)
      requires Valid() && |scheduler.tasks| == |console.members| == SLOTS
      ensures 2 <= j <= SLOTS
      ensures forall k :: 2 <= k < SLOTS ==>
        (k == j <==> Present(scheduler.tasks[k]) && scheduler.tasks[k].id == id && console.IsShell(k))
    {
      hide PidsOk, WaitsOk, CountsOk, TreeOk, SlotsOk, ConsolesOk, console.Valid;
      j := SLOTS;
      for k := 2 to SLOTS
        invariant 2 <= j <= SLOTS && (j < SLOTS ==> j < k)
        invariant forall n :: 2 <= n < k ==>
          (n == j <==> Present(scheduler.tasks[n]) && scheduler.tasks[n].id == id && console.IsShell(n))
      {
        if scheduler.tasks[k].state != Unused && scheduler.tasks[k].id == id && console.IsShell(k) { j := k; }
      }
    }

    /** The process with this number. */
    method FindPid(pid: nat) returns (i: nat)
      requires Valid() && |scheduler.tasks| == SLOTS
      ensures 2 <= i <= SLOTS && forall k :: 2 <= k < SLOTS ==> (k == i <==> IsProcess(scheduler.tasks[k], pid))
    {
      hide WaitsOk, CountsOk, TreeOk, IdsOk, SlotsOk, ConsolesOk, console.Valid;
      i := SLOTS;
      for k := 2 to SLOTS
        invariant 2 <= i <= SLOTS && (i < SLOTS ==> i < k)
        invariant forall n :: 2 <= n < k ==> (n == i <==> IsProcess(scheduler.tasks[n], pid))
      {
        if scheduler.tasks[k].state != Unused && scheduler.tasks[k].process && scheduler.tasks[k].pid == pid { i := k; }
      }
    }

    /** The slot of a live process. */
    method FindProcess(id: nat) returns (i: nat)
      requires |scheduler.tasks| == SLOTS
      ensures 2 <= i <= SLOTS
      ensures i < SLOTS ==> scheduler.tasks[i].id == id && scheduler.tasks[i].process && Alive(scheduler.tasks[i])
      ensures i == SLOTS ==> forall k :: 2 <= k < SLOTS ==>
        !(scheduler.tasks[k].id == id && scheduler.tasks[k].process && Alive(scheduler.tasks[k]))
    {
      i := 2;
      while i < SLOTS
        invariant 2 <= i <= SLOTS
        invariant forall k :: 2 <= k < i ==>
          !(scheduler.tasks[k].id == id && scheduler.tasks[k].process && Alive(scheduler.tasks[k]))
      {
        var t := scheduler.tasks[i];
        if t.id == id && t.process && t.state != Exited && t.state != Unused { return; }
        i := i + 1;
      }
    }

    /** Cancel one live process, in the scheduler and at the console. */
    method CancelAt(i: nat)
      requires Valid() && 2 <= i < |scheduler.tasks| == |console.members|
      requires scheduler.tasks[i].process && Alive(scheduler.tasks[i])
      modifies scheduler`tasks, console`members
      ensures Valid() && scheduler.tasks == old(scheduler.tasks)[i := Cancelled(old(scheduler.tasks)[i])]
      ensures console.members == old(console.members)[i := old(console.members)[i].(cancelled := true)]
    {
      hide PidsOk, WaitsOk, CountsOk, TreeOk, IdsOk, SlotsOk, MembersCounted, SessionsCounted, Placed, Linked, Shaped;
      SlotRange(scheduler.tasks, scheduler.current);
      SlotBoot(scheduler.tasks, scheduler.current);
      ghost var before := scheduler.tasks;
      scheduler.Cancel(i);
      console.Cancel(i);
      CancelledOk(before, scheduler.tasks, i, nextId, created, exited, reaped);
      PidsKept(before, scheduler.tasks, nextPid);
    }
  }

  lemma OneId(tasks: seq<Task>, nextId: nat, i: nat, j: nat)
    requires IdsOk(tasks, nextId) && i < |tasks| && j < |tasks| && Present(tasks[i]) && Present(tasks[j])
    requires tasks[i].id == tasks[j].id
    ensures i == j
  {
  }

  lemma CancelledOk(tasks: seq<Task>, tasks': seq<Task>, i: nat, nextId: nat, created: nat, exited: nat, reaped: nat)
    requires IdsOk(tasks, nextId) && TreeOk(tasks) && CountsOk(tasks, created, exited, reaped) && i < |tasks|
    requires tasks' == tasks[i := Cancelled(tasks[i])]
    ensures IdsOk(tasks', nextId) && TreeOk(tasks') && CountsOk(tasks', created, exited, reaped)
  {
    SiblingsOk(tasks, tasks', nextId, created, exited, reaped);
    forall k | 0 <= k < |tasks'| && Present(tasks'[k]) && tasks'[k].process
      ensures HasParent(tasks', k)
    {
      assert HasParent(tasks, k);
      var j :| 0 <= j < |tasks| && Alive(tasks[j]) && tasks[j].id == tasks[k].parent;
      assert Alive(tasks'[j]) && tasks'[j].id == tasks'[k].parent;
    }
  }

  lemma ReapedOk(tasks: seq<Task>, tasks': seq<Task>, me: nat, i: nat, nextId: nat, created: nat, exited: nat,
                 reaped: nat)
    requires SlotsOk(tasks, me) && IdsOk(tasks, nextId) && TreeOk(tasks) && CountsOk(tasks, created, exited, reaped)
    requires 2 <= i < |tasks| && tasks[i].state == Exited && tasks' == tasks[i := FREE]
    ensures SlotsOk(tasks', me) && IdsOk(tasks', nextId) && TreeOk(tasks')
    ensures CountsOk(tasks', created, exited, (reaped + 1) % WORD)
    ensures tasks[me].state == Running ==> tasks'[me].state == Running
  {
    hide CountsOk;
    ReapedCounts(tasks, tasks', i, created, exited, reaped);
    forall k | 0 <= k < |tasks'| && Present(tasks'[k]) && tasks'[k].process
      ensures HasParent(tasks', k)
    {
      assert HasParent(tasks, k);
      var j :| 0 <= j < |tasks| && Alive(tasks[j]) && tasks[j].id == tasks[k].parent;
      assert Alive(tasks'[j]) && tasks'[j].id == tasks'[k].parent;
    }
  }

  lemma ReapedCounts(tasks: seq<Task>, tasks': seq<Task>, i: nat, created: nat, exited: nat, reaped: nat)
    requires CountsOk(tasks, created, exited, reaped) && |tasks| == SLOTS
    requires 2 <= i < |tasks| && tasks[i].state == Exited && tasks' == tasks[i := FREE]
    ensures CountsOk(tasks', created, exited, (reaped + 1) % WORD)
  {
    hide PresentCount, ExitedCount;
    CountsUpdated(tasks, i, FREE);
    CountsBound(tasks);
    CountsBound(tasks');
    Advance(created, reaped, PresentCount(tasks));
    Advance(exited, reaped, ExitedCount(tasks));
  }

  /** Nobody but its own parent may still ask how the process ended. */
  predicate Awaited(t: Task, all: bool, asker: nat) {
    t.process && !t.orphaned && (!all || t.parent != asker)
  }

  /** What collecting leaves of a task. */
  function Collected(t: Task, granted: bool, all: bool, asker: nat): Task {
    if t.state == Exited && granted && !Awaited(t, all, asker) then FREE else t
  }

  lemma NothingCollected(tasks: seq<Task>, all: bool, asker: nat)
    ensures forall i :: 0 <= i < |tasks| ==> Collected(tasks[i], false, all, asker) == tasks[i]
  {
  }

  /** The console records once every doomed member is marked as cancelled. */
  ghost function Warned(members: seq<Member>, doomed: set<nat>): seq<Member> {
    seq(|members|, i requires 0 <= i < |members| => members[i].(cancelled := members[i].cancelled || i in doomed))
  }

  lemma WarnedFalls(members: seq<Member>, doomed: set<nat>, order: seq<nat>)
    requires Falls(members, order)
    ensures Falls(Warned(members, doomed), order)
  {
  }

  /** The same task as far as the registry is concerned; it may have been woken. */
  predicate MaybeWoken(a: Task, b: Task) {
    Kin(a, b) && (b.state == Blocked ==> a.state == Blocked)
  }

  ghost predicate AllWoken(tasks: seq<Task>, tasks': seq<Task>) {
    |tasks'| == |tasks| && forall i :: 0 <= i < |tasks| ==> MaybeWoken(tasks[i], tasks'[i])
  }

  lemma UntouchedWoken(tasks: seq<Task>)
    ensures AllWoken(tasks, tasks)
  {
  }

  lemma SignalWakes(tasks: seq<Task>, tasks': seq<Task>, e: Event)
    requires |tasks'| == |tasks| && forall i :: 0 <= i < |tasks| ==> tasks'[i] == Signalled(tasks[i], e)
    ensures AllWoken(tasks, tasks')
  {
  }

  lemma WokenTwice(tasks: seq<Task>, middle: seq<Task>, tasks': seq<Task>)
    requires AllWoken(tasks, middle) && AllWoken(middle, tasks')
    ensures AllWoken(tasks, tasks')
  {
    forall i | 0 <= i < |tasks|
      ensures MaybeWoken(tasks[i], tasks'[i])
    {
      assert MaybeWoken(tasks[i], middle[i]) && MaybeWoken(middle[i], tasks'[i]);
    }
  }

  lemma WokenKin(tasks: seq<Task>, tasks': seq<Task>)
    requires AllWoken(tasks, tasks')
    ensures forall i :: 0 <= i < |tasks| ==> Kin(tasks[i], tasks'[i])
  {
    hide Kin;
    forall i | 0 <= i < |tasks|
      ensures Kin(tasks[i], tasks'[i])
    {
      assert MaybeWoken(tasks[i], tasks'[i]);
    }
  }

  /** What an exit means for another task. */
  predicate Fate(a: Task, b: Task, doomed: bool) {
    && Present(b) == Present(a) && Alive(b) == Alive(a)
    && (if doomed then b.parent == 1 && b.orphaned && b.cancelled && b.state != Blocked
        else b.parent == a.parent && b.orphaned == a.orphaned && b.cancelled == a.cancelled)
  }

  lemma ConsoleSize(tasks: seq<Task>, members: seq<Member>)
    requires ConsolesOk(tasks, members)
    ensures |members| == |tasks|
  {
  }

  lemma SameWaitIsKin(a: Task, b: Task)
    requires SameWait(a, b)
    ensures MaybeWoken(a, b)
  {
    assert b.id == a.id && b.process == a.process && b.parent == a.parent;
    assert b.cancelled == a.cancelled && b.orphaned == a.orphaned;
  }

  lemma DispatchedKin(tasks: seq<Task>, tasks': seq<Task>)
    requires |tasks| == |tasks'| == SLOTS && forall i :: 0 <= i < SLOTS ==> SameWait(tasks[i], tasks'[i])
    ensures AllWoken(tasks, tasks')
  {
    forall i | 0 <= i < SLOTS
      ensures MaybeWoken(tasks[i], tasks'[i])
    {
      SameWaitIsKin(tasks[i], tasks'[i]);
    }
  }

  lemma KinKeeps(tasks: seq<Task>, tasks': seq<Task>, nextId: nat, created: nat, exited: nat, reaped: nat,
                 members: seq<Member>)
    requires IdsOk(tasks, nextId) && TreeOk(tasks) && CountsOk(tasks, created, exited, reaped)
    requires ConsolesOk(tasks, members)
    requires |tasks'| == |tasks| && forall i :: 0 <= i < |tasks| ==> Kin(tasks[i], tasks'[i])
    ensures IdsOk(tasks', nextId) && TreeOk(tasks') && CountsOk(tasks', created, exited, reaped)
    ensures ConsolesOk(tasks', members)
  {
    CountsSame(tasks, tasks');
    forall i | 0 <= i < |tasks'| && Present(tasks'[i]) && tasks'[i].process
      ensures HasParent(tasks', i)
    {
      assert HasParent(tasks, i);
      var j :| 0 <= j < |tasks| && Alive(tasks[j]) && tasks[j].id == tasks[i].parent;
      assert Alive(tasks'[j]) && tasks'[j].id == tasks'[i].parent;
    }
  }

  /** Every process has a live parent other than `me`. */
  ghost predicate TreeWithout(tasks: seq<Task>, me: nat) {
    forall i :: 0 <= i < |tasks| && Present(tasks[i]) ==>
      if tasks[i].process then i >= 2 && tasks[i].parent < tasks[i].id && OtherParent(tasks, i, me)
      else tasks[i].parent == 0
  }

  ghost predicate OtherParent(tasks: seq<Task>, i: nat, me: nat)
    requires i < |tasks|
  {
    exists j :: 0 <= j < |tasks| && j != me && Alive(tasks[j]) && tasks[j].id == tasks[i].parent
  }

  lemma AbandonedOk(tasks: seq<Task>, tasks': seq<Task>, marks: seq<bool>, me: nat, nextId: nat, created: nat,
                    exited: nat, reaped: nat)
    requires SlotsOk(tasks, me) && IdsOk(tasks, nextId) && TreeOk(tasks) && CountsOk(tasks, created, exited, reaped)
    requires 2 <= me
    requires |marks| == |tasks'| == SLOTS && tasks[me].state == Running
    requires forall i :: 0 <= i < SLOTS && marks[i] ==> i >= 2 && i != me && tasks[i].process && Present(tasks[i])
    requires forall i ::
        0 <= i < SLOTS && i != me && Present(tasks[i]) && tasks[i].process && tasks[i].parent == tasks[me].id ==>
      marks[i]
    requires forall i :: 0 <= i < SLOTS ==> tasks'[i] == if marks[i] then Orphaned(tasks[i]) else tasks[i]
    ensures IdsOk(tasks', nextId) && TreeWithout(tasks', me) && CountsOk(tasks', created, exited, reaped)
  {
    hide SlotsOk;
    SlotBoot(tasks, me);
    forall i | 0 <= i < SLOTS
      ensures Sibling(tasks[i], tasks'[i]) && tasks'[i].parent == if marks[i] then 1 else tasks[i].parent
    {
    }
    SiblingsOk(tasks, tasks', nextId, created, exited, reaped);
    hide Orphaned, IdsOk;
    forall i | 0 <= i < |tasks'| && Present(tasks'[i]) && tasks'[i].process
      ensures tasks'[i].parent < tasks'[i].id && OtherParent(tasks', i, me)
    {
      assert HasParent(tasks, i) && Sibling(tasks[i], tasks'[i]);
      if marks[i] {
        WorkerId(tasks, nextId, i);
        assert Sibling(tasks[BOOT], tasks'[BOOT]);
        assert Alive(tasks'[BOOT]) && tasks'[BOOT].id == tasks'[i].parent;
      } else {
        var j :| 0 <= j < |tasks| && Alive(tasks[j]) && tasks[j].id == tasks[i].parent;
        assert Sibling(tasks[j], tasks'[j]);
        assert Alive(tasks'[j]) && tasks'[j].id == tasks'[i].parent;
      }
    }
  }

  /** Identity and stage of life unchanged. */
  predicate Sibling(a: Task, b: Task) {
    && b.id == a.id && b.process == a.process && Present(b) == Present(a) && Alive(b) == Alive(a)
    && (b.state == Exited <==> a.state == Exited)
  }

  lemma SlotBoot(tasks: seq<Task>, current: nat)
    requires SlotsOk(tasks, current)
    ensures |tasks| == SLOTS && tasks[BOOT].id == 1 && Alive(tasks[BOOT]) && !tasks[BOOT].process
    ensures !tasks[IDLE].process && current < SLOTS
  {
  }

  lemma SiblingsOk(tasks: seq<Task>, tasks': seq<Task>, nextId: nat, created: nat, exited: nat, reaped: nat)
    requires IdsOk(tasks, nextId) && CountsOk(tasks, created, exited, reaped)
    requires |tasks'| == |tasks| && forall i :: 0 <= i < |tasks| ==> Sibling(tasks[i], tasks'[i])
    ensures IdsOk(tasks', nextId) && CountsOk(tasks', created, exited, reaped)
  {
    CountsSame(tasks, tasks');
  }

  /** Workers have ids above boot's. */
  lemma WorkerId(tasks: seq<Task>, nextId: nat, i: nat)
    requires |tasks| == SLOTS && tasks[BOOT].id == 1 && Present(tasks[BOOT]) && IdsOk(tasks, nextId) && 0 < i < SLOTS
    requires Present(tasks[i])
    ensures tasks[i].id > 1
  {
  }

  lemma ExitedOk(tasks: seq<Task>, tasks': seq<Task>, me: nat, nextId: nat, created: nat, exited: nat, reaped: nat)
    requires SlotsOk(tasks, me) && tasks[me].state == Running && IdsOk(tasks, nextId) && TreeWithout(tasks, me)
    requires CountsOk(tasks, created, exited, reaped) && 2 <= me
    requires tasks' == tasks[me := tasks[me].(state := Exited)]
    ensures SlotsOk(tasks', me) && IdsOk(tasks', nextId) && TreeOk(tasks')
    ensures CountsOk(tasks', created, (exited + 1) % WORD, reaped)
  {
    CountsUpdated(tasks, me, tasks'[me]);
    CountsBound(tasks);
    CountsBound(tasks');
    Advance(exited, reaped, ExitedCount(tasks));
    forall i | 0 <= i < |tasks'| && Present(tasks'[i]) && tasks'[i].process
      ensures HasParent(tasks', i)
    {
      assert OtherParent(tasks, i, me);
      var j :| 0 <= j < |tasks| && j != me && Alive(tasks[j]) && tasks[j].id == tasks[i].parent;
      assert Alive(tasks'[j]) && tasks'[j].id == tasks'[i].parent;
    }
  }

  lemma ExitedConsoles(tasks: seq<Task>, tasks': seq<Task>, members: seq<Member>, members': seq<Member>, me: nat)
    requires ConsolesOk(tasks, members) && Undisturbed(members, members', me) && me < |tasks| == |tasks'|
    requires tasks' == tasks[me := tasks[me].(state := Exited)] && |members'| == |members|
    requires !members'[me].live && members'[me].session == members[me].session
    ensures ConsolesOk(tasks', members')
  {
  }

  lemma ExitedWaits(tasks: seq<Task>, tasks': seq<Task>, me: nat, sequence: map<Event, nat>, ticks: nat, seen: seq<nat>,
                    left: seq<nat>)
    requires WaitsOk(tasks, sequence, ticks, seen, left) && me < |tasks| && tasks[me].state == Running
    requires tasks' == tasks[me := tasks[me].(state := Exited)]
    ensures WaitsOk(tasks', sequence, ticks, seen, left)
  {
    assert WaitOk(tasks[me], me, sequence, ticks, seen[me], left[me]);
  }

  lemma FateIs(tasks0: seq<Task>, marks: seq<bool>, tasks1: seq<Task>, tasks2: seq<Task>, tasks3: seq<Task>,
               tasks4: seq<Task>, me: nat)
    requires |tasks0| == |marks| == |tasks1| == |tasks2| == |tasks3| == |tasks4| == SLOTS && me < SLOTS
    requires forall i :: 0 <= i < SLOTS ==> tasks1[i] == if marks[i] then Orphaned(tasks0[i]) else tasks0[i]
    requires tasks2 == tasks1[me := tasks1[me].(state := Exited)]
    requires AllWoken(tasks2, tasks3) && AllWoken(tasks3, tasks4)
    ensures forall i :: 0 <= i < SLOTS && i != me ==> Fate(tasks0[i], tasks4[i], marks[i])
    ensures tasks4[me].state == Exited
  {
    forall i | 0 <= i < SLOTS && i != me
      ensures Fate(tasks0[i], tasks4[i], marks[i])
    {
      assert tasks2[i] == tasks1[i];
      assert MaybeWoken(tasks2[i], tasks3[i]) && MaybeWoken(tasks3[i], tasks4[i]);
    }
    assert MaybeWoken(tasks2[me], tasks3[me]) && MaybeWoken(tasks3[me], tasks4[me]);
  }

  /** Adopted by boot, cancelled and, if it was asleep, woken. */
  function Orphaned(t: Task): Task { Cancelled(t.(parent := 1, orphaned := true)) }

  lemma OrphanedPids(tasks: seq<Task>, tasks': seq<Task>, nextPid: nat)
    requires PidsOk(tasks, nextPid) && |tasks'| == |tasks|
    requires forall i :: 0 <= i < |tasks| ==> tasks'[i] == tasks[i] || tasks'[i] == Orphaned(tasks[i])
    ensures PidsOk(tasks', nextPid)
  {
    PidsKept(tasks, tasks', nextPid);
  }

  lemma Adopt(tasks: seq<Task>, tasks': seq<Task>, current: nat, i: nat, sequence: map<Event, nat>, ticks: nat,
              seen: seq<nat>, left: seq<nat>)
    requires SlotsOk(tasks, current) && WaitsOk(tasks, sequence, ticks, seen, left) && 2 <= i < SLOTS
    requires Present(tasks[i])
    requires tasks' == tasks[i := tasks[i].(parent := 1, orphaned := true)]
    ensures SlotsOk(tasks', current) && WaitsOk(tasks', sequence, ticks, seen, left)
  {
    assert WaitOk(tasks[i], i, sequence, ticks, seen[i], left[i]);
  }

  lemma Published(tasks: seq<Task>, tasks': seq<Task>, me: nat, free: nat, id: nat, pid: nat)
    requires SlotsOk(tasks, me) && tasks[me].state == Running && IdsOk(tasks, id) && TreeOk(tasks) && id != 0
    requires 2 <= free < SLOTS && tasks[free].state == Unused
    requires tasks' == tasks[free := NewProcess(id, pid, tasks[me].id)]
    ensures SlotsOk(tasks', me) && tasks'[me].state == Running && IdsOk(tasks', (id + 1) % WORD) && TreeOk(tasks')
  {
    PublishedIds(tasks, tasks', free, id, pid, tasks[me].id);
    hide IdsOk;
    assert tasks[me].id < id by { IdBelow(tasks, id, me); }
    assert me != free;
    forall i | 0 <= i < |tasks'| && Present(tasks'[i])
      ensures if tasks'[i].process then i >= 2 && tasks'[i].parent < tasks'[i].id && HasParent(tasks', i)
        else tasks'[i].parent == 0
    {
      if i == free {
        assert Alive(tasks'[me]) && tasks'[me].id == tasks'[i].parent;
      } else if tasks[i].process {
        assert HasParent(tasks, i);
        var j :| 0 <= j < |tasks| && Alive(tasks[j]) && tasks[j].id == tasks[i].parent;
        assert Alive(tasks'[j]) && tasks'[j].id == tasks'[i].parent;
      }
    }
  }

  lemma IdBelow(tasks: seq<Task>, nextId: nat, i: nat)
    requires IdsOk(tasks, nextId) && nextId != 0 && i < |tasks| && Present(tasks[i])
    ensures tasks[i].id < nextId
  {
  }

  lemma PublishedIds(tasks: seq<Task>, tasks': seq<Task>, free: nat, id: nat, pid: nat, parent: nat)
    requires IdsOk(tasks, id) && id != 0 && free < |tasks| && tasks[free].state == Unused
    requires tasks' == tasks[free := NewProcess(id, pid, parent)]
    ensures IdsOk(tasks', (id + 1) % WORD)
  {
  }

  lemma PublishedWaits(tasks: seq<Task>, tasks': seq<Task>, sequence: map<Event, nat>, ticks: nat, seen: seq<nat>,
                       left: seq<nat>, free: nat)
    requires WaitsOk(tasks, sequence, ticks, seen, left) && free < |tasks| && |tasks'| == |tasks|
    requires forall i :: 0 <= i < |tasks| && i != free ==> tasks'[i] == tasks[i]
    requires tasks'[free].state != Blocked && tasks'[free].waiting.None? && !tasks'[free].timed
    requires tasks'[free].deadline == 0
    ensures WaitsOk(tasks', sequence, ticks, seen, left)
  {
  }

  lemma PublishedCounts(tasks: seq<Task>, tasks': seq<Task>, free: nat, created: nat, exited: nat, reaped: nat)
    requires CountsOk(tasks, created, exited, reaped) && |tasks| == SLOTS && 2 <= free < SLOTS
    requires tasks[free].state == Unused
    requires |tasks'| == SLOTS && tasks' == tasks[free := tasks'[free]] && tasks'[free].state == Runnable
    ensures CountsOk(tasks', (created + 1) % WORD, exited, reaped)
  {
    CountsUpdated(tasks, free, tasks'[free]);
    CountsBound(tasks);
    Advance(created, reaped, PresentCount(tasks));
  }

  function NewProcess(id: nat, pid: nat, parent: nat): Task {
    FREE.(id := id, state := Runnable, process := true, pid := pid, parent := parent)
  }

  /** With nobody but boot and idle the registry is consistent. */
  lemma StartsConsistent(tasks: seq<Task>, members: seq<Member>)
    requires |tasks| == |members| == SLOTS && (forall i :: 2 <= i < SLOTS ==> tasks[i] == FREE)
    requires tasks[BOOT].id == 1 && !tasks[BOOT].process && tasks[BOOT].parent == 0
    requires tasks[IDLE].id == 2 && !tasks[IDLE].process && tasks[IDLE].parent == 0
    requires forall i :: 0 <= i < SLOTS ==> members[i] == BLANK
    ensures IdsOk(tasks, 3) && TreeOk(tasks) && CountsOk(tasks, 0, 0, 0) && ConsolesOk(tasks, members)
    ensures PidsOk(tasks, 1)
  {
    CountsUnused(tasks);
  }

  lemma {:induction false} CountsUnused(tasks: seq<Task>)
    requires forall i :: 2 <= i < |tasks| ==> tasks[i] == FREE
    ensures PresentCount(tasks) == 0 && ExitedCount(tasks) == 0
    decreases |tasks|
  {
    if |tasks| > 2 { CountsUnused(tasks[..|tasks| - 1]); }
  }
}
