/** The partitioned scheduler of kernel/sched.c as interleaved atomic steps of its
    cores.  A slot is unused exactly if its state says so; locks are the atomicity
    of the steps, the reschedule interrupt is the freedom to schedule at any time. */
module Sched {
  datatype TaskState = Unused | Setup | Ready | Running | Sleeping | Blocked | Zombie

  /** What a blocked task waits for: another task slot's exit, or an IPC object. */
  datatype WaitObj = Nothing | OnTask(slot: nat) | OnIpc(id: nat)

  /** `waitFor` is the pid a task is waiting for inside sched_wait_pid, 0 if none. */
  datatype Tcb = Tcb(state: TaskState, prio: nat, owner: nat, pid: nat, ppid: nat, user: bool,
                     obj: WaitObj, kill: bool, waitFor: nat)

  /** Where a core is: in its task's code, in task_exit behind the exit record, or in
      schedule() before reaping, before picking, or with its choice made. */
  datatype Phase = InTask | Exiting | Scheduling | Reaped | Picked(next: int)

  datatype Core = Core(started: bool, current: int, reap: int, phase: Phase)

  datatype Record = Record(used: bool, pid: nat, ppid: nat, code: int)

  datatype Exited = Exited(ppid: nat, code: int)

  /** `idle` names each core's idle task; `exits` and `harvested` are history: the
      recorded exits by pid, and the pids whose record has been collected. */
  datatype Kernel = Kernel(tasks: seq<Tcb>, cores: seq<Core>, recs: seq<Record>, nextPid: nat,
                           idle: seq<nat>, exits: map<nat, Exited>, harvested: set<nat>)

  const IDLE_PRIO := 255

  // ----- pick_next -----

  predicate Candidate(tasks: seq<Tcb>, c: nat, cur: int, i: int) {
    && 0 <= i < |tasks| && tasks[i].owner == c
    && (tasks[i].state.Ready? || (i == cur && tasks[i].state.Running?))
  }

  /** The best priority among the candidates below `n`; 256 without any. */
  function BestPrio(tasks: seq<Tcb>, c: nat, cur: int, n: nat): (p: nat)
    requires n <= |tasks|
    ensures p <= 256
    ensures forall i :: 0 <= i < n && Candidate(tasks, c, cur, i) ==> p <= tasks[i].prio
    ensures p < 256 ==> exists i :: 0 <= i < n && Candidate(tasks, c, cur, i) && tasks[i].prio == p
    decreases n
  {
    if n == 0 then 256
    else
      var p := BestPrio(tasks, c, cur, n - 1);
      if Candidate(tasks, c, cur, n - 1) && tasks[n - 1].prio < p then tasks[n - 1].prio else p
  }

  /** Round robin from distance `d` behind `cur` on. */
  function PickFrom(tasks: seq<Tcb>, c: nat, cur: int, best: nat, d: nat): int
    requires 0 <= cur < |tasks|
    decreases |tasks| + 1 - d
  {
    if d > |tasks| then cur
    else
      var i := (cur + d) % |tasks|;
      if Candidate(tasks, c, cur, i) && tasks[i].prio == best then i else PickFrom(tasks, c, cur, best, d + 1)
  }

  function PickNext(tasks: seq<Tcb>, c: nat, cur: int): int
    requires 0 <= cur < |tasks|
  {
    PickFrom(tasks, c, cur, BestPrio(tasks, c, cur, |tasks|), 1)
  }

  // ----- Small pieces -----

  function SetTask(k: Kernel, i: int, x: Tcb): Kernel
    requires 0 <= i < |k.tasks|
  {
    k.(tasks := k.tasks[i := x])
  }

  function SetCore(k: Kernel, c: nat, x: Core): Kernel
    requires c < |k.cores|
  {
    k.(cores := k.cores[c := x])
  }

  /** reap_pending. */
  function Reap(k: Kernel, c: nat): Kernel
    requires c < |k.cores|
  {
    var r := k.cores[c].reap;
    if r < 0 || r == k.cores[c].current || r >= |k.tasks| then k
    else SetTask(SetCore(k, c, k.cores[c].(reap := -1)), r, k.tasks[r].(state := Unused))
  }

  /** The most urgent task blocked on `obj` among the first `n`, -1 if none. */
  function BestBlocked(tasks: seq<Tcb>, obj: WaitObj, n: nat): (b: int)
    requires n <= |tasks|
    ensures -1 <= b < n
    ensures b >= 0 ==> tasks[b].state.Blocked? && tasks[b].obj == obj
    ensures b >= 0 ==> forall i :: 0 <= i < n && tasks[i].state.Blocked? && tasks[i].obj == obj ==>
              tasks[b].prio <= tasks[i].prio
    ensures forall i :: 0 <= i < b && tasks[i].state.Blocked? && tasks[i].obj == obj ==> tasks[b].prio < tasks[i].prio
    ensures b < 0 ==> forall i :: 0 <= i < n && tasks[i].state.Blocked? && tasks[i].obj == obj ==> tasks[i].prio >= 256
    decreases n
  {
    if n == 0 then -1
    else
      var b := BestBlocked(tasks, obj, n - 1);
      var x := tasks[n - 1];
      if x.state.Blocked? && x.obj == obj && x.prio < (if b < 0 then 256 else tasks[b].prio) then n - 1 else b
  }

  /** sched_wake_one. */
  function WakeOne(k: Kernel, obj: WaitObj): Kernel {
    var b := BestBlocked(k.tasks, obj, |k.tasks|);
    if b < 0 then k else SetTask(k, b, k.tasks[b].(state := Ready, obj := Nothing))
  }

  /** A free slot, the first one; -1 if there is none. */
  function FreeSlot(tasks: seq<Tcb>, i: nat): (s: int)
    requires i <= |tasks|
    ensures s == -1 || (i <= s < |tasks| && tasks[s].state.Unused?)
    decreases |tasks| - i
  {
    if i == |tasks| then -1 else if tasks[i].state.Unused? then i else FreeSlot(tasks, i + 1)
  }

  /** task_create_internal. */
  function Create(k: Kernel, owner: nat, prio: nat, admit: bool): Kernel {
    var s := FreeSlot(k.tasks, 0);
    if owner >= |k.cores| || s < 0 then k
    else
      SetTask(k, s, Tcb(if admit then Ready else Setup, prio, owner, k.nextPid, 0, false, Nothing, false, 0))
        .(nextPid := k.nextPid + 1)
  }

  // ----- Exit records -----

  /** A live task with this pid, -1 if there is none. */
  function LiveByPid(tasks: seq<Tcb>, pid: nat, i: nat): (s: int)
    requires i <= |tasks|
    ensures s == -1 || (i <= s < |tasks| && !tasks[s].state.Unused? && !tasks[s].state.Zombie? && tasks[s].pid == pid)
    ensures s == -1 ==> forall j :: i <= j < |tasks| && tasks[j].pid == pid ==>
              tasks[j].state.Unused? || tasks[j].state.Zombie?
    decreases |tasks| - i
  {
    if i == |tasks| then -1
    else if !tasks[i].state.Unused? && tasks[i].pid == pid && !tasks[i].state.Zombie? then i
    else LiveByPid(tasks, pid, i + 1)
  }

  function FreeRecord(recs: seq<Record>, i: nat): (s: int)
    requires i <= |recs|
    ensures s == -1 || (i <= s < |recs| && !recs[s].used)
    ensures s == -1 ==> forall j :: i <= j < |recs| ==> recs[j].used
    decreases |recs| - i
  {
    if i == |recs| then -1 else if !recs[i].used then i else FreeRecord(recs, i + 1)
  }

  /** The first record whose parent is no longer alive. */
  function OrphanRecord(recs: seq<Record>, tasks: seq<Tcb>, i: nat): (s: int)
    requires i <= |recs|
    ensures s == -1 || i <= s < |recs|
    decreases |recs| - i
  {
    if i == |recs| then -1
    else if LiveByPid(tasks, recs[i].ppid, 0) < 0 then i else OrphanRecord(recs, tasks, i + 1)
  }

  /** exitrec_put: a free slot, else an orphan's, else the first. */
  function PutRecord(k: Kernel, pid: nat, ppid: nat, code: int): Kernel
    requires |k.recs| > 0
  {
    var f := FreeRecord(k.recs, 0);
    var o := OrphanRecord(k.recs, k.tasks, 0);
    var s := if f >= 0 then f else if o >= 0 then o else 0;
    k.(recs := k.recs[s := Record(true, pid, ppid, code)])
  }

  function FindRecord(recs: seq<Record>, pid: nat, ppid: nat, i: nat): (s: int)
    requires i <= |recs|
    ensures s == -1 || (i <= s < |recs| && recs[s].used && recs[s].pid == pid && recs[s].ppid == ppid)
    ensures s == -1 ==> forall j :: i <= j < |recs| ==> !(recs[j].used && recs[j].pid == pid && recs[j].ppid == ppid)
    decreases |recs| - i
  {
    if i == |recs| then -1
    else if recs[i].used && recs[i].pid == pid && recs[i].ppid == ppid then i else FindRecord(recs, pid, ppid, i + 1)
  }

  /** child_alive. */
  predicate ChildAlive(tasks: seq<Tcb>, target: nat, parent: nat) {
    exists i :: 0 <= i < |tasks| && IsLiveChild(tasks[i], target, parent)
  }

  predicate IsLiveChild(x: Tcb, target: nat, parent: nat) {
    !x.state.Unused? && !x.state.Zombie? && x.user && x.pid == target && x.ppid == parent
  }

  /** The exit-record part of task_exit, for the task in slot `i`. */
  function RecordExit(k: Kernel, i: int, code: int): Kernel
    requires 0 <= i < |k.tasks| && |k.recs| > 0
  {
    var x := k.tasks[i];
    if !x.user || x.ppid == 0 then k
    else
      var p := LiveByPid(k.tasks, x.ppid, 0);
      if p < 0 then k
      else
        WakeOne(PutRecord(k, x.pid, x.ppid, code % 0x100), OnTask(p))
          .(exits := k.exits[x.pid := Exited(x.ppid, code % 0x100)])
  }

  datatype Outcome = Pending | Returned(value: int)

  /** sched_wait_pid from its loop head, by the task in slot `i`: collect the record,
      give up, or sleep. */
  function WaitLoop(k: Kernel, c: nat, i: int, target: nat): (Kernel, Outcome)
    requires c < |k.cores| && 0 <= i < |k.tasks|
  {
    var me := k.tasks[i];
    var r := FindRecord(k.recs, target, me.pid, 0);
    if r >= 0 then
      (SetTask(k, i, me.(waitFor := 0)).(recs := k.recs[r := k.recs[r].(used := false)],
                                         harvested := k.harvested + {target}),
       Returned(k.recs[r].code))
    else if !ChildAlive(k.tasks, target, me.pid) then (SetTask(k, i, me.(waitFor := 0)), Returned(-1))
    else
      (SetCore(SetTask(k, i, me.(state := Blocked, obj := OnTask(i), waitFor := target)), c,
               k.cores[c].(phase := Scheduling)), Pending)
  }

  // ----- Steps -----

  datatype Event =
    | CreateTask(owner: nat, prio: nat, admit: bool)
    | Configure(slot: nat, ppid: nat)
    | Admit(slot: nat)
    | Start(c: nat)
    | Yield(c: nat)
    | BlockOn(c: nat, id: nat)
    | Sleep(c: nat)
    | WaitPid(c: nat, target: nat)
    | Recheck(c: nat)
    | Exit(c: nat, code: int)
    | Die(c: nat)
    | DoReap(c: nat)
    | Pick(c: nat)
    | Switch(c: nat)
    | Wake(obj: WaitObj)
    | TimerWake(slot: nat)
    | Boost(slot: nat, prio: nat)
    | Kill(slot: nat)

  /** The core runs a task other than its idle task. */
  predicate Works(k: Kernel, c: nat) {
    && c < |k.cores| && c < |k.idle| && k.cores[c].started && k.cores[c].phase.InTask?
    && 0 <= k.cores[c].current < |k.tasks| && k.cores[c].current != k.idle[c]
  }

  predicate InPhase(k: Kernel, c: nat, p: Phase) {
    c < |k.cores| && k.cores[c].started && k.cores[c].phase == p && 0 <= k.cores[c].current < |k.tasks|
  }

  /** The idle tasks never block, sleep or exit and keep their priority; a task that
      has slept inside sched_wait_pid goes on there. */
  predicate Legal(k: Kernel, e: Event) {
    match e
    case CreateTask(_, prio, _) => prio <= IDLE_PRIO
    case Configure(slot, ppid) => slot < |k.tasks| && k.tasks[slot].state.Setup? && !k.tasks[slot].user
                                  && LiveByPid(k.tasks, ppid, 0) >= 0
    case Admit(slot) => slot < |k.tasks| && k.tasks[slot].state.Setup?
    case Start(c) => c < |k.cores| && c < |k.idle| && !k.cores[c].started
    case Yield(c) => InPhase(k, c, InTask) && k.tasks[k.cores[c].current].waitFor == 0
    case BlockOn(c, _) => Works(k, c) && k.tasks[k.cores[c].current].waitFor == 0
    case Sleep(c) => Works(k, c) && k.tasks[k.cores[c].current].waitFor == 0
    case WaitPid(c, target) => Works(k, c) && k.tasks[k.cores[c].current].waitFor == 0 && target != 0
    case Recheck(c) => Works(k, c) && k.tasks[k.cores[c].current].waitFor != 0 && !k.tasks[k.cores[c].current].kill
    case Exit(c, _) => Works(k, c) && |k.recs| > 0
                       && (k.tasks[k.cores[c].current].waitFor == 0 || k.tasks[k.cores[c].current].kill)
    case Die(c) => InPhase(k, c, Exiting)
    case DoReap(c) => InPhase(k, c, Scheduling)
    case Pick(c) => InPhase(k, c, Reaped)
    case Switch(c) => c < |k.cores| && k.cores[c].started && k.cores[c].phase.Picked?
                      && 0 <= k.cores[c].current < |k.tasks| && 0 <= k.cores[c].phase.next < |k.tasks|
    case Wake(_) => true
    case TimerWake(slot) => slot < |k.tasks| && (k.tasks[slot].state.Sleeping? || k.tasks[slot].state.Blocked?)
                            && k.tasks[slot].waitFor == 0
    case Boost(slot, prio) => slot < |k.tasks| && prio <= IDLE_PRIO && slot !in k.idle
    case Kill(slot) =>
      slot < |k.tasks| && k.tasks[slot].user && !k.tasks[slot].state.Unused? && !k.tasks[slot].state.Zombie?
  }

  /** The switch at the end of schedule(). */
  function SwitchTo(k: Kernel, c: nat): Kernel
    requires Legal(k, Switch(c))
  {
    var cur, next := k.cores[c].current, k.cores[c].phase.next;
    if next == cur then
      SetCore(SetTask(k, cur, k.tasks[cur].(state := Running)), c, k.cores[c].(phase := InTask))
    else
      var k1 := if k.tasks[cur].state.Running? then SetTask(k, cur, k.tasks[cur].(state := Ready)) else k;
      SetCore(SetTask(k1, next, k1.tasks[next].(state := Running)), c, k.cores[c].(current := next, phase := InTask))
  }

  /** The best ready task of a core, the first among equals; -1 without any. */
  function FirstReady(tasks: seq<Tcb>, c: nat, n: nat): (f: int)
    requires n <= |tasks|
    ensures -1 <= f < n
    ensures f >= 0 ==> tasks[f].owner == c && tasks[f].state.Ready?
    ensures f >= 0 ==> forall i :: 0 <= i < n && tasks[i].owner == c && tasks[i].state.Ready? ==>
              tasks[f].prio <= tasks[i].prio
    ensures forall i :: 0 <= i < f && tasks[i].owner == c && tasks[i].state.Ready? ==> tasks[f].prio < tasks[i].prio
    ensures f < 0 ==> forall i :: 0 <= i < n && tasks[i].owner == c && tasks[i].state.Ready? ==> tasks[i].prio >= 256
    decreases n
  {
    if n == 0 then -1
    else
      var f := FirstReady(tasks, c, n - 1);
      var x := tasks[n - 1];
      if x.owner == c && x.state.Ready? && x.prio < (if f < 0 then 256 else tasks[f].prio) then n - 1 else f
  }

  /** sched_enter. */
  function Enter(k: Kernel, c: nat): Kernel
    requires c < |k.cores|
  {
    var f := FirstReady(k.tasks, c, |k.tasks|);
    if f < 0 then k
    else SetCore(SetTask(k, f, k.tasks[f].(state := Running)), c, Core(true, f, k.cores[c].reap, InTask))
  }

  function Step(k: Kernel, e: Event): (Kernel, Outcome)
    requires Legal(k, e)
  {
    match e
    case CreateTask(owner, prio, admit) => (Create(k, owner, prio, admit), Pending)
    case Configure(s, ppid) => (SetTask(k, s, k.tasks[s].(ppid := ppid, user := true)), Pending)
    case Admit(s) => (SetTask(k, s, k.tasks[s].(state := Ready)), Pending)
    case Start(c) => (Enter(k, c), Pending)
    case Yield(c) => (SetCore(k, c, k.cores[c].(phase := Scheduling)), Pending)
    case BlockOn(c, id) =>
      var i := k.cores[c].current;
      (SetCore(SetTask(k, i, k.tasks[i].(state := Blocked, obj := OnIpc(id))), c, k.cores[c].(phase := Scheduling)),
       Pending)
    case Sleep(c) =>
      var i := k.cores[c].current;
      (SetCore(SetTask(k, i, k.tasks[i].(state := Sleeping)), c, k.cores[c].(phase := Scheduling)), Pending)
    case WaitPid(c, target) => WaitLoop(k, c, k.cores[c].current, target)
    case Recheck(c) => WaitLoop(k, c, k.cores[c].current, k.tasks[k.cores[c].current].waitFor)
    case Exit(c, code) =>
      var r := RecordExit(Reap(k, c), k.cores[c].current, code);
      (r.(cores := Reap(k, c).cores[c := Reap(k, c).cores[c].(phase := Exiting)]), Pending)
    case Die(c) =>
      var i := k.cores[c].current;
      (SetCore(SetTask(k, i, k.tasks[i].(state := Zombie)), c, k.cores[c].(reap := i, phase := Scheduling)), Pending)
    case DoReap(c) =>
      var r := Reap(k, c);
      (SetCore(r, c, r.cores[c].(phase := Reaped)), Pending)
    case Pick(c) => (SetCore(k, c, k.cores[c].(phase := Picked(PickNext(k.tasks, c, k.cores[c].current)))), Pending)
    case Switch(c) => (SwitchTo(k, c), Pending)
    case Wake(obj) => (if obj.OnIpc? then WakeOne(k, obj) else k, Pending)
    case TimerWake(s) => (SetTask(k, s, k.tasks[s].(state := Ready, obj := Nothing)), Pending)
    case Boost(s, prio) => (SetTask(k, s, k.tasks[s].(prio := prio)), Pending)
    case Kill(s) =>
      var x := k.tasks[s].(kill := true);
      (SetTask(k, s, if x.state.Sleeping? || x.state.Blocked? then x.(state := Ready, obj := Nothing) else x), Pending)
  }
}
