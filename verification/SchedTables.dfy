/** The tables of kernel/sched.c changed in place by its scan loops; each method is
    proved to be the piece of Sched that its steps are made of. */
module SchedTables {
  import opened Sched
  import opened SchedInv

  class Tables {
    var tasks: seq<Tcb>
    var cores: seq<Core>
    var recs: seq<Record>
    var nextPid: nat
    const idle: seq<nat>
    ghost var exits: map<nat, Exited>
    ghost var harvested: set<nat>

    ghost function State(): Kernel
      reads this
    {
      Kernel(tasks, cores, recs, nextPid, idle, exits, harvested)
    }

    /** sched_init: one ready idle task per core, slots 0, 1, ... */
    constructor (ncores: nat, maxTasks: nat)
      requires ncores <= maxTasks
      ensures |tasks| == maxTasks && |cores| == ncores && |recs| == maxTasks && |idle| == ncores
      ensures nextPid == ncores + 1 && exits == map[] && harvested == {}
      ensures forall c :: 0 <= c < ncores ==> idle[c] == c && cores[c] == Core(false, -1, -1, InTask)
      ensures forall i :: 0 <= i < maxTasks ==>
                tasks[i] == (if i < ncores then Tcb(Ready, IDLE_PRIO, i, i + 1, 0, false, Nothing, false, 0)
                             else Tcb(Unused, 0, 0, 0, 0, false, Nothing, false, 0)) && !recs[i].used
      ensures Initial(State())
    {
      idle := seq(ncores, c requires 0 <= c < ncores => c);
      tasks := seq(maxTasks, i requires 0 <= i < maxTasks =>
        if i < ncores then Tcb(Ready, IDLE_PRIO, i, i + 1, 0, false, Nothing, false, 0)
        else Tcb(Unused, 0, 0, 0, 0, false, Nothing, false, 0));
      cores := seq(ncores, c => Core(false, -1, -1, InTask));
      recs := seq(maxTasks, i => Record(false, 0, 0, 0));
      nextPid := ncores + 1;
      exits := map[];
      harvested := {};
    }

    /** pick_next: the best priority first, then the round. */
    method Pick(c: nat) returns (next: int)
      requires c < |cores| && 0 <= cores[c].current < |tasks|
      ensures next == PickNext(tasks, c, cores[c].current)
    {
      var cur := cores[c].current;
      var best, i := 256, 0;
      while i < |tasks|
        invariant 0 <= i <= |tasks| && best == BestPrio(tasks, c, cur, i)
      {
        var t := tasks[i];
        if t.owner == c && (t.state.Ready? || (i == cur && t.state.Running?)) && t.prio < best {
          best := t.prio;
        }
        i := i + 1;
      }
      var k := 1;
      while k <= |tasks|
        invariant 1 <= k <= |tasks| + 1 && PickFrom(tasks, c, cur, best, k) == PickNext(tasks, c, cur)
      {
        i := (cur + k) % |tasks|;
        var t := tasks[i];
        if t.owner == c && (t.state.Ready? || (i == cur && t.state.Running?)) && t.prio == best {
          return i;
        }
        k := k + 1;
      }
      return cur;
    }

    /** reap_pending. */
    method ReapPending(c: nat)
      requires c < |cores|
      modifies this
      ensures State() == Reap(old(State()), c)
    {
      var r := cores[c].reap;
      if r < 0 || r == cores[c].current || r >= |tasks| { return; }
      cores := cores[c := cores[c].(reap := -1)];
      tasks := tasks[r := tasks[r].(state := Unused)];
    }

    /** The state changes at the end of schedule(). */
    method Change(c: nat)
      requires Legal(State(), Switch(c))
      modifies this
      ensures State() == SwitchTo(old(State()), c)
    {
      var cur, next := cores[c].current, cores[c].phase.next;
      if next == cur {
        tasks := tasks[cur := tasks[cur].(state := Running)];
        cores := cores[c := cores[c].(phase := InTask)];
        return;
      }
      if tasks[cur].state.Running? {
        tasks := tasks[cur := tasks[cur].(state := Ready)];
      }
      tasks := tasks[next := tasks[next].(state := Running)];
      cores := cores[c := cores[c].(current := next, phase := InTask)];
    }

    /** schedule: reap, pick, switch. */
    method Schedule(c: nat)
      requires Safe(State()) && Legal(State(), DoReap(c))
      modifies this
      ensures State() == Run(old(State()), [DoReap(c), Event.Pick(c), Switch(c)]) && Safe(State())
    {
      hide Safe, PickNext, Reap, SwitchTo, Run;
      ThreeSteps(State(), c);
      ReapPending(c);
      cores := cores[c := cores[c].(phase := Reaped)];
      var next := Pick(c);
      cores := cores[c := cores[c].(phase := Picked(next))];
      Change(c);
    }

    /** task_create_internal: the first unused slot. */
    method CreateInternal(owner: nat, prio: nat, admit: bool) returns (slot: int)
      modifies this
      ensures State() == Create(old(State()), owner, prio, admit)
      ensures slot == if owner < |old(cores)| then FreeSlot(old(tasks), 0) else -1
    {
      if owner >= |cores| { return -1; }
      slot := -1;
      var i := 0;
      while i < |tasks| && slot < 0
        invariant 0 <= i <= |tasks| && State() == old(State())
        invariant slot == -1 || slot == FreeSlot(tasks, 0) >= 0
        invariant slot == -1 ==> FreeSlot(tasks, 0) == FreeSlot(tasks, i)
      {
        if tasks[i].state.Unused? { slot := i; }
        i := i + 1;
      }
      if slot < 0 { return; }
      tasks := tasks[slot := Tcb(if admit then Ready else Setup, prio, owner, nextPid, 0, false, Nothing, false, 0)];
      nextPid := nextPid + 1;
    }

    /** sched_wake_one. */
    method WakeBest(obj: WaitObj) returns (best: int)
      modifies this
      ensures State() == WakeOne(old(State()), obj) && best == BestBlocked(old(tasks), obj, |old(tasks)|)
    {
      best := -1;
      var bestPrio, i := 256, 0;
      while i < |tasks|
        invariant 0 <= i <= |tasks| && State() == old(State())
        invariant best == BestBlocked(tasks, obj, i) && bestPrio == if best < 0 then 256 else tasks[best].prio
      {
        if tasks[i].state.Blocked? && tasks[i].obj == obj && tasks[i].prio < bestPrio {
          bestPrio := tasks[i].prio;
          best := i;
        }
        i := i + 1;
      }
      if best >= 0 {
        tasks := tasks[best := tasks[best].(state := Ready, obj := Nothing)];
      }
    }

    /** find_live_task_by_pid. */
    method FindLive(pid: nat) returns (s: int)
      ensures s == LiveByPid(tasks, pid, 0)
    {
      var i := 0;
      while i < |tasks|
        invariant 0 <= i <= |tasks| && LiveByPid(tasks, pid, 0) == LiveByPid(tasks, pid, i)
      {
        if !tasks[i].state.Unused? && tasks[i].pid == pid && !tasks[i].state.Zombie? { return i; }
        i := i + 1;
      }
      return -1;
    }

    /** exitrec_find. */
    method Find(pid: nat, ppid: nat) returns (s: int)
      ensures s == FindRecord(recs, pid, ppid, 0)
    {
      var i := 0;
      while i < |recs|
        invariant 0 <= i <= |recs| && FindRecord(recs, pid, ppid, 0) == FindRecord(recs, pid, ppid, i)
      {
        if recs[i].used && recs[i].pid == pid && recs[i].ppid == ppid { return i; }
        i := i + 1;
      }
      return -1;
    }

    /** exitrec_put: a free record, else an orphan's, else the first. */
    method Put(pid: nat, ppid: nat, code: int)
      requires |recs| > 0
      modifies this
      ensures State() == PutRecord(old(State()), pid, ppid, code)
    {
      var slot := FirstFree();
      if slot < 0 {
        slot := FirstOrphan();
        if slot < 0 { slot := 0; }
      }
      recs := recs[slot := Record(true, pid, ppid, code)];
    }

    method FirstFree() returns (s: int)
      ensures s == FreeRecord(recs, 0)
    {
      var i := 0;
      while i < |recs|
        invariant 0 <= i <= |recs| && FreeRecord(recs, 0) == FreeRecord(recs, i)
      {
        if !recs[i].used { return i; }
        i := i + 1;
      }
      return -1;
    }

    method FirstOrphan() returns (s: int)
      ensures s == OrphanRecord(recs, tasks, 0)
    {
      var i := 0;
      while i < |recs|
        invariant 0 <= i <= |recs| && OrphanRecord(recs, tasks, 0) == OrphanRecord(recs, tasks, i)
      {
        var p := FindLive(recs[i].ppid);
        if p < 0 { return i; }
        i := i + 1;
      }
      return -1;
    }

    /** child_alive. */
    method Alive(target: nat, parent: nat) returns (yes: bool)
      ensures yes <==> ChildAlive(tasks, target, parent)
    {
      var i := 0;
      while i < |tasks|
        invariant 0 <= i <= |tasks|
        invariant forall j :: 0 <= j < i ==> !IsLiveChild(tasks[j], target, parent)
      {
        if IsLiveChild(tasks[i], target, parent) { return true; }
        i := i + 1;
      }
      return false;
    }

    /** The exit-record part of task_exit. */
    method RecordSection(i: int, code: int)
      requires 0 <= i < |tasks| && |recs| > 0
      modifies this
      ensures State() == RecordExit(old(State()), i, code)
    {
      var x := tasks[i];
      if !x.user || x.ppid == 0 { return; }
      var p := FindLive(x.ppid);
      if p < 0 { return; }
      Put(x.pid, x.ppid, code % 0x100);
      var _ := WakeBest(OnTask(p));
      exits := exits[x.pid := Exited(x.ppid, code % 0x100)];
    }

    /** The loop of sched_wait_pid from its head to a return or a sleep. */
    method WaitSection(c: nat, i: int, target: nat) returns (r: Outcome)
      requires c < |cores| && 0 <= i < |tasks|
      modifies this
      ensures (State(), r) == WaitLoop(old(State()), c, i, target)
    {
      var me := tasks[i];
      var f := Find(target, me.pid);
      if f >= 0 {
        r := Returned(recs[f].code);
        recs := recs[f := recs[f].(used := false)];
        harvested := harvested + {target};
        tasks := tasks[i := me.(waitFor := 0)];
        return;
      }
      var alive := Alive(target, me.pid);
      if !alive {
        tasks := tasks[i := me.(waitFor := 0)];
        return Returned(-1);
      }
      tasks := tasks[i := me.(state := Blocked, obj := OnTask(i), waitFor := target)];
      cores := cores[c := cores[c].(phase := Scheduling)];
      r := Pending;
    }
  }

  /** The three steps of one call of schedule follow each other. */
  lemma ThreeSteps(k: Kernel, c: nat)
    requires Safe(k) && Legal(k, DoReap(c))
    ensures |Reap(k, c).cores| == |k.cores|
    ensures var k1 := Step(k, DoReap(c)).0;
            && Legal(k1, Pick(c))
            && var k2 := Step(k1, Pick(c)).0;
               && Legal(k2, Switch(c)) && Safe(k2)
               && Run(k, [DoReap(c), Pick(c), Switch(c)]) == Step(k2, Switch(c)).0
               && Safe(Step(k2, Switch(c)).0)
  {
    hide Safe, PickNext, Reap, SwitchTo;
    StepSafe(k, DoReap(c));
    var k1 := Step(k, DoReap(c)).0;
    ReapKeeps(k, c);
    CoreAt(k1, c);
    StepSafe(k1, Pick(c));
    var k2 := Step(k1, Pick(c)).0;
    CoreAt(k2, c);
    StepSafe(k2, Switch(c));
    var es := [DoReap(c), Pick(c), Switch(c)];
    assert es[..2] == [DoReap(c), Pick(c)] && es[..2][..1] == [DoReap(c)] && [DoReap(c)][..0] == [];
    assert Run(k, []) == k && Run(k, [DoReap(c)]) == k1 && Run(k, es[..2]) == k2;
  }
}
