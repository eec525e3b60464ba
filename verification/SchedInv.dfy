/** Safety of the scheduler of kernel/sched.c in every reachable state: running
    tasks, current tasks, slots waiting to be reaped, and idle tasks. */
module SchedInv {
  import opened Basics
  import opened Sched

  // ----- The invariant -----

  /** A running task is current on its owner core, a zombie is what its owner core
      has to reap. */
  predicate TcbOk(cores: seq<Core>, x: Tcb, i: int) {
    && x.prio <= IDLE_PRIO
    && (x.state.Running? ==> x.owner < |cores| && cores[x.owner].started && cores[x.owner].current == i)
    && (x.state.Zombie? ==> x.owner < |cores| && cores[x.owner].reap == i)
  }

  /** A choice made by pick_next still stands: another task that is ready, or the
      current one if it can go on. */
  predicate PickOk(tasks: seq<Tcb>, w: Core, c: nat, n: int) {
    && 0 <= n < |tasks| && tasks[n].owner == c
    && (tasks[n].state.Ready? || (n == w.current && tasks[n].state.Running?))
  }

  predicate CoreOk(tasks: seq<Tcb>, w: Core, c: nat, idle: nat) {
    && w.reap >= -1
    && (w.reap >= 0 ==> w.reap < |tasks| && tasks[w.reap].state.Zombie? && tasks[w.reap].owner == c)
    && idle < |tasks| && tasks[idle].owner == c && (tasks[idle].state.Ready? || tasks[idle].state.Running?)
    && (!w.started ==> w.reap == -1 && w.current == -1)
    && (w.started ==>
          && 0 <= w.current < |tasks| && tasks[w.current].owner == c
          && !tasks[w.current].state.Unused? && !tasks[w.current].state.Setup?
          && (w.phase.InTask? || w.phase.Exiting? ==> tasks[w.current].state.Running?)
          && (w.phase.Exiting? ==> w.current != idle && w.reap == -1)
          && (w.phase.Picked? ==> PickOk(tasks, w, c, w.phase.next)))
  }

  ghost predicate AllTasks(tasks: seq<Tcb>, cores: seq<Core>) {
    forall i :: 0 <= i < |tasks| ==> TcbOk(cores, tasks[i], i)
  }

  ghost predicate AllCores(tasks: seq<Tcb>, cores: seq<Core>, idle: seq<nat>) {
    |idle| == |cores| && forall c :: 0 <= c < |cores| ==> CoreOk(tasks, cores[c], c, idle[c])
  }

  ghost predicate Safe(k: Kernel) {
    AllTasks(k.tasks, k.cores) && AllCores(k.tasks, k.cores, k.idle)
  }

  lemma CoreAt(k: Kernel, c: nat)
    requires Safe(k) && c < |k.cores|
    ensures c < |k.idle| && CoreOk(k.tasks, k.cores[c], c, k.idle[c])
  {
  }

  lemma TaskAt(k: Kernel, i: int)
    requires Safe(k) && 0 <= i < |k.tasks|
    ensures TcbOk(k.cores, k.tasks[i], i)
  {
  }

  // ----- Changes of one task that no core has to know of -----

  /** The only changes other cores make: a sleeper becomes ready, or nothing the
      scheduler's bookkeeping sees. */
  predicate RemoteMove(x: Tcb, y: Tcb) {
    && y.owner == x.owner && y.prio <= IDLE_PRIO
    && (y.state == x.state || ((x.state.Blocked? || x.state.Sleeping?) && y.state.Ready?))
  }

  lemma RemoteKeeps(k: Kernel, i: int, y: Tcb)
    requires Safe(k) && 0 <= i < |k.tasks| && RemoteMove(k.tasks[i], y)
    ensures Safe(SetTask(k, i, y))
  {
    hide RemoteMove;
    RemoteTasks(k.tasks, k.cores, i, y);
    RemoteCores(k.tasks, k.cores, k.idle, i, y);
  }

  lemma RemoteTasks(tasks: seq<Tcb>, cores: seq<Core>, i: int, y: Tcb)
    requires AllTasks(tasks, cores) && 0 <= i < |tasks| && RemoteMove(tasks[i], y)
    ensures AllTasks(tasks[i := y], cores)
  {
    assert TcbOk(cores, tasks[i], i);
  }

  lemma RemoteCores(tasks: seq<Tcb>, cores: seq<Core>, idle: seq<nat>, i: int, y: Tcb)
    requires AllCores(tasks, cores, idle) && 0 <= i < |tasks| && RemoteMove(tasks[i], y)
    ensures AllCores(tasks[i := y], cores, idle)
  {
    forall c | 0 <= c < |cores|
      ensures CoreOk(tasks[i := y], cores[c], c, idle[c])
    {
      assert CoreOk(tasks, cores[c], c, idle[c]);
    }
  }

  /** A slot that is unused or being set up is no core's current, reap or choice. */
  lemma SetupKeeps(k: Kernel, i: int, y: Tcb)
    requires Safe(k) && 0 <= i < |k.tasks| && (k.tasks[i].state.Unused? || k.tasks[i].state.Setup?)
    requires (y.state.Setup? || y.state.Ready?) && y.prio <= IDLE_PRIO
    ensures Safe(SetTask(k, i, y))
  {
    forall c | 0 <= c < |k.cores|
      ensures CoreOk(k.tasks[i := y], k.cores[c], c, k.idle[c])
    {
      assert CoreOk(k.tasks, k.cores[c], c, k.idle[c]);
    }
  }

  // ----- Changes a core makes to one of its own tasks -----

  /** Slot `i` belongs to core `c`; no other core notices that it changes. */
  lemma OtherCores(tasks: seq<Tcb>, cores: seq<Core>, idle: seq<nat>, c: nat, i: int, y: Tcb, w: Core)
    requires AllCores(tasks, cores, idle) && c < |cores| && 0 <= i < |tasks| && tasks[i].owner == c
    requires CoreOk(tasks[i := y], w, c, idle[c])
    ensures AllCores(tasks[i := y], cores[c := w], idle)
  {
    forall d | 0 <= d < |cores|
      ensures CoreOk(tasks[i := y], cores[c := w][d], d, idle[d])
    {
      assert CoreOk(tasks, cores[d], d, idle[d]);
    }
  }

  lemma OwnKeeps(k: Kernel, c: nat, i: int, y: Tcb, w: Core)
    requires Safe(k) && c < |k.cores| && 0 <= i < |k.tasks| && k.tasks[i].owner == c && c < |k.idle|
    requires CoreOk(k.tasks[i := y], w, c, k.idle[c]) && TcbOk(k.cores[c := w], y, i)
    requires k.cores[c].started ==> w.started
    requires w.current == k.cores[c].current || !k.cores[c].started
    requires w.reap == k.cores[c].reap || k.cores[c].reap == -1 || k.cores[c].reap == i
    ensures Safe(SetCore(SetTask(k, i, y), c, w))
  {
    OtherCores(k.tasks, k.cores, k.idle, c, i, y, w);
    OwnTasks(k.tasks, k.cores, c, i, y, w);
  }

  lemma OwnTasks(tasks: seq<Tcb>, cores: seq<Core>, c: nat, i: int, y: Tcb, w: Core)
    requires AllTasks(tasks, cores) && c < |cores| && 0 <= i < |tasks| && TcbOk(cores[c := w], y, i)
    requires cores[c].started ==> w.started
    requires w.current == cores[c].current || !cores[c].started
    requires w.reap == cores[c].reap || cores[c].reap == -1 || cores[c].reap == i
    ensures AllTasks(tasks[i := y], cores[c := w])
  {
    var ts, cs := tasks[i := y], cores[c := w];
    forall j | 0 <= j < |ts|
      ensures TcbOk(cs, ts[j], j)
    {
      assert TcbOk(cores, tasks[j], j);
    }
  }

  /** Only the core's own phase changes. */
  lemma PhaseKeeps(k: Kernel, c: nat, p: Phase)
    requires Safe(k) && c < |k.cores| && k.cores[c].started && (p.Picked? ==> PickOk(k.tasks, k.cores[c], c, p.next))
    requires p.InTask? || p.Exiting? ==> k.tasks[k.cores[c].current].state.Running?
    requires p.Exiting? ==> c < |k.idle| && k.cores[c].current != k.idle[c] && k.cores[c].reap == -1
    ensures Safe(SetCore(k, c, k.cores[c].(phase := p)))
  {
    CoreAt(k, c);
    var i := k.cores[c].current;
    TaskAt(k, i);
    assert k.tasks[i := k.tasks[i]] == k.tasks;
    OwnKeeps(k, c, i, k.tasks[i], k.cores[c].(phase := p));
  }

  // ----- pick_next chooses a best candidate -----

  /** How many steps behind `cur` the search comes to slot `i`. */
  function Dist(n: nat, cur: int, i: int): int {
    if i > cur then i - cur else i - cur + n
  }

  lemma DistIs(n: nat, cur: int, i: int)
    requires 0 <= cur < n && 0 <= i < n
    ensures 1 <= Dist(n, cur, i) <= n && (cur + Dist(n, cur, i)) % n == i
  {
    Wraps(n, cur + Dist(n, cur, i));
  }

  lemma DistOf(n: nat, cur: int, d: nat)
    requires 0 <= cur < n && 1 <= d <= n
    ensures 0 <= (cur + d) % n < n && Dist(n, cur, (cur + d) % n) == d
  {
    Wraps(n, cur + d);
  }

  lemma Wraps(n: nat, x: nat)
    requires n > 0 && x < 2 * n
    ensures x % n == if x < n then x else x - n
  {
    var q := x / n;
    assert x == q * n + x % n;
    if q >= 2 {
      MulMono(2, q, n);
    } else if q == 1 {
      assert q * n == n;
    }
  }

  /** The search from distance `d` on finds the first best candidate. */
  lemma {:induction false} PickFromIs(tasks: seq<Tcb>, c: nat, cur: int, best: nat, d: nat, i: int)
    requires 0 <= cur < |tasks| && Candidate(tasks, c, cur, i) && tasks[i].prio == best
    requires 1 <= d <= Dist(|tasks|, cur, i)
    ensures var p := PickFrom(tasks, c, cur, best, d);
            Candidate(tasks, c, cur, p) && tasks[p].prio == best
            && d <= Dist(|tasks|, cur, p) <= Dist(|tasks|, cur, i)
    decreases |tasks| + 1 - d
  {
    DistIs(|tasks|, cur, i);
    var j := (cur + d) % |tasks|;
    DistOf(|tasks|, cur, d);
    if !(Candidate(tasks, c, cur, j) && tasks[j].prio == best) {
      PickFromIs(tasks, c, cur, best, d + 1, i);
    }
  }

  /** With any candidate at all, the choice is a candidate of best priority, and no
      candidate of that priority comes earlier in the round. */
  lemma PickIsBest(tasks: seq<Tcb>, c: nat, cur: int, i: int)
    requires 0 <= cur < |tasks| && Candidate(tasks, c, cur, i) && tasks[i].prio <= IDLE_PRIO
    ensures var p := PickNext(tasks, c, cur);
            && Candidate(tasks, c, cur, p)
            && (forall j :: Candidate(tasks, c, cur, j) ==> tasks[p].prio <= tasks[j].prio)
            && (forall j :: Candidate(tasks, c, cur, j) && tasks[j].prio == tasks[p].prio ==>
                  Dist(|tasks|, cur, p) <= Dist(|tasks|, cur, j))
  {
    var best := BestPrio(tasks, c, cur, |tasks|);
    var b :| 0 <= b < |tasks| && Candidate(tasks, c, cur, b) && tasks[b].prio == best;
    DistIs(|tasks|, cur, b);
    PickFromIs(tasks, c, cur, best, 1, b);
    var p := PickNext(tasks, c, cur);
    forall j | Candidate(tasks, c, cur, j) && tasks[j].prio == tasks[p].prio
      ensures Dist(|tasks|, cur, p) <= Dist(|tasks|, cur, j)
    {
      DistIs(|tasks|, cur, j);
      PickFromIs(tasks, c, cur, best, 1, j);
    }
  }

  // ----- The steps -----

  lemma ReapKeeps(k: Kernel, c: nat)
    requires Safe(k) && c < |k.cores| && k.cores[c].started
    ensures Safe(Reap(k, c)) && |Reap(k, c).cores| == |k.cores| && Reap(k, c).cores[c].started
    ensures Reap(k, c).cores[c]
         == k.cores[c].(reap := if k.cores[c].reap == k.cores[c].current then k.cores[c].reap else -1)
    ensures forall i :: 0 <= i < |k.tasks| && i != k.cores[c].reap ==> Reap(k, c).tasks[i] == k.tasks[i]
    ensures Reap(k, c).idle == k.idle && |Reap(k, c).tasks| == |k.tasks| && Reap(k, c).recs == k.recs
  {
    CoreAt(k, c);
    var r := k.cores[c].reap;
    if r >= 0 && r != k.cores[c].current {
      OwnKeeps(k, c, r, k.tasks[r].(state := Unused), k.cores[c].(reap := -1));
      assert Reap(k, c) == SetCore(SetTask(k, r, k.tasks[r].(state := Unused)), c, k.cores[c].(reap := -1));
    }
  }

  /** reap_pending frees no slot that is current on any core. */
  lemma ReapFreesNoCurrent(k: Kernel, c: nat, i: int, d: nat)
    requires Safe(k) && c < |k.cores| && d < |k.cores| && 0 <= i < |k.tasks|
    requires !k.tasks[i].state.Unused? && Reap(k, c).tasks[i].state.Unused?
    ensures k.cores[d].current != i && i == k.cores[c].reap
  {
    CoreAt(k, c);
    CoreAt(k, d);
  }

  lemma WakeKeeps(k: Kernel, obj: WaitObj)
    requires Safe(k)
    ensures Safe(WakeOne(k, obj))
  {
    var b := BestBlocked(k.tasks, obj, |k.tasks|);
    if b >= 0 {
      TaskAt(k, b);
      RemoteKeeps(k, b, k.tasks[b].(state := Ready, obj := Nothing));
    }
  }

  /** The running task of a core that is in its code. */
  lemma RunningTask(k: Kernel, c: nat)
    requires Safe(k) && c < |k.cores| && k.cores[c].started && (k.cores[c].phase.InTask? || k.cores[c].phase.Exiting?)
    ensures var i := k.cores[c].current;
            0 <= i < |k.tasks| && k.tasks[i].state.Running? && k.tasks[i].owner == c && k.cores[c].reap != i
  {
    CoreAt(k, c);
  }

  /** The running task stops running, before its core schedules. */
  lemma StopKeeps(k: Kernel, c: nat, y: Tcb)
    requires Safe(k) && c < |k.cores| && k.cores[c].started && k.cores[c].phase.InTask?
    requires c < |k.idle| && k.cores[c].current != k.idle[c]
    requires y.owner == c && y.prio <= IDLE_PRIO && (y.state.Blocked? || y.state.Sleeping?)
    ensures 0 <= k.cores[c].current < |k.tasks|
    ensures Safe(SetCore(SetTask(k, k.cores[c].current, y), c, k.cores[c].(phase := Scheduling)))
  {
    CoreAt(k, c);
    OwnKeeps(k, c, k.cores[c].current, y, k.cores[c].(phase := Scheduling));
  }

  lemma DieKeeps(k: Kernel, c: nat)
    requires Safe(k) && Legal(k, Die(c))
    ensures Safe(Step(k, Die(c)).0)
  {
    CoreAt(k, c);
    var i := k.cores[c].current;
    TaskAt(k, i);
    OwnKeeps(k, c, i, k.tasks[i].(state := Zombie), k.cores[c].(reap := i, phase := Scheduling));
  }

  /** The idle task is always a candidate. */
  lemma IdleCandidate(k: Kernel, c: nat)
    requires Safe(k) && c < |k.cores| && k.cores[c].started
    ensures c < |k.idle| && 0 <= k.cores[c].current < |k.tasks|
    ensures Candidate(k.tasks, c, k.cores[c].current, k.idle[c]) && k.tasks[k.idle[c]].prio <= IDLE_PRIO
  {
    CoreAt(k, c);
    TaskAt(k, k.idle[c]);
  }

  lemma PickKeeps(k: Kernel, c: nat)
    requires Safe(k) && Legal(k, Pick(c))
    ensures Safe(Step(k, Pick(c)).0)
  {
    IdleCandidate(k, c);
    PickIsBest(k.tasks, c, k.cores[c].current, k.idle[c]);
    hide PickNext;
    PhaseKeeps(k, c, Picked(PickNext(k.tasks, c, k.cores[c].current)));
  }

  /** Between choice and switch the current task may have been woken, nothing else. */
  lemma SwitchKeeps(k: Kernel, c: nat)
    requires Safe(k) && Legal(k, Switch(c))
    ensures Safe(SwitchTo(k, c)) && SwitchTo(k, c).cores[c].current == k.cores[c].phase.next
  {
    CoreAt(k, c);
    var cur, next := k.cores[c].current, k.cores[c].phase.next;
    TaskAt(k, cur);
    TaskAt(k, next);
    if next == cur {
      OwnKeeps(k, c, cur, k.tasks[cur].(state := Running), k.cores[c].(phase := InTask));
    } else {
      var x := k.tasks[cur].(state := if k.tasks[cur].state.Running? then Ready else k.tasks[cur].state);
      var y := k.tasks[next].(state := Running);
      var w := k.cores[c].(current := next, phase := InTask);
      SwitchedCores(k.tasks, k.cores, k.idle, c, cur, x, next, y, w);
      SwitchedTasks(k.tasks, k.cores, c, cur, x, next, y, w);
      assert k.tasks[cur := x] == if k.tasks[cur].state.Running? then k.tasks[cur := x] else k.tasks;
    }
  }

  lemma SwitchedCores(tasks: seq<Tcb>, cores: seq<Core>, idle: seq<nat>, c: nat, i: int, x: Tcb, j: int, y: Tcb,
                      w: Core)
    requires AllCores(tasks, cores, idle) && c < |cores| && 0 <= i < |tasks| && 0 <= j < |tasks| && i != j
    requires tasks[i].owner == c == tasks[j].owner && x.owner == c == y.owner
    requires x.state == tasks[i].state || (tasks[i].state.Running? && x.state.Ready?)
    requires (tasks[j].state.Ready? || tasks[j].state.Running?) && y.state.Running?
    requires w == cores[c].(current := j, phase := InTask) && w.started && (idle[c] == i ==> !tasks[i].state.Zombie?)
    ensures AllCores(tasks[i := x][j := y], cores[c := w], idle)
  {
    forall d | 0 <= d < |cores|
      ensures CoreOk(tasks[i := x][j := y], cores[c := w][d], d, idle[d])
    {
      assert CoreOk(tasks, cores[d], d, idle[d]);
    }
  }

  lemma SwitchedTasks(tasks: seq<Tcb>, cores: seq<Core>, c: nat, i: int, x: Tcb, j: int, y: Tcb, w: Core)
    requires AllTasks(tasks, cores) && c < |cores| && 0 <= i < |tasks| && 0 <= j < |tasks| && i != j
    requires tasks[i].owner == c == tasks[j].owner && x.owner == c == y.owner && x.prio <= IDLE_PRIO
    requires y.prio <= IDLE_PRIO
    requires x.state == (if tasks[i].state.Running? then Ready else tasks[i].state) && y.state.Running?
    requires w == cores[c].(current := j, phase := InTask) && w.started && cores[c].current == i
    ensures AllTasks(tasks[i := x][j := y], cores[c := w])
  {
    var ts, cs := tasks[i := x][j := y], cores[c := w];
    forall u | 0 <= u < |ts|
      ensures TcbOk(cs, ts[u], u)
    {
      assert TcbOk(cores, tasks[u], u);
    }
  }

  lemma EnterKeeps(k: Kernel, c: nat)
    requires Safe(k) && Legal(k, Start(c))
    ensures Safe(Enter(k, c))
  {
    CoreAt(k, c);
    var f := FirstReady(k.tasks, c, |k.tasks|);
    if f >= 0 {
      TaskAt(k, f);
      OwnKeeps(k, c, f, k.tasks[f].(state := Running), Core(true, f, k.cores[c].reap, InTask));
    }
  }

  lemma WaitKeeps(k: Kernel, c: nat, target: nat)
    requires Safe(k) && Works(k, c)
    ensures Safe(WaitLoop(k, c, k.cores[c].current, target).0)
  {
    var i := k.cores[c].current;
    RunningTask(k, c);
    TaskAt(k, i);
    hide FindRecord, ChildAlive;
    if FindRecord(k.recs, target, k.tasks[i].pid, 0) < 0 && ChildAlive(k.tasks, target, k.tasks[i].pid) {
      StopKeeps(k, c, k.tasks[i].(state := Blocked, obj := OnTask(i), waitFor := target));
    } else {
      RemoteKeeps(k, i, k.tasks[i].(waitFor := 0));
    }
  }

  /** The exit record wakes the parent and leaves the cores alone. */
  lemma RecordKeeps(k: Kernel, i: int, code: int)
    requires Safe(k) && 0 <= i < |k.tasks| && |k.recs| > 0
    ensures Safe(RecordExit(k, i, code)) && RecordExit(k, i, code).cores == k.cores
         && RecordExit(k, i, code).idle == k.idle
    ensures |RecordExit(k, i, code).tasks| == |k.tasks|
    ensures k.tasks[i].state.Running? ==> RecordExit(k, i, code).tasks[i] == k.tasks[i]
  {
    hide PutRecord;
    var x := k.tasks[i];
    if x.user && x.ppid != 0 && LiveByPid(k.tasks, x.ppid, 0) >= 0 {
      PutFrame(k, x.pid, x.ppid, code % 0x100);
      WakeKeeps(PutRecord(k, x.pid, x.ppid, code % 0x100), OnTask(LiveByPid(k.tasks, x.ppid, 0)));
    }
  }

  lemma PutFrame(k: Kernel, pid: nat, ppid: nat, code: int)
    requires |k.recs| > 0
    ensures PutRecord(k, pid, ppid, code) == k.(recs := PutRecord(k, pid, ppid, code).recs)
  {
  }

  lemma ExitKeeps(k: Kernel, c: nat, code: int)
    requires Safe(k) && Legal(k, Exit(c, code))
    ensures Safe(Step(k, Exit(c, code)).0)
  {
    hide Reap, RecordExit;
    var i := k.cores[c].current;
    RunningTask(k, c);
    ReapKeeps(k, c);
    var r := Reap(k, c);
    RecordKeeps(r, i, code);
    var q := RecordExit(r, i, code);
    PhaseKeeps(q, c, Exiting);
  }

  lemma StepSafe(k: Kernel, e: Event)
    requires Safe(k) && Legal(k, e)
    ensures Safe(Step(k, e).0)
  {
    hide Safe, Reap, RecordExit, WakeOne, PickNext, SwitchTo, Enter, WaitLoop, Create, TcbOk, CoreOk;
    match e {
      case CreateTask(owner, prio, admit) => CreateKeeps(k, owner, prio, admit);
      case Configure(s, ppid) => TaskPrio(k, s); RemoteKeeps(k, s, k.tasks[s].(ppid := ppid, user := true));
      case Admit(s) => TaskPrio(k, s); SetupKeeps(k, s, k.tasks[s].(state := Ready));
      case Start(c) => EnterKeeps(k, c);
      case Yield(c) => PhaseKeeps(k, c, Scheduling);
      case BlockOn(c, id) =>
        RunningTask(k, c);
        TaskPrio(k, k.cores[c].current);
        StopKeeps(k, c, k.tasks[k.cores[c].current].(state := Blocked, obj := OnIpc(id)));
      case Sleep(c) =>
        RunningTask(k, c);
        TaskPrio(k, k.cores[c].current);
        StopKeeps(k, c, k.tasks[k.cores[c].current].(state := Sleeping));
      case WaitPid(c, target) => WaitKeeps(k, c, target);
      case Recheck(c) => WaitKeeps(k, c, k.tasks[k.cores[c].current].waitFor);
      case Exit(c, code) => ExitKeeps(k, c, code);
      case Die(c) => DieKeeps(k, c);
      case DoReap(c) =>
        ReapKeeps(k, c);
        PhaseKeeps(Reap(k, c), c, Reaped);
      case Pick(c) => PickKeeps(k, c);
      case Switch(c) => SwitchKeeps(k, c);
      case Wake(obj) => WakeKeeps(k, obj);
      case TimerWake(s) => TaskPrio(k, s); RemoteKeeps(k, s, k.tasks[s].(state := Ready, obj := Nothing));
      case Boost(s, prio) => RemoteKeeps(k, s, k.tasks[s].(prio := prio));
      case Kill(s) => TaskPrio(k, s); KillKeeps(k, s);
    }
  }

  lemma TaskPrio(k: Kernel, i: int)
    requires Safe(k) && 0 <= i < |k.tasks|
    ensures k.tasks[i].prio <= IDLE_PRIO
  {
    TaskAt(k, i);
  }

  lemma KillKeeps(k: Kernel, s: nat)
    requires Safe(k) && Legal(k, Kill(s))
    ensures Safe(Step(k, Kill(s)).0)
  {
    TaskAt(k, s);
    var x := k.tasks[s].(kill := true);
    RemoteKeeps(k, s, if x.state.Sleeping? || x.state.Blocked? then x.(state := Ready, obj := Nothing) else x);
  }

  lemma CreateKeeps(k: Kernel, owner: nat, prio: nat, admit: bool)
    requires Safe(k) && prio <= IDLE_PRIO
    ensures Safe(Create(k, owner, prio, admit))
    ensures forall i, c ::
              0 <= i < |k.tasks| && Create(k, owner, prio, admit).tasks[i] != k.tasks[i] && 0 <= c < |k.cores| ==>
              k.tasks[i].state.Unused? && k.cores[c].current != i
  {
    var s := FreeSlot(k.tasks, 0);
    if owner < |k.cores| && s >= 0 {
      SetupKeeps(k, s, Tcb(if admit then Ready else Setup, prio, owner, k.nextPid, 0, false, Nothing, false, 0));
      forall c | 0 <= c < |k.cores|
        ensures k.cores[c].current != s
      {
        CoreAt(k, c);
      }
    }
  }

  // ----- Every run -----

  function Run(k: Kernel, events: seq<Event>): Kernel
    decreases |events|
  {
    if events == [] then k
    else
      var l := Run(k, events[..|events| - 1]);
      var e := events[|events| - 1];
      if Legal(l, e) then Step(l, e).0 else l
  }

  /** After sched_init: nothing started, one ready idle task per core. */
  predicate Initial(k: Kernel) {
    && |k.idle| == |k.cores| <= |k.tasks|
    && (forall c :: 0 <= c < |k.cores| ==> k.idle[c] == c && k.cores[c] == Core(false, -1, -1, InTask))
    && (forall i :: 0 <= i < |k.tasks| ==>
          k.tasks[i] == if i < |k.cores| then Tcb(Ready, IDLE_PRIO, i, i + 1, 0, false, Nothing, false, 0)
                        else Tcb(Unused, 0, 0, 0, 0, false, Nothing, false, 0))
    && (forall i :: 0 <= i < |k.recs| ==> !k.recs[i].used)
    && k.nextPid == |k.cores| + 1 && k.exits == map[] && k.harvested == {}
  }

  lemma InitialSafe(k: Kernel)
    requires Initial(k)
    ensures Safe(k)
  {
    forall c | 0 <= c < |k.cores|
      ensures CoreOk(k.tasks, k.cores[c], c, k.idle[c])
    {
      assert k.cores[c] == Core(false, -1, -1, InTask) && k.idle[c] == c;
    }
  }

  lemma {:induction false} RunSafe(k: Kernel, events: seq<Event>)
    requires Initial(k)
    ensures Safe(Run(k, events))
    decreases |events|
  {
    hide Safe, Step, Legal;
    if events == [] {
      InitialSafe(k);
    } else {
      RunSafe(k, events[..|events| - 1]);
      var l, e := Run(k, events[..|events| - 1]), events[|events| - 1];
      if Legal(l, e) {
        StepSafe(l, e);
      }
    }
  }

  /** In every reachable state: a running task is the current one of its owner core
      and of no other; each core's current task belongs to that core and its slot is
      in use; each zombie is what its owner core will reap; and every started core
      has a candidate, so that pick_next always chooses one. */
  lemma SchedulerIsSafe(k: Kernel, events: seq<Event>)
    requires Initial(k)
    ensures var r := Run(k, events);
            && (forall i, c :: 0 <= i < |r.tasks| && r.tasks[i].state.Running? && 0 <= c < |r.cores| ==>
                                 (r.cores[c].current == i <==> c == r.tasks[i].owner))
            && (forall c :: 0 <= c < |r.cores| && r.cores[c].started ==> HasCurrent(r, c))
            && (forall i :: 0 <= i < |r.tasks| && r.tasks[i].state.Zombie? ==>
                              r.tasks[i].owner < |r.cores| && r.cores[r.tasks[i].owner].reap == i)
            && (forall c :: 0 <= c < |r.cores| && r.cores[c].started ==>
                              Candidate(r.tasks, c, r.cores[c].current, PickNext(r.tasks, c, r.cores[c].current)))
  {
    hide Run, Initial, PickNext, Candidate;
    RunSafe(k, events);
    var r := Run(k, events);
    forall c | 0 <= c < |r.cores| && r.cores[c].started
      ensures HasCurrent(r, c) && Candidate(r.tasks, c, r.cores[c].current, PickNext(r.tasks, c, r.cores[c].current))
    {
      CoreAt(r, c);
      IdleCandidate(r, c);
      PickIsBest(r.tasks, c, r.cores[c].current, r.idle[c]);
    }
    forall i, c | 0 <= i < |r.tasks| && r.tasks[i].state.Running? && 0 <= c < |r.cores|
      ensures r.cores[c].current == i <==> c == r.tasks[i].owner
    {
      TaskAt(r, i);
      CoreAt(r, c);
    }
    forall i | 0 <= i < |r.tasks| && r.tasks[i].state.Zombie?
      ensures r.tasks[i].owner < |r.cores| && r.cores[r.tasks[i].owner].reap == i
    {
      TaskAt(r, i);
    }
  }

  predicate HasCurrent(k: Kernel, c: nat) {
    && c < |k.cores| && 0 <= k.cores[c].current < |k.tasks|
    && k.tasks[k.cores[c].current].owner == c && !k.tasks[k.cores[c].current].state.Unused?
  }
}
