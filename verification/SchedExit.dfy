/** Exit records of kernel/sched.c: while a record slot is free for every exit, a
    parent's first wait for a child gets exactly the child's masked exit code, once,
    and does not sleep through the child's exit. */
module SchedExit {
  import opened Sched
  import opened SchedInv

  predicate Live(x: Tcb) {
    !x.state.Unused? && !x.state.Zombie?
  }

  // ----- The invariant -----

  predicate PidOk(x: Tcb, nextPid: nat) {
    !x.state.Unused? ==> 1 <= x.pid < nextPid && x.ppid < nextPid
  }

  /** A live task whose exit is recorded is on its way out, and the record names its
      parent. */
  predicate OnWayOut(x: Tcb, i: int, cores: seq<Core>, exits: map<nat, Exited>) {
    Live(x) && x.pid in exits ==>
      && x.owner < |cores| && cores[x.owner].started && cores[x.owner].current == i && cores[x.owner].phase.Exiting?
      && exits[x.pid].ppid == x.ppid
  }

  ghost predicate HasChild(tasks: seq<Tcb>, target: nat, parent: nat) {
    exists j :: 0 <= j < |tasks| && IsLiveChild(tasks[j], target, parent)
  }

  /** A task asleep in sched_wait_pid sleeps on its own slot, and on its first wait
      for this child the child is alive and has not recorded its exit. */
  ghost predicate SleepsRight(x: Tcb, i: nat, tasks: seq<Tcb>, exits: map<nat, Exited>, harvested: set<nat>) {
    x.state.Blocked? ==>
      && (x.obj.OnTask? <==> x.waitFor != 0)
      && (x.waitFor != 0 ==> x.obj == OnTask(i))
      && (x.waitFor != 0 && x.waitFor !in harvested ==> x.waitFor !in exits && HasChild(tasks, x.waitFor, x.pid))
  }

  ghost predicate NobodyIs(tasks: seq<Tcb>, pid: nat) {
    forall j :: 0 <= j < |tasks| && Live(tasks[j]) ==> tasks[j].pid != pid
  }

  /** A child on its way out has recorded its exit, unless its parent was gone. */
  ghost predicate LeavesRight(w: Core, tasks: seq<Tcb>, exits: map<nat, Exited>) {
    w.started && w.phase.Exiting? && 0 <= w.current < |tasks| ==>
      var x := tasks[w.current];
      Live(x) && (x.user && x.ppid != 0 && x.pid !in exits ==> NobodyIs(tasks, x.ppid))
  }

  ghost predicate TasksRight(k: Kernel) {
    && (forall i :: 0 <= i < |k.tasks| ==> PidOk(k.tasks[i], k.nextPid))
    && (forall i :: 0 <= i < |k.tasks| ==> OnWayOut(k.tasks[i], i, k.cores, k.exits))
    && (forall i :: 0 <= i < |k.tasks| ==> SleepsRight(k.tasks[i], i, k.tasks, k.exits, k.harvested))
  }

  predicate SamePid(x: Tcb, y: Tcb) {
    !x.state.Unused? && !y.state.Unused? && x.pid == y.pid
  }

  ghost predicate PidsApart(tasks: seq<Tcb>) {
    forall i, j :: 0 <= i < |tasks| && 0 <= j < |tasks| && SamePid(tasks[i], tasks[j]) ==> i == j
  }

  ghost predicate CoresRight(k: Kernel) {
    forall c :: 0 <= c < |k.cores| ==> LeavesRight(k.cores[c], k.tasks, k.exits)
  }

  predicate RecordRight(r: Record, exits: map<nat, Exited>, harvested: set<nat>) {
    r.used ==> r.pid in exits && exits[r.pid] == Exited(r.ppid, r.code) && r.pid !in harvested && 0 <= r.code < 0x100
  }

  ghost predicate Kept(recs: seq<Record>, pid: nat) {
    exists s :: 0 <= s < |recs| && recs[s].used && recs[s].pid == pid
  }

  /** Records tell recorded exits truly, none twice, and none is lost before it is
      collected. */
  ghost predicate RecordsRight(recs: seq<Record>, exits: map<nat, Exited>, harvested: set<nat>, nextPid: nat) {
    && (forall s :: 0 <= s < |recs| ==> RecordRight(recs[s], exits, harvested))
    && (forall s, t :: 0 <= s < |recs| && 0 <= t < |recs| && recs[s].used && recs[t].used ==>
          recs[s].pid == recs[t].pid ==> s == t)
    && (forall pid :: pid in exits && pid !in harvested ==> Kept(recs, pid))
    && (forall pid :: pid in harvested ==> pid in exits)
    && (forall pid :: pid in exits ==> pid < nextPid)
  }

  ghost predicate Books(k: Kernel) {
    k.nextPid >= 1 && TasksRight(k) && PidsApart(k.tasks) && CoresRight(k)
    && RecordsRight(k.recs, k.exits, k.harvested, k.nextPid)
  }

  // ----- Steps the books do not see -----

  /** Task `x` becomes `y`: as alive as before, the same identity, and no new sleep in
      sched_wait_pid. */
  predicate QuietTask(x: Tcb, y: Tcb) {
    && (Live(x) <==> Live(y))
    && (!y.state.Unused? ==>
        !x.state.Unused? && y.pid == x.pid && y.ppid == x.ppid && y.user == x.user && y.owner == x.owner)
    && (y.state.Blocked? ==>
        (x.state.Blocked? && y.obj == x.obj && y.waitFor == x.waitFor) || (y.waitFor == 0 && !y.obj.OnTask?))
  }

  /** A core's change that neither enters nor leaves the way out. */
  predicate QuietCore(w: Core, v: Core) {
    && (v.started && v.phase.Exiting? <==> w.started && w.phase.Exiting?)
    && (w.started && w.phase.Exiting? ==> v.current == w.current)
  }

  lemma QuietKeeps(k: Kernel, i: int, y: Tcb)
    requires Books(k) && 0 <= i < |k.tasks| && QuietTask(k.tasks[i], y)
    ensures Books(SetTask(k, i, y))
  {
    hide RecordsRight, QuietTask;
    QuietTasks(k, i, y);
    QuietCores(k, i, y);
    QuietPids(k.tasks, i, y);
  }

  lemma QuietPids(tasks: seq<Tcb>, i: int, y: Tcb)
    requires PidsApart(tasks) && 0 <= i < |tasks| && QuietTask(tasks[i], y)
    ensures PidsApart(tasks[i := y])
  {
  }

  lemma QuietTasks(k: Kernel, i: int, y: Tcb)
    requires TasksRight(k) && 0 <= i < |k.tasks| && QuietTask(k.tasks[i], y)
    ensures TasksRight(SetTask(k, i, y))
  {
    var ts := k.tasks[i := y];
    forall j | 0 <= j < |ts|
      ensures PidOk(ts[j], k.nextPid) && OnWayOut(ts[j], j, k.cores, k.exits)
      ensures SleepsRight(ts[j], j, ts, k.exits, k.harvested)
    {
      assert PidOk(k.tasks[j], k.nextPid) && OnWayOut(k.tasks[j], j, k.cores, k.exits);
      assert SleepsRight(k.tasks[j], j, k.tasks, k.exits, k.harvested);
      ChildStays(k.tasks, i, y, ts[j].waitFor, ts[j].pid);
    }
  }

  lemma ChildStays(tasks: seq<Tcb>, i: int, y: Tcb, target: nat, parent: nat)
    requires 0 <= i < |tasks| && QuietTask(tasks[i], y)
    ensures HasChild(tasks, target, parent) ==> HasChild(tasks[i := y], target, parent)
  {
    if HasChild(tasks, target, parent) {
      var j :| 0 <= j < |tasks| && IsLiveChild(tasks[j], target, parent);
      assert IsLiveChild(tasks[i := y][j], target, parent);
    }
  }

  lemma QuietCores(k: Kernel, i: int, y: Tcb)
    requires CoresRight(k) && 0 <= i < |k.tasks| && QuietTask(k.tasks[i], y)
    ensures CoresRight(SetTask(k, i, y))
  {
    var ts := k.tasks[i := y];
    forall c | 0 <= c < |k.cores|
      ensures LeavesRight(k.cores[c], ts, k.exits)
    {
      assert LeavesRight(k.cores[c], k.tasks, k.exits);
    }
  }

  lemma CoreKeeps(k: Kernel, c: nat, w: Core)
    requires Books(k) && c < |k.cores| && QuietCore(k.cores[c], w)
    ensures Books(SetCore(k, c, w))
  {
    hide RecordsRight;
    var cs := k.cores[c := w];
    forall d | 0 <= d < |cs|
      ensures LeavesRight(cs[d], k.tasks, k.exits)
    {
      assert LeavesRight(k.cores[d], k.tasks, k.exits);
    }
    forall j | 0 <= j < |k.tasks|
      ensures OnWayOut(k.tasks[j], j, cs, k.exits)
    {
      assert OnWayOut(k.tasks[j], j, k.cores, k.exits);
    }
  }

  // ----- Birth -----

  /** A new task gets a pid nobody has or had. */
  lemma CreateBooks(k: Kernel, owner: nat, prio: nat, admit: bool)
    requires Books(k)
    ensures Books(Create(k, owner, prio, admit))
  {
    var s := FreeSlot(k.tasks, 0);
    if owner < |k.cores| && s >= 0 {
      var y := Tcb(if admit then Ready else Setup, prio, owner, k.nextPid, 0, false, Nothing, false, 0);
      hide RecordsRight;
      assert forall pid :: pid in k.exits ==> pid < k.nextPid by { ExitsBelow(k); }
      NewTasks(k, s, y);
      NewCores(k, s, y);
      NewPids(k.tasks, k.nextPid, s, y);
      LaterRecords(k);
    }
  }

  lemma ExitsBelow(k: Kernel)
    requires Books(k)
    ensures forall pid :: pid in k.exits ==> pid < k.nextPid
  {
  }

  lemma LaterRecords(k: Kernel)
    requires Books(k)
    ensures RecordsRight(k.recs, k.exits, k.harvested, k.nextPid + 1)
  {
  }

  lemma NewPids(tasks: seq<Tcb>, nextPid: nat, s: int, y: Tcb)
    requires PidsApart(tasks) && 0 <= s < |tasks| && tasks[s].state.Unused? && y.pid == nextPid
    requires forall i :: 0 <= i < |tasks| ==> PidOk(tasks[i], nextPid)
    ensures PidsApart(tasks[s := y])
  {
    var ts := tasks[s := y];
    forall i, j | 0 <= i < |ts| && 0 <= j < |ts| && SamePid(ts[i], ts[j])
      ensures i == j
    {
      assert PidOk(tasks[i], nextPid) && PidOk(tasks[j], nextPid);
    }
  }

  lemma NewTasks(k: Kernel, s: int, y: Tcb)
    requires TasksRight(k) && 0 <= s < |k.tasks| && k.tasks[s].state.Unused? && k.nextPid >= 1
    requires y.pid == k.nextPid && y.ppid == 0 && !y.user && y.waitFor == 0 && !y.state.Blocked?
    requires forall pid :: pid in k.exits ==> pid < k.nextPid
    ensures TasksRight(SetTask(k, s, y).(nextPid := k.nextPid + 1))
  {
    var ts := k.tasks[s := y];
    forall j | 0 <= j < |ts|
      ensures PidOk(ts[j], k.nextPid + 1) && OnWayOut(ts[j], j, k.cores, k.exits)
      ensures SleepsRight(ts[j], j, ts, k.exits, k.harvested)
    {
      assert PidOk(k.tasks[j], k.nextPid) && OnWayOut(k.tasks[j], j, k.cores, k.exits);
      assert SleepsRight(k.tasks[j], j, k.tasks, k.exits, k.harvested);
      NewChild(k.tasks, s, y, ts[j].waitFor, ts[j].pid);
    }
  }

  lemma NewChild(tasks: seq<Tcb>, s: int, y: Tcb, target: nat, parent: nat)
    requires 0 <= s < |tasks| && (tasks[s].state.Unused? || !tasks[s].user)
    ensures HasChild(tasks, target, parent) ==> HasChild(tasks[s := y], target, parent)
  {
    if HasChild(tasks, target, parent) {
      var j :| 0 <= j < |tasks| && IsLiveChild(tasks[j], target, parent);
      assert IsLiveChild(tasks[s := y][j], target, parent);
    }
  }

  lemma NewCores(k: Kernel, s: int, y: Tcb)
    requires CoresRight(k) && TasksRight(k) && 0 <= s < |k.tasks| && k.tasks[s].state.Unused? && y.pid == k.nextPid
    ensures CoresRight(SetTask(k, s, y).(nextPid := k.nextPid + 1))
  {
    var ts := k.tasks[s := y];
    forall c | 0 <= c < |k.cores|
      ensures LeavesRight(k.cores[c], ts, k.exits)
    {
      assert LeavesRight(k.cores[c], k.tasks, k.exits);
      var w := k.cores[c];
      if w.started && w.phase.Exiting? && 0 <= w.current < |ts| {
        assert PidOk(k.tasks[w.current], k.nextPid);
      }
    }
  }

  /** A task being set up becomes somebody's child. */
  lemma ConfigureBooks(k: Kernel, s: nat, ppid: nat)
    requires Books(k) && Safe(k) && Legal(k, Configure(s, ppid))
    ensures Books(SetTask(k, s, k.tasks[s].(ppid := ppid, user := true)))
  {
    hide RecordsRight;
    var y := k.tasks[s].(ppid := ppid, user := true);
    var ts := k.tasks[s := y];
    var p := LiveByPid(k.tasks, ppid, 0);
    assert PidOk(k.tasks[p], k.nextPid);
    NotSetup(k, s);
    forall j | 0 <= j < |ts|
      ensures PidOk(ts[j], k.nextPid) && OnWayOut(ts[j], j, k.cores, k.exits)
      ensures SleepsRight(ts[j], j, ts, k.exits, k.harvested)
    {
      assert PidOk(k.tasks[j], k.nextPid) && OnWayOut(k.tasks[j], j, k.cores, k.exits);
      assert SleepsRight(k.tasks[j], j, k.tasks, k.exits, k.harvested);
      NewChild(k.tasks, s, y, ts[j].waitFor, ts[j].pid);
    }
    ConfigureCores(k, s, y);
    ConfigurePids(k.tasks, s, y);
  }

  lemma ConfigurePids(tasks: seq<Tcb>, s: int, y: Tcb)
    requires PidsApart(tasks) && 0 <= s < |tasks| && y.pid == tasks[s].pid && !tasks[s].state.Unused?
    ensures PidsApart(tasks[s := y])
  {
  }

  /** A task being set up is current nowhere and has recorded no exit. */
  lemma NotSetup(k: Kernel, s: nat)
    requires Books(k) && Safe(k) && s < |k.tasks| && k.tasks[s].state.Setup?
    ensures k.tasks[s].pid !in k.exits && forall c :: 0 <= c < |k.cores| ==> k.cores[c].current != s
  {
    hide RecordsRight;
    assert OnWayOut(k.tasks[s], s, k.cores, k.exits);
    forall c | 0 <= c < |k.cores|
      ensures k.cores[c].current != s
    {
      CoreAt(k, c);
    }
  }

  lemma ConfigureCores(k: Kernel, s: int, y: Tcb)
    requires CoresRight(k) && 0 <= s < |k.tasks| && forall c :: 0 <= c < |k.cores| ==> k.cores[c].current != s
    requires y.pid == k.tasks[s].pid && Live(k.tasks[s])
    ensures CoresRight(SetTask(k, s, y))
  {
    var ts := k.tasks[s := y];
    forall c | 0 <= c < |k.cores|
      ensures LeavesRight(k.cores[c], ts, k.exits)
    {
      assert LeavesRight(k.cores[c], k.tasks, k.exits);
    }
  }

  // ----- Waking and sleeping -----

  lemma WakeBooks(k: Kernel, obj: WaitObj)
    requires Books(k)
    ensures Books(WakeOne(k, obj))
  {
    hide Books;
    var b := BestBlocked(k.tasks, obj, |k.tasks|);
    if b >= 0 {
      QuietKeeps(k, b, k.tasks[b].(state := Ready, obj := Nothing));
    }
  }

  lemma ReapBooks(k: Kernel, c: nat)
    requires Books(k) && Safe(k) && c < |k.cores|
    ensures Books(Reap(k, c))
  {
    hide Books;
    CoreAt(k, c);
    var r := k.cores[c].reap;
    if r >= 0 && r != k.cores[c].current {
      CoreKeeps(k, c, k.cores[c].(reap := -1));
      QuietKeeps(SetCore(k, c, k.cores[c].(reap := -1)), r, k.tasks[r].(state := Unused));
    }
  }

  lemma SwitchBooks(k: Kernel, c: nat)
    requires Books(k) && Safe(k) && Legal(k, Switch(c))
    ensures Books(SwitchTo(k, c))
  {
    hide Books;
    CoreAt(k, c);
    var cur, next := k.cores[c].current, k.cores[c].phase.next;
    if next == cur {
      QuietKeeps(k, cur, k.tasks[cur].(state := Running));
      CoreKeeps(SetTask(k, cur, k.tasks[cur].(state := Running)), c, k.cores[c].(phase := InTask));
    } else {
      var x := k.tasks[cur].(state := if k.tasks[cur].state.Running? then Ready else k.tasks[cur].state);
      QuietKeeps(k, cur, x);
      var k1 := SetTask(k, cur, x);
      QuietKeeps(k1, next, k.tasks[next].(state := Running));
      CoreKeeps(SetTask(k1, next, k.tasks[next].(state := Running)), c, k.cores[c].(current := next, phase := InTask));
      assert k.tasks[cur := x] == if k.tasks[cur].state.Running? then k.tasks[cur := x] else k.tasks;
    }
  }

  // ----- Exiting -----

  /** A free record slot for the exit about to happen. */
  predicate RoomFor(k: Kernel, e: Event) {
    e.Exit? ==> FreeRecord(k.recs, 0) >= 0
  }

  /** The record as RecordExit leaves it when a slot is free. */
  lemma RecordIs(k: Kernel, i: int, code: int)
    requires 0 <= i < |k.tasks| && |k.recs| > 0 && FreeRecord(k.recs, 0) >= 0
    ensures var x, p := k.tasks[i], LiveByPid(k.tasks, k.tasks[i].ppid, 0);
            RecordExit(k, i, code) ==
              if !x.user || x.ppid == 0 || p < 0 then k
              else WakeOne(k, OnTask(p))
                   .(recs := k.recs[FreeRecord(k.recs, 0) := Record(true, x.pid, x.ppid, code % 0x100)],
                                          exits := k.exits[x.pid := Exited(x.ppid, code % 0x100)])
  {
  }

  /** After the wake-up of slot `p` nobody sleeps for a child of the task there. */
  lemma ParentAwake(k: Kernel, p: int, target: nat)
    requires Books(k) && Safe(k) && 0 <= p < |k.tasks| && Live(k.tasks[p]) && target !in k.harvested
    requires forall j :: 0 <= j < |k.tasks| && Live(k.tasks[j]) && k.tasks[j].pid == target ==>
               k.tasks[j].ppid == k.tasks[p].pid
    ensures forall j :: 0 <= j < |k.tasks| && WakeOne(k, OnTask(p)).tasks[j].state.Blocked? ==>
              WakeOne(k, OnTask(p)).tasks[j].waitFor != target || target == 0
  {
    hide RecordsRight, CoresRight;
    var b := BestBlocked(k.tasks, OnTask(p), |k.tasks|);
    var q := WakeOne(k, OnTask(p)).tasks;
    forall j | 0 <= j < |q| && q[j].state.Blocked? && target != 0
      ensures q[j].waitFor != target
    {
      if b >= 0 {
        OwnSlot(k, b, p);
      }
      TaskAt(k, j);
      if q[j].waitFor == target {
        SleeperIsParent(k, p, j, target);
      }
    }
  }

  /** Only the parent sleeps for a child. */
  lemma SleeperIsParent(k: Kernel, p: int, j: int, target: nat)
    requires Books(k) && 0 <= p < |k.tasks| && Live(k.tasks[p]) && target !in k.harvested && target != 0
    requires forall u :: 0 <= u < |k.tasks| && Live(k.tasks[u]) && k.tasks[u].pid == target ==>
               k.tasks[u].ppid == k.tasks[p].pid
    requires 0 <= j < |k.tasks| && k.tasks[j].state.Blocked? && k.tasks[j].waitFor == target
    ensures j == p && k.tasks[j].obj == OnTask(p)
  {
    hide RecordsRight, CoresRight;
    assert SleepsRight(k.tasks[j], j, k.tasks, k.exits, k.harvested);
    var u :| 0 <= u < |k.tasks| && IsLiveChild(k.tasks[u], target, k.tasks[j].pid);
    assert SamePid(k.tasks[j], k.tasks[p]);
  }

  /** Whoever sleeps on a task slot sleeps on its own. */
  lemma OwnSlot(k: Kernel, b: int, p: nat)
    requires Books(k) && 0 <= b < |k.tasks| && k.tasks[b].state.Blocked? && k.tasks[b].obj == OnTask(p)
    ensures b == p
  {
    hide RecordsRight, CoresRight;
    assert SleepsRight(k.tasks[b], b, k.tasks, k.exits, k.harvested);
  }

  /** Recording the exit of the task running on core `c`, nobody being asleep for it. */
  lemma RecordBooks(k: Kernel, c: nat, f: int, code: int)
    requires Books(k) && Safe(k) && InPhase(k, c, InTask) && 0 <= f < |k.recs| && !k.recs[f].used
    requires var x := k.tasks[k.cores[c].current];
             && Live(x) && x.owner == c && x.pid !in k.exits && 0 <= code < 0x100
             && forall j :: 0 <= j < |k.tasks| && k.tasks[j].state.Blocked? ==>
                  k.tasks[j].waitFor != x.pid || x.pid == 0
    ensures var x := k.tasks[k.cores[c].current];
            Books(k.(recs := k.recs[f := Record(true, x.pid, x.ppid, code)],
                     exits := k.exits[x.pid := Exited(x.ppid, code)],
                     cores := k.cores[c := k.cores[c].(phase := Exiting)]))
  {
    var i := k.cores[c].current;
    var x := k.tasks[i];
    var cs, es := k.cores[c := k.cores[c].(phase := Exiting)], k.exits[x.pid := Exited(x.ppid, code)];
    assert PidOk(x, k.nextPid);
    RecordAdded(k.recs, k.exits, k.harvested, k.nextPid, f, x.pid, x.ppid, code);
    hide RecordsRight;
    forall j | 0 <= j < |k.tasks|
      ensures OnWayOut(k.tasks[j], j, cs, es) && SleepsRight(k.tasks[j], j, k.tasks, es, k.harvested)
    {
      assert OnWayOut(k.tasks[j], j, k.cores, k.exits);
      assert SleepsRight(k.tasks[j], j, k.tasks, k.exits, k.harvested);
      assert SamePid(k.tasks[j], x) ==> j == i;
    }
    forall d | 0 <= d < |cs|
      ensures LeavesRight(cs[d], k.tasks, es)
    {
      assert LeavesRight(k.cores[d], k.tasks, k.exits);
    }
  }

  lemma RecordAdded(recs: seq<Record>, exits: map<nat, Exited>, harvested: set<nat>, nextPid: nat,
                    f: int, pid: nat, ppid: nat, code: int)
    requires RecordsRight(recs, exits, harvested, nextPid) && 0 <= f < |recs| && !recs[f].used
    requires pid !in exits && pid < nextPid && 0 <= code < 0x100
    ensures RecordsRight(recs[f := Record(true, pid, ppid, code)], exits[pid := Exited(ppid, code)], harvested, nextPid)
  {
    var rs, es := recs[f := Record(true, pid, ppid, code)], exits[pid := Exited(ppid, code)];
    forall s | 0 <= s < |rs|
      ensures RecordRight(rs[s], es, harvested)
    {
      assert RecordRight(recs[s], exits, harvested);
    }
    forall s, t | 0 <= s < |rs| && 0 <= t < |rs| && rs[s].used && rs[t].used && rs[s].pid == rs[t].pid
      ensures s == t
    {
      assert RecordRight(recs[s], exits, harvested) && RecordRight(recs[t], exits, harvested);
    }
    forall p | p in es && p !in harvested
      ensures Kept(rs, p)
    {
      if p == pid {
        assert rs[f].pid == p;
      } else {
        assert Kept(recs, p);
        var s :| 0 <= s < |recs| && recs[s].used && recs[s].pid == p;
        assert rs[s] == recs[s];
      }
    }
  }

  /** A task that leaves without a record leaves no live parent behind. */
  lemma NoRecordBooks(k: Kernel, c: nat)
    requires Books(k) && InPhase(k, c, InTask) && Live(k.tasks[k.cores[c].current])
    requires k.tasks[k.cores[c].current].owner == c
    requires var x := k.tasks[k.cores[c].current];
             x.pid !in k.exits && (x.user && x.ppid != 0 ==> NobodyIs(k.tasks, x.ppid))
    ensures Books(k.(cores := k.cores[c := k.cores[c].(phase := Exiting)]))
  {
    hide RecordsRight;
    var cs := k.cores[c := k.cores[c].(phase := Exiting)];
    forall j | 0 <= j < |k.tasks|
      ensures OnWayOut(k.tasks[j], j, cs, k.exits)
    {
      assert OnWayOut(k.tasks[j], j, k.cores, k.exits);
    }
    forall d | 0 <= d < |cs|
      ensures LeavesRight(cs[d], k.tasks, k.exits)
    {
      assert LeavesRight(k.cores[d], k.tasks, k.exits);
    }
  }

  lemma NotYetRecorded(k: Kernel, i: int)
    requires Books(k) && 0 <= i < |k.tasks| && Live(k.tasks[i])
    requires k.tasks[i].owner < |k.cores| ==> !k.cores[k.tasks[i].owner].phase.Exiting?
    ensures k.tasks[i].pid !in k.exits
  {
    hide RecordsRight;
    assert OnWayOut(k.tasks[i], i, k.cores, k.exits);
  }

  lemma HarvestedRecorded(k: Kernel, pid: nat)
    requires Books(k) && pid !in k.exits
    ensures pid !in k.harvested
  {
  }

  lemma ExitBooks(k: Kernel, c: nat, code: int)
    requires Books(k) && Safe(k) && Legal(k, Exit(c, code)) && RoomFor(k, Exit(c, code))
    ensures Books(Step(k, Exit(c, code)).0)
  {
    hide Books, Safe, Reap, WakeOne, RecordExit;
    var i := k.cores[c].current;
    RunningTask(k, c);
    ReapKeeps(k, c);
    ReapBooks(k, c);
    var r := Reap(k, c);
    RecordIs(r, i, code);
    ReapFrame(k, c);
    var x := r.tasks[i];
    NotYetRecorded(r, i);
    var p := LiveByPid(r.tasks, x.ppid, 0);
    if !x.user || x.ppid == 0 || p < 0 {
      NoRecordBooks(r, c);
    } else {
      OnlyOne(r, i, p);
      HarvestedRecorded(r, x.pid);
      ParentAwake(r, p, x.pid);
      WakeBooks(r, OnTask(p));
      WakeKeeps(r, OnTask(p));
      var q := WakeOne(r, OnTask(p));
      WakeFrame(r, OnTask(p), i);
      RecordBooks(q, c, FreeRecord(r.recs, 0), code % 0x100);
    }
  }

  lemma ReapFrame(k: Kernel, c: nat)
    requires c < |k.cores|
    ensures var r := Reap(k, c);
            r.recs == k.recs && r.exits == k.exits && r.harvested == k.harvested && r.nextPid == k.nextPid
            && |r.tasks| == |k.tasks| && |r.cores| == |k.cores| && r.idle == k.idle
  {
  }

  lemma WakeFrame(k: Kernel, obj: WaitObj, i: int)
    requires 0 <= i < |k.tasks| && !k.tasks[i].state.Blocked?
    ensures var q := WakeOne(k, obj);
            q.cores == k.cores && q.recs == k.recs && q.exits == k.exits && q.harvested == k.harvested
            && q.nextPid == k.nextPid && q.idle == k.idle && |q.tasks| == |k.tasks| && q.tasks[i] == k.tasks[i]
  {
  }

  /** The exiting task is the only live one with its pid, its parent's pid is p's. */
  lemma OnlyOne(k: Kernel, i: int, p: int)
    requires Books(k) && 0 <= i < |k.tasks| && Live(k.tasks[i]) && 0 <= p < |k.tasks|
    requires k.tasks[p].pid == k.tasks[i].ppid
    ensures forall j :: 0 <= j < |k.tasks| && Live(k.tasks[j]) && k.tasks[j].pid == k.tasks[i].pid ==>
              k.tasks[j].ppid == k.tasks[p].pid
  {
    hide RecordsRight, TasksRight, CoresRight;
    forall j | 0 <= j < |k.tasks| && Live(k.tasks[j]) && k.tasks[j].pid == k.tasks[i].pid
      ensures k.tasks[j].ppid == k.tasks[p].pid
    {
      assert SamePid(k.tasks[i], k.tasks[j]);
    }
  }

  /** Becoming a zombie takes no live, unrecorded child from a sleeping parent. */
  lemma DieBooks(k: Kernel, c: nat)
    requires Books(k) && Safe(k) && Legal(k, Die(c))
    ensures Books(Step(k, Die(c)).0)
  {
    hide RecordsRight;
    RunningTask(k, c);
    var i := k.cores[c].current;
    var y := k.tasks[i].(state := Zombie);
    var w := k.cores[c].(reap := i, phase := Scheduling);
    var ts, cs := k.tasks[i := y], k.cores[c := w];
    assert LeavesRight(k.cores[c], k.tasks, k.exits);
    forall j | 0 <= j < |ts|
      ensures PidOk(ts[j], k.nextPid) && OnWayOut(ts[j], j, cs, k.exits)
      ensures SleepsRight(ts[j], j, ts, k.exits, k.harvested)
    {
      assert PidOk(k.tasks[j], k.nextPid) && OnWayOut(k.tasks[j], j, k.cores, k.exits);
      assert SleepsRight(k.tasks[j], j, k.tasks, k.exits, k.harvested);
      if k.tasks[j].state.Blocked? && k.tasks[j].waitFor != 0 && k.tasks[j].waitFor !in k.harvested {
        var u :| 0 <= u < |k.tasks| && IsLiveChild(k.tasks[u], k.tasks[j].waitFor, k.tasks[j].pid);
        assert u != i;
        assert IsLiveChild(ts[u], k.tasks[j].waitFor, k.tasks[j].pid);
      }
    }
    forall d | 0 <= d < |cs|
      ensures LeavesRight(cs[d], ts, k.exits)
    {
      assert LeavesRight(k.cores[d], k.tasks, k.exits);
      CoreAt(k, d);
    }
    QuietishPids(k.tasks, i, y);
  }

  lemma QuietishPids(tasks: seq<Tcb>, i: int, y: Tcb)
    requires PidsApart(tasks) && 0 <= i < |tasks| && !tasks[i].state.Unused? && y.pid == tasks[i].pid
    ensures PidsApart(tasks[i := y])
  {
  }

  // ----- Waiting -----

  lemma Harvest(recs: seq<Record>, exits: map<nat, Exited>, harvested: set<nat>, nextPid: nat, r: int)
    requires RecordsRight(recs, exits, harvested, nextPid) && 0 <= r < |recs| && recs[r].used
    ensures RecordsRight(recs[r := recs[r].(used := false)], exits, harvested + {recs[r].pid}, nextPid)
    ensures recs[r].pid in exits && recs[r].pid !in harvested
         && exits[recs[r].pid] == Exited(recs[r].ppid, recs[r].code)
    ensures 0 <= recs[r].code < 0x100
  {
    var rs := recs[r := recs[r].(used := false)];
    assert RecordRight(recs[r], exits, harvested);
    forall s | 0 <= s < |rs|
      ensures RecordRight(rs[s], exits, harvested + {recs[r].pid})
    {
      assert RecordRight(recs[s], exits, harvested);
    }
    forall p | p in exits && p !in harvested + {recs[r].pid}
      ensures Kept(rs, p)
    {
      assert Kept(recs, p);
      var s :| 0 <= s < |recs| && recs[s].used && recs[s].pid == p;
      assert rs[s] == recs[s];
    }
  }

  /** The task's own bookkeeping when a wait returns. */
  lemma WaitReturns(k: Kernel, i: int, recs: seq<Record>, harvested: set<nat>)
    requires Books(k) && 0 <= i < |k.tasks| && k.tasks[i].state.Running?
    requires k.harvested <= harvested && RecordsRight(recs, k.exits, harvested, k.nextPid)
    ensures Books(SetTask(k, i, k.tasks[i].(waitFor := 0)).(recs := recs, harvested := harvested))
  {
    var y := k.tasks[i].(waitFor := 0);
    QuietKeeps(k, i, y);
    hide RecordsRight;
    var ts := k.tasks[i := y];
    forall j | 0 <= j < |ts|
      ensures SleepsRight(ts[j], j, ts, k.exits, harvested)
    {
      assert SleepsRight(SetTask(k, i, y).tasks[j], j, ts, k.exits, k.harvested);
    }
  }

  /** If a first wait finds no record but a live child, that child has not recorded
      its exit yet. */
  lemma UnrecordedChild(k: Kernel, i: int, target: nat)
    requires Books(k) && 0 <= i < |k.tasks| && target !in k.harvested
    requires FindRecord(k.recs, target, k.tasks[i].pid, 0) < 0 && HasChild(k.tasks, target, k.tasks[i].pid)
    ensures target !in k.exits
  {
    hide RecordsRight, TasksRight, CoresRight, PidsApart;
    if target in k.exits {
      var u :| 0 <= u < |k.tasks| && IsLiveChild(k.tasks[u], target, k.tasks[i].pid);
      var s := RecordFor(k, target);
      RecordedParent(k, u);
    }
  }

  lemma RecordFor(k: Kernel, target: nat) returns (s: int)
    requires Books(k) && target in k.exits && target !in k.harvested
    ensures 0 <= s < |k.recs| && k.recs[s].used && k.recs[s].pid == target && k.recs[s].ppid == k.exits[target].ppid
  {
    assert Kept(k.recs, target);
    s :| 0 <= s < |k.recs| && k.recs[s].used && k.recs[s].pid == target;
    assert RecordRight(k.recs[s], k.exits, k.harvested);
  }

  lemma RecordedParent(k: Kernel, u: int)
    requires Books(k) && 0 <= u < |k.tasks| && Live(k.tasks[u]) && k.tasks[u].pid in k.exits
    ensures k.exits[k.tasks[u].pid].ppid == k.tasks[u].ppid
  {
    hide RecordsRight;
    assert OnWayOut(k.tasks[u], u, k.cores, k.exits);
  }

  /** Going to sleep for a child. */
  lemma SleepBooks(k: Kernel, c: nat, i: int, target: nat)
    requires Books(k) && 0 <= i < |k.tasks| && k.tasks[i].state.Running? && target != 0
    requires HasChild(k.tasks, target, k.tasks[i].pid) && (target !in k.harvested ==> target !in k.exits)
    ensures Books(SetTask(k, i, k.tasks[i].(state := Blocked, obj := OnTask(i), waitFor := target)))
  {
    hide RecordsRight;
    var y := k.tasks[i].(state := Blocked, obj := OnTask(i), waitFor := target);
    var ts := k.tasks[i := y];
    forall j | 0 <= j < |ts|
      ensures PidOk(ts[j], k.nextPid) && OnWayOut(ts[j], j, k.cores, k.exits)
      ensures SleepsRight(ts[j], j, ts, k.exits, k.harvested)
    {
      assert PidOk(k.tasks[j], k.nextPid) && OnWayOut(k.tasks[j], j, k.cores, k.exits);
      assert SleepsRight(k.tasks[j], j, k.tasks, k.exits, k.harvested);
      SameChild(k.tasks, i, y, ts[j].waitFor, ts[j].pid);
    }
    forall d | 0 <= d < |k.cores|
      ensures LeavesRight(k.cores[d], ts, k.exits)
    {
      assert LeavesRight(k.cores[d], k.tasks, k.exits);
    }
    QuietishPids(k.tasks, i, y);
  }

  lemma SameChild(tasks: seq<Tcb>, i: int, y: Tcb, target: nat, parent: nat)
    requires 0 <= i < |tasks| && Live(tasks[i]) && Live(y)
    requires y.pid == tasks[i].pid && y.ppid == tasks[i].ppid && y.user == tasks[i].user
    ensures HasChild(tasks, target, parent) ==> HasChild(tasks[i := y], target, parent)
  {
    if HasChild(tasks, target, parent) {
      var j :| 0 <= j < |tasks| && IsLiveChild(tasks[j], target, parent);
      assert IsLiveChild(tasks[i := y][j], target, parent);
    }
  }

  lemma WaitBooks(k: Kernel, c: nat, target: nat)
    requires Books(k) && Safe(k) && Works(k, c) && target != 0
    ensures Books(WaitLoop(k, c, k.cores[c].current, target).0)
  {
    hide Safe;
    var i := k.cores[c].current;
    RunningTask(k, c);
    var r := FindRecord(k.recs, target, k.tasks[i].pid, 0);
    if r >= 0 {
      Harvest(k.recs, k.exits, k.harvested, k.nextPid, r);
      WaitReturns(k, i, k.recs[r := k.recs[r].(used := false)], k.harvested + {target});
    } else if !ChildAlive(k.tasks, target, k.tasks[i].pid) {
      WaitReturns(k, i, k.recs, k.harvested);
    } else {
      if target !in k.harvested {
        UnrecordedChild(k, i, target);
      }
      SleepBooks(k, c, i, target);
      hide Books;
      CoreKeeps(SetTask(k, i, k.tasks[i].(state := Blocked, obj := OnTask(i), waitFor := target)), c,
                k.cores[c].(phase := Scheduling));
    }
  }

  // ----- Every step, every run -----

  lemma StepBooks(k: Kernel, e: Event)
    requires Books(k) && Safe(k) && Legal(k, e) && RoomFor(k, e)
    ensures Books(Step(k, e).0)
  {
    hide Books, Safe, Reap, RecordExit, WakeOne, PickNext, SwitchTo, Enter, WaitLoop, Create;
    match e {
      case CreateTask(owner, prio, admit) => CreateBooks(k, owner, prio, admit);
      case Configure(s, ppid) => ConfigureBooks(k, s, ppid);
      case Admit(s) => QuietKeeps(k, s, k.tasks[s].(state := Ready));
      case Start(c) => EnterBooks(k, c);
      case Yield(c) => CoreKeeps(k, c, k.cores[c].(phase := Scheduling));
      case BlockOn(c, id) =>
        var i := k.cores[c].current;
        RunningTask(k, c);
        QuietKeeps(k, i, k.tasks[i].(state := Blocked, obj := OnIpc(id)));
        CoreKeeps(SetTask(k, i, k.tasks[i].(state := Blocked, obj := OnIpc(id))), c, k.cores[c].(phase := Scheduling));
      case Sleep(c) =>
        var i := k.cores[c].current;
        RunningTask(k, c);
        QuietKeeps(k, i, k.tasks[i].(state := Sleeping));
        CoreKeeps(SetTask(k, i, k.tasks[i].(state := Sleeping)), c, k.cores[c].(phase := Scheduling));
      case WaitPid(c, target) => WaitBooks(k, c, target);
      case Recheck(c) => WaitBooks(k, c, k.tasks[k.cores[c].current].waitFor);
      case Exit(c, code) => ExitBooks(k, c, code);
      case Die(c) => DieBooks(k, c);
      case DoReap(c) =>
        ReapBooks(k, c);
        ReapKeeps(k, c);
        CoreKeeps(Reap(k, c), c, Reap(k, c).cores[c].(phase := Reaped));
      case Pick(c) => CoreKeeps(k, c, k.cores[c].(phase := Picked(PickNext(k.tasks, c, k.cores[c].current))));
      case Switch(c) => SwitchBooks(k, c);
      case Wake(obj) => WakeBooks(k, obj);
      case TimerWake(s) => QuietKeeps(k, s, k.tasks[s].(state := Ready, obj := Nothing));
      case Boost(s, prio) => QuietKeeps(k, s, k.tasks[s].(prio := prio));
      case Kill(s) => KillBooks(k, s);
    }
  }

  lemma KillBooks(k: Kernel, s: nat)
    requires Books(k) && Legal(k, Kill(s))
    ensures Books(Step(k, Kill(s)).0)
  {
    hide Books;
    var x := k.tasks[s].(kill := true);
    QuietKeeps(k, s, if x.state.Sleeping? || x.state.Blocked? then x.(state := Ready, obj := Nothing) else x);
  }

  lemma EnterBooks(k: Kernel, c: nat)
    requires Books(k) && Legal(k, Start(c))
    ensures Books(Enter(k, c))
  {
    hide Books;
    var f := FirstReady(k.tasks, c, |k.tasks|);
    if f >= 0 {
      QuietKeeps(k, f, k.tasks[f].(state := Running));
      CoreKeeps(SetTask(k, f, k.tasks[f].(state := Running)), c, Core(true, f, k.cores[c].reap, InTask));
    }
  }

  lemma InitialBooks(k: Kernel)
    requires Initial(k)
    ensures Books(k)
  {
    assert PidsApart(k.tasks);
  }

  ghost predicate AlwaysRoom(k: Kernel, events: seq<Event>) {
    forall n :: 0 <= n < |events| ==> RoomFor(Run(k, events[..n]), events[n])
  }

  lemma {:induction false} RunBooks(k: Kernel, events: seq<Event>)
    requires Initial(k) && AlwaysRoom(k, events)
    ensures Books(Run(k, events)) && Safe(Run(k, events))
    decreases |events|
  {
    hide Safe, Books, Step, Legal, RoomFor;
    RunSafe(k, events);
    if events == [] {
      InitialBooks(k);
    } else {
      var init := events[..|events| - 1];
      forall n | 0 <= n < |init|
        ensures RoomFor(Run(k, init[..n]), init[n])
      {
        assert init[..n] == events[..n] && init[n] == events[n];
      }
      RunBooks(k, init);
      var l, e := Run(k, init), events[|events| - 1];
      assert events[..|events| - 1] == init && RoomFor(l, e);
      if Legal(l, e) {
        StepBooks(l, e);
      }
    }
  }

  // ----- What it says -----

  /** The recorded code is the exit code masked to eight bits, if the parent lives. */
  lemma ExitIsRecorded(k: Kernel, c: nat, code: int)
    requires Books(k) && Safe(k) && Legal(k, Exit(c, code)) && RoomFor(k, Exit(c, code))
    ensures var x, q := k.tasks[k.cores[c].current], Step(k, Exit(c, code)).0;
            x.user && x.ppid != 0 && !NobodyIs(k.tasks, x.ppid) ==>
              x.pid in q.exits && q.exits[x.pid] == Exited(x.ppid, code % 0x100) && x.pid !in q.harvested
  {
    hide Safe, Reap, WakeOne, RecordExit, Books;
    var i := k.cores[c].current;
    RunningTask(k, c);
    ReapKeeps(k, c);
    ReapBooks(k, c);
    var r := Reap(k, c);
    ReapFrame(k, c);
    RecordIs(r, i, code);
    NotYetRecorded(r, i);
    HarvestedRecorded(r, r.tasks[i].pid);
    var p := LiveByPid(r.tasks, r.tasks[i].ppid, 0);
    if p >= 0 {
      WakeFrame(r, OnTask(p), i);
    }
    if p < 0 {
      forall j | 0 <= j < |k.tasks| && Live(k.tasks[j])
        ensures k.tasks[j].pid != k.tasks[i].ppid
      {
        StaysLive(k, c, j);
      }
    }
  }

  lemma StaysLive(k: Kernel, c: nat, j: int)
    requires Safe(k) && c < |k.cores| && 0 <= j < |k.tasks| && Live(k.tasks[j])
    ensures |Reap(k, c).tasks| == |k.tasks| && Reap(k, c).tasks[j] == k.tasks[j]
  {
    CoreAt(k, c);
  }

  /** A parent's first wait for a child: the exact code at once if the exit is
      recorded, sleep if the child is alive and has not recorded it; a code is only
      ever returned for a record not collected before. */
  lemma FirstWait(k: Kernel, c: nat, target: nat)
    requires Books(k) && Safe(k) && Works(k, c)
    ensures var me, r := k.tasks[k.cores[c].current], WaitLoop(k, c, k.cores[c].current, target);
            && (target !in k.harvested && target in k.exits && k.exits[target].ppid == me.pid ==>
                  r.1 == Returned(k.exits[target].code) && 0 <= k.exits[target].code < 0x100 && target in r.0.harvested)
            && (target !in k.exits && HasChild(k.tasks, target, me.pid) ==> r.1 == Pending)
            && (r.1.Returned? && r.1.value >= 0 ==> target in k.exits && target !in k.harvested)
  {
    hide Safe;
    var i := k.cores[c].current;
    RunningTask(k, c);
    var me := k.tasks[i];
    var f := FindRecord(k.recs, target, me.pid, 0);
    if f >= 0 {
      Harvest(k.recs, k.exits, k.harvested, k.nextPid, f);
    }
    if target !in k.harvested && target in k.exits && k.exits[target].ppid == me.pid {
      assert Kept(k.recs, target);
      var s :| 0 <= s < |k.recs| && k.recs[s].used && k.recs[s].pid == target;
      assert RecordRight(k.recs[s], k.exits, k.harvested);
    }
  }

  predicate SleepsFor(x: Tcb) {
    x.state.Blocked? && x.waitFor != 0
  }

  /** In every reachable state with room for records: whoever sleeps in
      sched_wait_pid for a child whose exit is recorded has already collected that
      record, so no first wait sleeps through the exit. */
  lemma NoFirstWaitSleepsThrough(k: Kernel, events: seq<Event>)
    requires Initial(k) && AlwaysRoom(k, events)
    ensures var r := Run(k, events);
            forall i :: 0 <= i < |r.tasks| && SleepsFor(r.tasks[i]) && r.tasks[i].waitFor in r.exits ==>
                          r.tasks[i].waitFor in r.harvested
  {
    hide Run, Safe, Initial, AlwaysRoom;
    RunBooks(k, events);
    var r := Run(k, events);
    hide RecordsRight, CoresRight;
    forall i | 0 <= i < |r.tasks| && SleepsFor(r.tasks[i]) && r.tasks[i].waitFor in r.exits
      ensures r.tasks[i].waitFor in r.harvested
    {
      assert SleepsRight(r.tasks[i], i, r.tasks, r.exits, r.harvested);
    }
  }

  /** Waiting for a child whose exit is already recorded: the caller goes to sleep
      exactly if the record has been collected and the child is not a zombie yet. */
  lemma SleepsExactlyIf(k: Kernel, c: nat, target: nat)
    requires Books(k) && Safe(k) && Works(k, c)
    requires target in k.exits && k.exits[target].ppid == k.tasks[k.cores[c].current].pid
    ensures WaitLoop(k, c, k.cores[c].current, target).1.Pending? <==>
              target in k.harvested && HasChild(k.tasks, target, k.tasks[k.cores[c].current].pid)
  {
    hide Safe;
    var i := k.cores[c].current;
    RunningTask(k, c);
    var me := k.tasks[i];
    var f := FindRecord(k.recs, target, me.pid, 0);
    if f >= 0 {
      Harvest(k.recs, k.exits, k.harvested, k.nextPid, f);
    }
    if target !in k.harvested {
      assert Kept(k.recs, target);
      var s :| 0 <= s < |k.recs| && k.recs[s].used && k.recs[s].pid == target;
      assert RecordRight(k.recs[s], k.exits, k.harvested);
    }
  }
}
