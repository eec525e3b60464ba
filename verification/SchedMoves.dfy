/** What the steps of kernel/sched.c do to a task, and when: which event may take a task
    from one state to another, and what each of them leaves alone. */
module SchedMoves {
  import opened Sched
  import opened SchedInv

  // ----- The switch -----

  /** Every other slot and every other core is as it was. */
  ghost predicate OnlyThese(k: Kernel, r: Kernel, c: nat, i: int, j: int) {
    && |r.tasks| == |k.tasks| && |r.cores| == |k.cores|
    && (forall u :: 0 <= u < |k.tasks| && u != i && u != j ==> r.tasks[u] == k.tasks[u])
    && (forall d :: 0 <= d < |k.cores| && d != c ==> r.cores[d] == k.cores[d])
  }

  /** The end of schedule(): the chosen task runs; the one switched away from is ready if
      it was running, and else as it was; nobody else changes. */
  lemma SwitchMoves(k: Kernel, c: nat)
    requires Legal(k, Switch(c))
    ensures var r, cur, next := Step(k, Switch(c)).0, k.cores[c].current, k.cores[c].phase.next;
            && OnlyThese(k, r, c, cur, next)
            && r.cores[c].current == next && r.cores[c].phase.InTask?
            && r.tasks[next] == k.tasks[next].(state := Running)
            && (cur != next && k.tasks[cur].state.Running? ==> r.tasks[cur] == k.tasks[cur].(state := Ready))
            && (cur != next && !k.tasks[cur].state.Running? ==> r.tasks[cur] == k.tasks[cur])
  {
  }

  // ----- Reaping, waking, creating, starting, killing -----

  /** A slot waiting to be reaped is free afterwards, once its task runs no more. */
  lemma ReapFrees(k: Kernel, c: nat)
    requires Safe(k) && Legal(k, DoReap(c)) && 0 <= k.cores[c].reap != k.cores[c].current
    ensures var r, i := Step(k, DoReap(c)).0, k.cores[c].reap;
            OnlyThese(k, r, c, i, i) && r.tasks[i] == k.tasks[i].(state := Unused) && r.cores[c].reap == -1
  {
    CoreAt(k, c);
  }

  predicate WaitsFor(x: Tcb, obj: WaitObj) {
    x.state.Blocked? && x.obj == obj
  }

  /** A wake-up makes exactly one sleeper ready, the most urgent and among these the first;
      without a sleeper it does nothing. */
  lemma WakesBest(k: Kernel, obj: WaitObj)
    requires Safe(k)
    ensures (forall i :: 0 <= i < |k.tasks| ==> !WaitsFor(k.tasks[i], obj)) ==> WakeOne(k, obj) == k
    ensures forall i :: 0 <= i < |k.tasks| && WaitsFor(k.tasks[i], obj) ==>
              exists b :: 0 <= b < |k.tasks| && Woken(k, WakeOne(k, obj), obj, b)
  {
    var b := BestBlocked(k.tasks, obj, |k.tasks|);
    forall i | 0 <= i < |k.tasks| && WaitsFor(k.tasks[i], obj)
      ensures exists b :: 0 <= b < |k.tasks| && Woken(k, WakeOne(k, obj), obj, b)
    {
      TaskAt(k, i);
      assert Woken(k, WakeOne(k, obj), obj, b);
    }
  }

  ghost predicate Woken(k: Kernel, r: Kernel, obj: WaitObj, b: int)
    requires 0 <= b < |k.tasks|
  {
    && r.(tasks := k.tasks) == k && |r.tasks| == |k.tasks|
    && WaitsFor(k.tasks[b], obj) && r.tasks[b] == k.tasks[b].(state := Ready, obj := Nothing)
    && (forall i :: 0 <= i < |k.tasks| && i != b ==> r.tasks[i] == k.tasks[i])
    && (forall i :: 0 <= i < |k.tasks| && WaitsFor(k.tasks[i], obj) ==> k.tasks[b].prio <= k.tasks[i].prio)
    && (forall i :: 0 <= i < b && WaitsFor(k.tasks[i], obj) ==> k.tasks[b].prio < k.tasks[i].prio)
  }

  // ----- Which event takes a task where -----

  /** The task in slot `i` stops of its own accord: it sleeps, blocks, waits for a child or
      dies, as the current task of its core. */
  predicate Stops(k: Kernel, e: Event, i: nat) {
    match e
    case Sleep(c) => c < |k.cores| && k.cores[c].current == i
    case BlockOn(c, _) => c < |k.cores| && k.cores[c].current == i
    case WaitPid(c, _) => c < |k.cores| && k.cores[c].current == i
    case Recheck(c) => c < |k.cores| && k.cores[c].current == i
    case Die(c) => c < |k.cores| && k.cores[c].current == i
    case _ => false
  }

  /** Only its own core's choice makes a ready task run; a running one is only preempted by
      a switch of its core, or stops; a sleeper only becomes ready, by a wake-up, its timer
      or a kill; a zombie is only freed by its core. */
  predicate Moves(k: Kernel, e: Event, i: nat, x: Tcb, y: Tcb) {
    match x.state
    case Unused => y.state.Unused? || (e.CreateTask? && if e.admit then y.state.Ready? else y.state.Setup?)
    case Setup => y.state.Setup? || (y.state.Ready? && e == Admit(i))
    case Ready => y.state.Ready? || (y.state.Running? && (e == Switch(x.owner) || e == Start(x.owner)))
    case Running =>
      y.state.Running? || (y.state.Ready? && e == Switch(x.owner))
      || (Stops(k, e, i)
          && if e.Sleep? then y.state.Sleeping? else if e.Die? then y.state.Zombie? else y.state.Blocked?)
    case Sleeping => y.state.Sleeping? || (y.state.Ready? && (e == TimerWake(i) || e == Kill(i)))
    case Blocked =>
      (y.state.Blocked? && y.obj == x.obj)
      || (y.state.Ready? && (e == Wake(x.obj) || e == TimerWake(i) || e == Kill(i) || (e.Exit? && x.obj.OnTask?)))
    case Zombie => y.state.Zombie? || (y.state.Unused? && (e == DoReap(x.owner) || (e.Exit? && e.c == x.owner)))
  }

  /** Who a task is stays, and its priority but for a boost. */
  predicate SameTask(e: Event, i: nat, x: Tcb, y: Tcb) {
    !x.state.Unused? || y.state.Unused? ==>
      && y.pid == x.pid && y.owner == x.owner && (y.prio == x.prio || (e.Boost? && e.slot == i && y.prio == e.prio))
      && (e != Configure(i, y.ppid) ==> y.ppid == x.ppid && y.user == x.user)
  }

  ghost predicate Moved(k: Kernel, e: Event, r: Kernel, i: nat)
    requires i < |k.tasks| && |r.tasks| == |k.tasks|
  {
    Moves(k, e, i, k.tasks[i], r.tasks[i]) && SameTask(e, i, k.tasks[i], r.tasks[i])
  }

  lemma WakeMoves(k: Kernel, e: Event, obj: WaitObj, i: nat)
    requires i < |k.tasks| && (e == Wake(obj) || (e.Exit? && obj.OnTask?))
    ensures |WakeOne(k, obj).tasks| == |k.tasks| && Moved(k, e, WakeOne(k, obj), i)
  {
  }

  lemma ReapMoves(k: Kernel, e: Event, c: nat, i: nat)
    requires Safe(k) && c < |k.cores| && i < |k.tasks| && (e == DoReap(c) || (e.Exit? && e.c == c))
    ensures |Reap(k, c).tasks| == |k.tasks| && Moved(k, e, Reap(k, c), i)
  {
    CoreAt(k, c);
  }

  lemma RecordMoves(k: Kernel, e: Event, j: int, code: int, i: nat)
    requires i < |k.tasks| && 0 <= j < |k.tasks| && |k.recs| > 0 && e.Exit?
    ensures |RecordExit(k, j, code).tasks| == |k.tasks| && Moved(k, e, RecordExit(k, j, code), i)
  {
    hide WakeOne, LiveByPid;
    var x := k.tasks[j];
    if x.user && x.ppid != 0 && LiveByPid(k.tasks, x.ppid, 0) >= 0 {
      PutFrame(k, x.pid, x.ppid, code % 0x100);
      WakeMoves(PutRecord(k, x.pid, x.ppid, code % 0x100), e, OnTask(LiveByPid(k.tasks, x.ppid, 0)), i);
    }
  }

  lemma WaitMoves(k: Kernel, e: Event, c: nat, target: nat, i: nat)
    requires Safe(k) && Works(k, c) && i < |k.tasks| && (e == WaitPid(c, target) || e == Recheck(c))
    ensures var r := WaitLoop(k, c, k.cores[c].current, target).0;
            |r.tasks| == |k.tasks| && Moved(k, e, r, i)
  {
    hide FindRecord, ChildAlive;
    RunningTask(k, c);
  }

  lemma SwitchedMoves(k: Kernel, c: nat, i: nat)
    requires Safe(k) && Legal(k, Switch(c)) && i < |k.tasks|
    ensures |SwitchTo(k, c).tasks| == |k.tasks| && Moved(k, Switch(c), SwitchTo(k, c), i)
  {
    CoreAt(k, c);
  }

  lemma EnterMoves(k: Kernel, c: nat, i: nat)
    requires c < |k.cores| && i < |k.tasks|
    ensures |Enter(k, c).tasks| == |k.tasks| && Moved(k, Start(c), Enter(k, c), i)
  {
  }

  lemma StopMoves(k: Kernel, e: Event, i: nat)
    requires Safe(k) && Legal(k, e) && i < |k.tasks| && (e.Sleep? || e.BlockOn? || e.Die?)
    ensures |Step(k, e).0.tasks| == |k.tasks| && Moved(k, e, Step(k, e).0, i)
  {
    RunningTask(k, e.c);
  }

  lemma ExitMoves(k: Kernel, c: nat, code: int, i: nat)
    requires Safe(k) && Legal(k, Exit(c, code)) && i < |k.tasks|
    ensures |Step(k, Exit(c, code)).0.tasks| == |k.tasks| && Moved(k, Exit(c, code), Step(k, Exit(c, code)).0, i)
  {
    hide Safe, Reap, RecordExit;
    var e, j := Exit(c, code), k.cores[c].current;
    ReapMoves(k, e, c, i);
    ExitReaps(k, c, code);
    RecordMoves(Reap(k, c), e, j, code, i);
    BothMoves(k, e, Reap(k, c), RecordExit(Reap(k, c), j, code), i);
  }

  lemma ExitReaps(k: Kernel, c: nat, code: int)
    requires Legal(k, Exit(c, code))
    ensures |Reap(k, c).recs| > 0
  {
  }

  lemma BothMoves(k: Kernel, e: Event, q: Kernel, r: Kernel, i: nat)
    requires i < |k.tasks| == |q.tasks| == |r.tasks| && e.Exit?
    requires Moved(k, e, q, i) && Moved(q, e, r, i)
    ensures Moved(k, e, r, i)
  {
  }

  /** Every step of every core moves a task only along these ways. */
  lemma TaskMoves(k: Kernel, e: Event, i: nat)
    requires Safe(k) && Legal(k, e) && i < |k.tasks|
    ensures |Step(k, e).0.tasks| == |k.tasks| && Moved(k, e, Step(k, e).0, i)
  {
    hide Safe, Reap, RecordExit, WakeOne, PickNext, SwitchTo, Enter, WaitLoop;
    match e {
      case WaitPid(c, target) => WaitMoves(k, e, c, target, i);
      case Recheck(c) => WaitMoves(k, e, c, k.tasks[k.cores[c].current].waitFor, i);
      case Exit(c, code) => ExitMoves(k, c, code, i);
      case DoReap(c) => ReapMoves(k, e, c, i);
      case Switch(c) => SwitchedMoves(k, c, i);
      case Start(c) => EnterMoves(k, c, i);
      case Wake(obj) =>
        if obj.OnIpc? {
          WakeMoves(k, e, obj, i);
        }
      case Sleep(c) => StopMoves(k, e, i);
      case BlockOn(c, _) => StopMoves(k, e, i);
      case Die(c) => StopMoves(k, e, i);
      case CreateTask(_, _, _) =>
      case Configure(_, _) =>
      case Admit(_) =>
      case Yield(_) =>
      case Pick(_) =>
      case TimerWake(_) =>
      case Boost(_, _) =>
      case Kill(_) =>
    }
  }

  // ----- Events do what they are for -----

  /** A new task takes a free slot, if there is one, and a pid no task has had. */
  lemma Creates(k: Kernel, owner: nat, prio: nat, admit: bool, free: nat)
    requires owner < |k.cores| && free < |k.tasks| && k.tasks[free].state.Unused?
    ensures var r := Create(k, owner, prio, admit);
            && r.nextPid == k.nextPid + 1 && r.cores == k.cores
            && exists s :: 0 <= s <= free && k.tasks[s].state.Unused? && OnlyThese(k, r, owner, s, s)
                           && IsNew(r.tasks[s], k.nextPid, owner, prio, admit)
  {
    FirstFree(k.tasks, 0, free);
    var s := FreeSlot(k.tasks, 0);
    assert IsNew(Create(k, owner, prio, admit).tasks[s], k.nextPid, owner, prio, admit);
  }

  predicate IsNew(x: Tcb, pid: nat, owner: nat, prio: nat, admit: bool) {
    && x.pid == pid && x.owner == owner && x.prio == prio && x.ppid == 0 && !x.user && !x.kill && x.waitFor == 0
    && if admit then x.state.Ready? else x.state.Setup?
  }

  lemma {:induction false} FirstFree(tasks: seq<Tcb>, i: nat, free: nat)
    requires i <= free < |tasks| && tasks[free].state.Unused?
    ensures i <= FreeSlot(tasks, i) <= free
    decreases free - i
  {
    if !tasks[i].state.Unused? {
      FirstFree(tasks, i + 1, free);
    }
  }

  /** A core starts with a most urgent ready task of its own. */
  lemma StartsBest(k: Kernel, c: nat)
    requires Safe(k) && Legal(k, Start(c))
    ensures var r := Step(k, Start(c)).0;
            && |r.cores| == |k.cores| && |r.tasks| == |k.tasks| && r.cores[c].started
            && 0 <= r.cores[c].current < |k.tasks|
            && k.tasks[r.cores[c].current].owner == c && r.tasks[r.cores[c].current].state.Running?
            && forall i :: 0 <= i < |k.tasks| && k.tasks[i].owner == c && k.tasks[i].state.Ready? ==>
                 k.tasks[r.cores[c].current].prio <= k.tasks[i].prio
  {
    CoreAt(k, c);
    TaskAt(k, k.idle[c]);
  }

  /** The state in which an event leaves the task it is about. */
  predicate Acted(e: Event, x: Tcb) {
    match e
    case Sleep(_) => x.state.Sleeping?
    case BlockOn(_, id) => x.state.Blocked? && x.obj == OnIpc(id)
    case Die(_) => x.state.Zombie?
    case Admit(_) => x.state.Ready?
    case TimerWake(_) => x.state.Ready? && x.obj.Nothing?
    case Kill(_) => x.kill && !x.state.Sleeping? && !x.state.Blocked?
    case Boost(_, prio) => x.prio == prio
    case Configure(_, ppid) => x.user && x.ppid == ppid
    case _ => true
  }

  /** The task an event is about. */
  function Subject(k: Kernel, e: Event): int
    requires Legal(k, e)
  {
    match e
    case Sleep(c) => k.cores[c].current
    case BlockOn(c, _) => k.cores[c].current
    case Die(c) => k.cores[c].current
    case Admit(s) => s
    case TimerWake(s) => s
    case Kill(s) => s
    case Boost(s, _) => s
    case Configure(s, _) => s
    case _ => -1
  }

  /** ... and it changes nobody else. */
  lemma EventActs(k: Kernel, e: Event)
    requires Legal(k, e) && Subject(k, e) >= 0
    ensures var r, s := Step(k, e).0, Subject(k, e);
            && s < |k.tasks| == |r.tasks| && Acted(e, r.tasks[s])
            && forall i :: 0 <= i < |k.tasks| && i != s ==> r.tasks[i] == k.tasks[i]
  {
    hide Reap, RecordExit, WakeOne, PickNext, SwitchTo, Enter, WaitLoop, LiveByPid;
  }

  /** A core goes from its task's code over reaping and choosing to the switch, and no event
      of another core moves it. */
  lemma PhasesGo(k: Kernel, e: Event, c: nat)
    requires Safe(k) && Legal(k, e) && c < |k.cores|
    ensures var w, v := k.cores[c], Step(k, e).0.cores;
            && c < |v|
            && (e == Yield(c) || e == Sleep(c) || (e.BlockOn? && e.c == c) || e == Die(c) ==> v[c].phase.Scheduling?)
            && (e == DoReap(c) ==> v[c].phase.Reaped?)
            && (e == Pick(c) ==> v[c].phase == Picked(PickNext(k.tasks, c, w.current)))
            && (e == Switch(c) ==> v[c].phase.InTask?)
            && (e.Exit? && e.c == c ==> v[c].phase.Exiting?)
            && (!OfCore(e, c) ==> v[c] == w)
  {
    hide Safe, PickNext, BestBlocked, FreeSlot, PutRecord, LiveByPid, FindRecord, FirstReady, ChildAlive;
  }

  /** An event of this core. */
  predicate OfCore(e: Event, c: nat) {
    match e
    case Start(d) => d == c
    case Yield(d) => d == c
    case BlockOn(d, _) => d == c
    case Sleep(d) => d == c
    case WaitPid(d, _) => d == c
    case Recheck(d) => d == c
    case Exit(d, _) => d == c
    case Die(d) => d == c
    case DoReap(d) => d == c
    case Pick(d) => d == c
    case Switch(d) => d == c
    case _ => false
  }

  // ----- Runs -----

  predicate Runnable(x: Tcb) {
    x.state.Ready? || x.state.Running?
  }

  /** Task `i` neither sleeps, blocks, waits for a child nor dies in the run. */
  ghost predicate NeverStops(k: Kernel, events: seq<Event>, i: nat) {
    forall m :: 0 <= m < |events| ==> !StopsAt(Run(k, events[..m]), events[m], i)
  }

  predicate StopsAt(k: Kernel, e: Event, i: nat) {
    Legal(k, e) && Stops(k, e, i)
  }

  /** A task that is ready or running stays so until it stops itself; nobody else can take
      it out of the round. */
  lemma {:induction false} StaysRunnable(k: Kernel, events: seq<Event>, i: nat)
    requires Safe(k) && i < |k.tasks| && Runnable(k.tasks[i]) && NeverStops(k, events, i)
    ensures var r := Run(k, events);
            && Safe(r) && |r.tasks| == |k.tasks| && Runnable(r.tasks[i])
            && r.tasks[i].owner == k.tasks[i].owner && r.tasks[i].pid == k.tasks[i].pid
    decreases |events|
  {
    hide Safe, Step, Legal, Stops;
    if events != [] {
      var n := |events| - 1;
      var front, e := events[..n], events[n];
      forall m | 0 <= m < n
        ensures !StopsAt(Run(k, front[..m]), front[m], i)
      {
        assert front[..m] == events[..m];
      }
      StaysRunnable(k, front, i);
      assert !StopsAt(Run(k, events[..n]), events[n], i);
      if Legal(Run(k, front), e) {
        TaskMoves(Run(k, front), e, i);
        StepSafe(Run(k, front), e);
      }
    }
  }
}
