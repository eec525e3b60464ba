/** When a wait of kernel/ipc.c gives up: over every run, only a call with a timeout, and
    only when as many ticks have passed since the call. */
module IpcTime {
  import opened Basics
  import opened Ipc
  import opened IpcInv
  import opened IpcRun

  /** A task woken by its deadline had one, and it has come. */
  predicate TimelyTask(x: Task, now: nat) {
    x.at.Waiting? && x.timedOut ==> x.at.deadline != 0 && now >= x.at.deadline
  }

  ghost predicate Timely(k: Kernel) {
    forall t :: 0 <= t < |k.tasks| ==> TimelyTask(k.tasks[t], k.now)
  }

  /** From one section to the next the task `x` has become `y`: it waits for what it waited
      for, or its call has begun or ended; or nothing about waiting has changed. */
  predicate WaitStep(e: Event, t: nat, now: nat, x: Task, y: Task) {
    y.at.Waiting? ==> y.at == x.at || (x.at.Outside? && Begins(e, t, now, y.at))
  }

  /** The call that began this wait, and the deadline it asked for. */
  predicate Begins(e: Event, t: nat, now: nat, at: Where)
    requires at.Waiting?
  {
    match e
    case SemWait(u, i, timeout) => u == t && at == Waiting(Sem(i), if timeout != 0 then now + timeout else 0)
    case Lock(u, i, timeout) => u == t && at == Waiting(Mtx(i), if timeout != 0 then now + timeout else 0)
    case _ => false
  }

  /** No task but `t` has begun or ended a wait, or been woken by its deadline. */
  ghost predicate OthersWait(k: Kernel, r: Kernel, t: int) {
    && |r.tasks| == |k.tasks| && r.now == k.now
    && forall u :: 0 <= u < |k.tasks| && u != t ==>
         r.tasks[u].at == k.tasks[u].at && (r.tasks[u].timedOut ==> k.tasks[u].timedOut)
  }

  lemma WakeWaits(k: Kernel, obj: Obj)
    ensures OthersWait(k, WakeOne(k, obj).0, -1)
  {
  }

  lemma PostWaits(k: Kernel, s: nat)
    requires s < |k.sems|
    ensures OthersWait(k, SemPost(k, s), -1)
  {
    hide WakeOne;
    var x := k.sems[s];
    WakeWaits(k.(sems := k.sems[s := x.(count := x.count + 1, posts := x.posts + 1)]), Sem(s));
  }

  lemma UnlockWaits(k: Kernel, t: nat, m: nat)
    requires t < |k.tasks| && m < |k.mtxs|
    ensures OthersWait(k, MutexUnlock(k, t, m), -1)
  {
    hide WakeOne;
    WakeWaits(SetTask(k, t, k.tasks[t].(prio := k.mtxs[m].orig, held := None)), Mtx(m));
  }

  lemma LockWaits(k: Kernel, t: nat, m: nat, deadline: nat)
    requires t < |k.tasks| && m < |k.mtxs|
    ensures var r := MutexLock(k, t, m, deadline);
            && OthersWait(k, r.0, t)
            && (r.0.tasks[t].at.Waiting? && r.0.tasks[t].at != k.tasks[t].at ==>
                  r.0.tasks[t].at == Waiting(Mtx(m), deadline))
            && (r.0.tasks[t].at.Waiting? ==> !r.0.tasks[t].timedOut || r.0.tasks[t] == k.tasks[t].(held := Some(m)))
  {
  }

  lemma SemWaits(k: Kernel, t: nat, s: nat, deadline: nat)
    requires t < |k.tasks| && s < |k.sems|
    ensures var r := SemLoop(k, t, s, deadline);
            && OthersWait(k, r.0, t)
            && (r.0.tasks[t].at.Waiting? ==> r.0.tasks[t].at == Waiting(Sem(s), deadline) && !r.0.tasks[t].timedOut)
  {
  }

  lemma RecheckWaits(k: Kernel, t: nat)
    requires Legal(k, Resume(t))
    ensures var r := Recheck(k, t);
            && OthersWait(k, r.0, t)
            && (r.0.tasks[t].at.Waiting? ==>
                  r.0.tasks[t].at == k.tasks[t].at && (r.0.tasks[t].timedOut ==> k.tasks[t].timedOut))
  {
    hide Expired;
  }

  lemma Waits(k: Kernel, e: Event, t: nat)
    requires Legal(k, e) && Timely(k) && t < |k.tasks|
    ensures var r := Step(k, e).0;
            && |r.tasks| == |k.tasks| && r.now >= k.now
            && WaitStep(e, t, k.now, k.tasks[t], r.tasks[t]) && TimelyTask(r.tasks[t], r.now)
  {
    hide SemLoop, MutexLock, MutexUnlock, SemPost, Recheck, Timely;
    assert TimelyTask(k.tasks[t], k.now) by { TimelyAt(k, t); }
    match e {
      case SemWait(u, i, timeout) => SemWaits(k, u, i, Deadline(k.now, timeout));
      case Post(i) => PostWaits(k, i);
      case Lock(u, i, timeout) => LockWaits(k, u, i, Deadline(k.now, timeout));
      case Unlock(u, i) => UnlockWaits(k, u, i);
      case Resume(u) => RecheckWaits(k, u);
      case Timeout(u) =>
      case Kill(u) =>
      case Advance(n) =>
    }
  }

  lemma TimelyAt(k: Kernel, t: nat)
    requires Timely(k) && t < |k.tasks|
    ensures TimelyTask(k.tasks[t], k.now)
  {
  }

  lemma StepTimely(k: Kernel, e: Event)
    requires Legal(k, e) && Timely(k)
    ensures Timely(Step(k, e).0)
  {
    hide Step, Legal, TimelyTask;
    forall t: nat | t < |Step(k, e).0.tasks|
      ensures TimelyTask(Step(k, e).0.tasks[t], Step(k, e).0.now)
    {
      SameTasks(k, e);
      Waits(k, e, t);
    }
  }

  lemma SameTasks(k: Kernel, e: Event)
    requires Legal(k, e)
    ensures |Step(k, e).0.tasks| == |k.tasks|
  {
  }

  // ----- Runs -----

  lemma {:induction false} RunTimely(k: Kernel, events: seq<Event>)
    requires Fresh(k)
    ensures Timely(Run(k, events)) && |Run(k, events).tasks| == |k.tasks|
    decreases |events|
  {
    hide Step, Legal;
    if events != [] {
      RunTimely(k, events[..|events| - 1]);
      hide Timely, Fresh;
      var l, e := Run(k, events[..|events| - 1]), events[|events| - 1];
      if Legal(l, e) {
        StepTimely(l, e);
        SameTasks(l, e);
      }
    }
  }

  /** Task `t` calls sem_wait_timeout or mutex_lock_timeout with this timeout. */
  predicate Calls(k: Kernel, e: Event, t: nat, timeout: nat) {
    Legal(k, e) && ((e.SemWait? && e.t == t && e.timeout == timeout) || (e.Lock? && e.t == t && e.timeout == timeout))
  }

  /** After the m-th event, up to the n-th, task `t` is inside its wait. */
  ghost predicate Inside(k: Kernel, events: seq<Event>, t: nat, m: nat, n: nat) {
    forall l :: m < l <= n <= |events| ==> InWait(Run(k, events[..l]), t)
  }

  predicate InWait(k: Kernel, t: nat) {
    t < |k.tasks| && k.tasks[t].at.Waiting?
  }

  /** While the task is inside, it waits for the deadline it asked for. */
  lemma {:induction false} DeadlineStays(k: Kernel, events: seq<Event>, t: nat, m: nat, n: nat, timeout: nat)
    requires Fresh(k) && m < n <= |events| && Calls(Run(k, events[..m]), events[m], t, timeout)
    requires Inside(k, events, t, m, n)
    ensures var r, now := Run(k, events[..n]), Run(k, events[..m]).now;
            && t < |r.tasks| && r.tasks[t].at.Waiting? && r.now >= now
            && r.tasks[t].at.deadline == if timeout != 0 then now + timeout else 0
    decreases n
  {
    hide Step, Legal, Fresh;
    var l := Run(k, events[..n - 1]);
    assert events[..n][..n - 1] == events[..n - 1] && events[..n][n - 1] == events[n - 1];
    assert InWait(Run(k, events[..n]), t);
    RunTimely(k, events[..n - 1]);
    RunTimely(k, events[..n]);
    if n - 1 > m {
      DeadlineStays(k, events, t, m, n - 1, timeout);
      if Legal(l, events[n - 1]) {
        Waits(l, events[n - 1], t);
      }
    } else {
      Waits(l, events[m], t);
      CallerOutside(l, events[m], t, timeout);
    }
  }

  lemma CallerOutside(k: Kernel, e: Event, t: nat, timeout: nat)
    requires Calls(k, e, t, timeout)
    ensures t < |k.tasks| && k.tasks[t].at.Outside?
  {
  }

  /** The n-th event lets the call that began with the m-th return `value`: it is that call
      itself, or the task goes on in it after a wake-up. */
  ghost predicate ReturnsAt(k: Kernel, events: seq<Event>, t: nat, m: nat, n: nat, value: int) {
    && m <= n < |events| && Inside(k, events, t, m, n) && (n == m || events[n] == Resume(t))
    && Legal(Run(k, events[..n]), events[n]) && Step(Run(k, events[..n]), events[n]).1 == Returned(value)
  }

  /** In every run, a call that returns -1 was made with a timeout, and as many ticks ago: a
      call without one never returns -1. */
  lemma OnlyInTime(k: Kernel, events: seq<Event>, t: nat, m: nat, n: nat, timeout: nat)
    requires Fresh(k) && m < |events| && Calls(Run(k, events[..m]), events[m], t, timeout)
    requires ReturnsAt(k, events, t, m, n, -1)
    ensures timeout != 0 && Run(k, events[..n]).now >= Run(k, events[..m]).now + timeout
  {
    hide Step, Legal, Fresh, Inv, Inside, Recheck;
    var r, e := Run(k, events[..n]), events[n];
    RunInv(k, events[..n]);
    RunTimely(k, events[..n]);
    if n == m {
      NotAtOnce(r, e, t, timeout);
    } else {
      DeadlineStays(k, events, t, m, n, timeout);
      AfterWait(r, t);
    }
  }

  /** No call gives up at once. */
  lemma NotAtOnce(k: Kernel, e: Event, t: nat, timeout: nat)
    requires Inv(k) && Calls(k, e, t, timeout)
    ensures Step(k, e).1 != Returned(-1)
  {
    hide Inv, SemLoop, MutexLock;
    match e {
      case SemWait(u, i, _) => SemLoopKeeps(k, u, i, Deadline(k.now, timeout));
      case Lock(u, i, _) => LockKeeps(k, u, i, Deadline(k.now, timeout));
    }
  }

  lemma AfterWait(k: Kernel, t: nat)
    requires Inv(k) && Timely(k) && Legal(k, Resume(t)) && Step(k, Resume(t)).1 == Returned(-1)
    ensures k.tasks[t].at.deadline != 0 && k.now >= k.tasks[t].at.deadline
  {
    hide Inv, Recheck, Timely;
    RecheckKeeps(k, t);
    TimelyAt(k, t);
  }
}
