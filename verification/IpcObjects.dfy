/** The critical sections of kernel/ipc.c as they change tasks, counters and owners
    in place, each proved to be the section of Ipc that every interleaving there is
    built from.  A section ends where the call returns or the task goes to sleep. */
module IpcObjects {
  import opened Basics
  import opened Ipc

  class Machine {
    var tasks: seq<Task>
    var sems: seq<Semaphore>
    var mtxs: seq<Mutex>
    var now: nat

    function State(): Kernel
      reads this
    {
      Kernel(tasks, sems, mtxs, now)
    }

    constructor (priorities: seq<nat>, initial: seq<int>, mutexes: nat)
      ensures |tasks| == |priorities| && |sems| == |initial| && |mtxs| == mutexes && now == 0
      ensures forall t :: 0 <= t < |tasks| ==>
                tasks[t] == Task(None, priorities[t], priorities[t], false, Outside, None)
      ensures forall s :: 0 <= s < |sems| ==> sems[s] == Semaphore(initial[s], initial[s], 0, 0)
      ensures forall m :: 0 <= m < |mtxs| ==> mtxs[m] == Mutex(false, -1, 0)
    {
      tasks := seq(|priorities|, t requires 0 <= t < |priorities| =>
                   Task(None, priorities[t], priorities[t], false, Outside, None));
      sems := seq(|initial|, s requires 0 <= s < |initial| => Semaphore(initial[s], initial[s], 0, 0));
      mtxs := seq(mutexes, m => Mutex(false, -1, 0));
      now := 0;
    }

    /** sched_block_on_timeout up to the release of the lock. */
    method BlockOn(t: nat, obj: Obj, deadline: nat)
      requires t < |tasks|
      modifies this
      ensures State() == Block(old(State()), t, obj, deadline)
    {
      tasks := tasks[t := tasks[t].(timedOut := false, blocked := Some(obj), at := Waiting(obj, deadline))];
    }

    /** sched_wake_one: one scan for the most urgent sleeper on `obj`. */
    method WakeBest(obj: Obj) returns (best: int)
      modifies this
      ensures (State(), best) == WakeOne(old(State()), obj)
    {
      best := -1;
      var bestPrio, i := 256, 0;
      while i < |tasks|
        invariant 0 <= i <= |tasks| && State() == old(State())
        invariant best == Best(tasks, obj, i) && bestPrio == if best < 0 then 256 else tasks[best].prio
      {
        if tasks[i].blocked == Some(obj) && tasks[i].prio < bestPrio {
          bestPrio := tasks[i].prio;
          best := i;
        }
        i := i + 1;
      }
      if best >= 0 {
        tasks := tasks[best := tasks[best].(blocked := None, timedOut := false)];
      }
    }

    method SetPrio(t: int, prio: nat)
      modifies this
      ensures State() == if 0 <= t < |old(tasks)| then SetTask(old(State()), t, old(tasks)[t].(prio := prio))
                         else old(State())
    {
      if t < 0 || t >= |tasks| { return; }
      tasks := tasks[t := tasks[t].(prio := prio)];
    }

    /** The loop of sem_wait_timeout from its head to a return or a sleep. */
    method SemSection(t: nat, s: nat, deadline: nat) returns (r: Outcome)
      requires t < |tasks| && s < |sems|
      modifies this
      ensures (State(), r) == SemLoop(old(State()), t, s, deadline)
    {
      if sems[s].count <= 0 {
        if deadline != 0 && now >= deadline {
          r := Returned(-1);
        } else {
          BlockOn(t, Sem(s), deadline);
          return Pending;
        }
      } else {
        sems := sems[s := sems[s].(count := sems[s].count - 1, takes := sems[s].takes + 1)];
        r := Returned(0);
      }
      tasks := tasks[t := tasks[t].(at := Outside)];
    }

    /** sem_wait_timeout up to a return or a sleep. */
    method WaitSection(t: nat, s: nat, timeout: nat) returns (r: Outcome)
      requires t < |tasks| && s < |sems|
      modifies this
      ensures (State(), r) == SemLoop(old(State()), t, s, Deadline(old(now), timeout))
    {
      r := SemSection(t, s, if timeout != 0 then now + timeout else 0);
    }

    method Post(s: nat)
      requires s < |sems|
      modifies this
      ensures State() == SemPost(old(State()), s)
    {
      sems := sems[s := sems[s].(count := sems[s].count + 1, posts := sems[s].posts + 1)];
      var _ := WakeBest(Sem(s));
    }

    /** The waiting loop of mutex_lock_timeout from its head. */
    method MutexSection(t: nat, m: nat, deadline: nat) returns (r: Outcome)
      requires t < |tasks| && m < |mtxs|
      modifies this
      ensures (State(), r) == MutexLoop(old(State()), t, m, deadline)
    {
      if mtxs[m].owner != t {
        if deadline != 0 && now >= deadline {
          tasks := tasks[t := tasks[t].(at := Outside)];
          return Returned(-1);
        }
        BlockOn(t, Mtx(m), deadline);
        return Pending;
      }
      tasks := tasks[t := tasks[t].(at := Outside, held := Some(m))];
      r := Returned(0);
    }

    /** mutex_lock_timeout; a second lock by the owner is a kernel bug it stops at. */
    method LockSection(t: nat, m: nat, timeout: nat) returns (r: Outcome)
      requires t < |tasks| && m < |mtxs| && !(mtxs[m].locked && mtxs[m].owner == t)
      modifies this
      ensures (State(), r) == MutexLock(old(State()), t, m, Deadline(old(now), timeout))
    {
      if !mtxs[m].locked {
        mtxs := mtxs[m := Mutex(true, t, tasks[t].prio)];
        tasks := tasks[t := tasks[t].(held := Some(m))];
        return Returned(0);
      }
      var o := mtxs[m].owner;
      var mine := tasks[t].prio;
      if 0 <= o < |tasks| && mine < tasks[o].prio {
        SetPrio(o, mine);
      }
      r := MutexSection(t, m, if timeout != 0 then now + timeout else 0);
    }

    method UnlockSection(t: nat, m: nat)
      requires t < |tasks| && m < |mtxs|
      modifies this
      ensures State() == MutexUnlock(old(State()), t, m)
    {
      if !mtxs[m].locked || mtxs[m].owner != t { return; }
      SetPrio(t, mtxs[m].orig);
      tasks := tasks[t := tasks[t].(held := None)];
      assert tasks == old(tasks)[t := old(tasks)[t].(prio := mtxs[m].orig, held := None)];
      var w := WakeBest(Mtx(m));
      if w >= 0 {
        mtxs := mtxs[m := Mutex(true, w, tasks[w].prio)];
      } else {
        mtxs := mtxs[m := mtxs[m].(locked := false, owner := -1)];
      }
    }

    /** What follows a wake-up inside a wait. */
    method RecheckSection(t: nat) returns (r: Outcome)
      requires Legal(State(), Resume(t))
      modifies this
      ensures (State(), r) == Recheck(old(State()), t)
    {
      var x := tasks[t];
      match x.at.obj {
        case Sem(s) =>
          if s >= |sems| { return Pending; }
          if x.timedOut && sems[s].count <= 0 {
            tasks := tasks[t := x.(at := Outside)];
            return Returned(-1);
          }
          r := SemSection(t, s, x.at.deadline);
        case Mtx(m) =>
          if m >= |mtxs| { return Pending; }
          if x.timedOut && mtxs[m].owner != t {
            tasks := tasks[t := x.(at := Outside)];
            return Returned(-1);
          }
          r := MutexSection(t, m, x.at.deadline);
      }
    }
  }
}
