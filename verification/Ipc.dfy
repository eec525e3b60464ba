/** Semaphores and mutexes of kernel/ipc.c as interleaved atomic sections, split
    where s_ipclock is given up inside a blocking wait.  A waiter stands at
    `Waiting` from its first block until it has rechecked its condition. */
module Ipc {
  import opened Basics

  datatype Obj = Sem(i: nat) | Mtx(i: nat)

  /** `deadline` 0 means no timeout. */
  datatype Where = Outside | Waiting(obj: Obj, deadline: nat)

  /** `blocked` is the object of a BLOCKED task, none for a runnable one; `base` is
      its priority apart from any boost and `held` the mutex it believes to hold. */
  datatype Task = Task(blocked: Option<Obj>, prio: nat, base: nat, timedOut: bool, at: Where, held: Option<nat>)

  /** `init`, `posts` and `takes` are history. */
  datatype Semaphore = Semaphore(count: int, init: int, posts: nat, takes: nat)

  datatype Mutex = Mutex(locked: bool, owner: int, orig: nat)

  datatype Kernel = Kernel(tasks: seq<Task>, sems: seq<Semaphore>, mtxs: seq<Mutex>, now: nat)

  /** What a call returned in this section, if it returned. */
  datatype Outcome = Pending | Returned(value: int)

  // ----- Blocking and waking (kernel/sched.c) -----

  function SetTask(k: Kernel, t: nat, x: Task): Kernel
    requires t < |k.tasks|
  {
    k.(tasks := k.tasks[t := x])
  }

  predicate Expired(now: nat, deadline: nat) {
    deadline != 0 && now >= deadline
  }

  /** sched_block_on_timeout up to where it releases the lock. */
  function Block(k: Kernel, t: nat, obj: Obj, deadline: nat): Kernel
    requires t < |k.tasks|
  {
    SetTask(k, t, k.tasks[t].(blocked := Some(obj), timedOut := false, at := Waiting(obj, deadline)))
  }

  /** The best blocked waiter among the first `n` tasks: smallest number, earliest. */
  function Best(tasks: seq<Task>, obj: Obj, n: nat): (b: int)
    requires n <= |tasks|
    ensures -1 <= b < n
    ensures b >= 0 ==> tasks[b].blocked == Some(obj)
    ensures b >= 0 ==> forall i :: 0 <= i < n && tasks[i].blocked == Some(obj) ==> tasks[b].prio <= tasks[i].prio
    ensures forall i :: 0 <= i < b && tasks[i].blocked == Some(obj) ==> tasks[b].prio < tasks[i].prio
    ensures b < 0 ==> forall i :: 0 <= i < n ==> tasks[i].blocked != Some(obj) || tasks[i].prio >= 256
    decreases n
  {
    if n == 0 then -1
    else
      var b := Best(tasks, obj, n - 1);
      if tasks[n - 1].blocked == Some(obj) && tasks[n - 1].prio < (if b < 0 then 256 else tasks[b].prio)
      then n - 1 else b
  }

  /** sched_wake_one. */
  function WakeOne(k: Kernel, obj: Obj): (r: (Kernel, int))
    ensures |r.0.tasks| == |k.tasks| && -1 <= r.1 < |k.tasks|
  {
    var b := Best(k.tasks, obj, |k.tasks|);
    if b < 0 then (k, -1)
    else (SetTask(k, b, k.tasks[b].(blocked := None, timedOut := false)), b)
  }

  // ----- Semaphores -----

  /** sem_wait_timeout from the loop head on. */
  function SemLoop(k: Kernel, t: nat, s: nat, deadline: nat): (Kernel, Outcome)
    requires t < |k.tasks| && s < |k.sems|
  {
    var x := k.sems[s];
    if x.count > 0 then
      (SetTask(k, t, k.tasks[t].(at := Outside)).(sems := k.sems[s := x.(count := x.count - 1, takes := x.takes + 1)]),
       Returned(0))
    else if Expired(k.now, deadline) then (SetTask(k, t, k.tasks[t].(at := Outside)), Returned(-1))
    else (Block(k, t, Sem(s), deadline), Pending)
  }

  function SemPost(k: Kernel, s: nat): Kernel
    requires s < |k.sems|
  {
    var x := k.sems[s];
    WakeOne(k.(sems := k.sems[s := x.(count := x.count + 1, posts := x.posts + 1)]), Sem(s)).0
  }

  // ----- Mutexes -----

  /** The waiting loop of mutex_lock_timeout. */
  function MutexLoop(k: Kernel, t: nat, m: nat, deadline: nat): (Kernel, Outcome)
    requires t < |k.tasks| && m < |k.mtxs|
  {
    if k.mtxs[m].owner == t then (SetTask(k, t, k.tasks[t].(at := Outside, held := Some(m))), Returned(0))
    else if Expired(k.now, deadline) then (SetTask(k, t, k.tasks[t].(at := Outside)), Returned(-1))
    else (Block(k, t, Mtx(m), deadline), Pending)
  }

  /** Priority inheritance: the owner is at least as urgent as the new waiter. */
  function Boost(k: Kernel, t: nat, o: int): Kernel
    requires t < |k.tasks|
  {
    if 0 <= o < |k.tasks| && k.tasks[t].prio < k.tasks[o].prio
    then SetTask(k, o, k.tasks[o].(prio := k.tasks[t].prio)) else k
  }

  function MutexLock(k: Kernel, t: nat, m: nat, deadline: nat): (Kernel, Outcome)
    requires t < |k.tasks| && m < |k.mtxs|
  {
    if !k.mtxs[m].locked then
      (SetTask(k, t, k.tasks[t].(held := Some(m))).(mtxs := k.mtxs[m := Mutex(true, t, k.tasks[t].prio)]), Returned(0))
    else MutexLoop(Boost(k, t, k.mtxs[m].owner), t, m, deadline)
  }

  /** mutex_unlock: by a task that is not the owner it does nothing. */
  function MutexUnlock(k: Kernel, t: nat, m: nat): Kernel
    requires t < |k.tasks| && m < |k.mtxs|
  {
    var x := k.mtxs[m];
    if !x.locked || x.owner != t then k
    else
      var w := WakeOne(SetTask(k, t, k.tasks[t].(prio := x.orig, held := None)), Mtx(m));
      w.0.(mtxs := k.mtxs[m := if w.1 >= 0 then Mutex(true, w.1, w.0.tasks[w.1].prio) else Mutex(false, -1, x.orig)])
  }

  // ----- Interleavings -----

  datatype Event =
    | SemWait(t: nat, i: nat, timeout: nat)
    | Post(i: nat)
    | Lock(t: nat, i: nat, timeout: nat)
    | Unlock(t: nat, i: nat)
    | Resume(t: nat)
    | Timeout(t: nat)
    | Kill(t: nat)
    | Advance(ticks: nat)

  function Deadline(now: nat, timeout: nat): nat {
    if timeout != 0 then now + timeout else 0
  }

  predicate Runnable(k: Kernel, t: nat) {
    t < |k.tasks| && k.tasks[t].blocked.None?
  }

  /** Calls come from runnable tasks that are not inside another call; mutexes are
      single-level; the timer wakes waiters whose deadline has passed; a kill wakes
      no mutex waiter. */
  predicate Legal(k: Kernel, e: Event) {
    match e
    case SemWait(t, i, _) => Runnable(k, t) && k.tasks[t].at.Outside? && i < |k.sems|
    case Post(i) => i < |k.sems|
    case Lock(t, i, _) => Runnable(k, t) && k.tasks[t].at.Outside? && k.tasks[t].held.None? && i < |k.mtxs|
    case Unlock(t, i) => Runnable(k, t) && k.tasks[t].at.Outside? && i < |k.mtxs|
    case Resume(t) => Runnable(k, t) && k.tasks[t].at.Waiting?
    case Timeout(t) => t < |k.tasks| && k.tasks[t].blocked.Some? && k.tasks[t].at.Waiting?
                       && Expired(k.now, k.tasks[t].at.deadline)
    case Kill(t) => t < |k.tasks| && k.tasks[t].blocked.Some? && k.tasks[t].blocked.value.Sem?
    case Advance(_) => true
  }

  /** The section after a wake-up: recheck the condition. */
  function Recheck(k: Kernel, t: nat): (Kernel, Outcome)
    requires Legal(k, Resume(t))
  {
    var x := k.tasks[t];
    match x.at.obj
    case Sem(s) =>
      if s >= |k.sems| then (k, Pending)
      else if x.timedOut && k.sems[s].count <= 0 then (SetTask(k, t, x.(at := Outside)), Returned(-1))
      else SemLoop(k, t, s, x.at.deadline)
    case Mtx(m) =>
      if m >= |k.mtxs| then (k, Pending)
      else if x.timedOut && k.mtxs[m].owner != t then (SetTask(k, t, x.(at := Outside)), Returned(-1))
      else MutexLoop(k, t, m, x.at.deadline)
  }

  function Step(k: Kernel, e: Event): (Kernel, Outcome)
    requires Legal(k, e)
  {
    match e
    case SemWait(t, i, timeout) => SemLoop(k, t, i, Deadline(k.now, timeout))
    case Post(i) => (SemPost(k, i), Pending)
    case Lock(t, i, timeout) => MutexLock(k, t, i, Deadline(k.now, timeout))
    case Unlock(t, i) => (MutexUnlock(k, t, i), Pending)
    case Resume(t) => Recheck(k, t)
    case Timeout(t) => (SetTask(k, t, k.tasks[t].(blocked := None, timedOut := true)), Pending)
    case Kill(t) => (SetTask(k, t, k.tasks[t].(blocked := None)), Pending)
    case Advance(n) => (k.(now := k.now + n), Pending)
  }
}
