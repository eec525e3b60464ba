/** Every step of every interleaving keeps the invariant of IpcInv, and what that
    says about the calls of kernel/ipc.c. */
module IpcRun {
  import opened Basics
  import opened Ipc
  import opened IpcInv

  // ----- The waiting loop of mutex_lock_timeout -----

  /** Task `t` comes to the loop head with the lock held: from its call, having
      raised the owner, or from a wake-up that the recheck has not turned away. */
  ghost predicate AtLoop(k: Kernel, t: nat, m: nat) {
    && Runnable(k, t) && m < |k.mtxs| && k.tasks[t].held.None? && k.mtxs[m].locked
    && 0 <= k.mtxs[m].owner < |k.tasks| && k.tasks[k.mtxs[m].owner].prio <= k.tasks[t].prio
    && (if k.mtxs[m].owner == t
        then k.tasks[t].at.Waiting? && k.tasks[t].at.obj == Mtx(m)
        else k.tasks[t].at.Outside?)
  }

  lemma AtLoopFree(k: Kernel, t: nat, m: nat)
    requires Inv(k) && AtLoop(k, t, m) && k.mtxs[m].owner != t
    ensures forall i :: 0 <= i < |k.mtxs| ==> k.mtxs[i].owner != t
  {
    InvMutex(k);
    forall i | 0 <= i < |k.mtxs|
      ensures k.mtxs[i].owner != t
    {
      if k.mtxs[i].owner == t {
        OwnsNone(k.tasks, k.mtxs, t, i);
      }
    }
  }

  /** The call returns 0 exactly as owner; if it is not, it returns -1 exactly if a deadline
      was set and has come, and else the task sleeps. */
  lemma MutexLoopKeeps(k: Kernel, t: nat, m: nat, deadline: nat)
    requires Inv(k) && AtLoop(k, t, m)
    ensures var r := MutexLoop(k, t, m, deadline);
            && Inv(r.0)
            && (r.1 == Returned(0) <==> r.0.mtxs[m].owner == t)
            && (r.1 == Returned(0) ==> r.0.tasks[t].held == Some(m))
            && (r.1 == Returned(-1) <==> k.mtxs[m].owner != t && deadline != 0 && k.now >= deadline)
            && (r.1 != Returned(0) && r.1 != Returned(-1) ==>
                  r.1 == Pending && AsleepOn(r.0.tasks[t], Mtx(m), deadline))
  {
    hide Inv;
    InvMutex(k);
    TaskAt(k, t);
    var x := k.tasks[t];
    if k.mtxs[m].owner == t {
      HandedOver(k.tasks, k.mtxs, t, m);
      hide MutexInv;
      MutexMove(k, t, x.(at := Outside, held := Some(m)), k.mtxs);
    } else {
      AtLoopFree(k, t, m);
      if Expired(k.now, deadline) {
        hide MutexInv;
        assert k.tasks[t := x.(at := Outside)] == k.tasks;
        assert SetTask(k, t, x.(at := Outside)) == k;
      } else {
        Sleeps(k.tasks, k.mtxs, t, m, deadline);
        hide MutexInv;
        MutexMove(k, t, x.(blocked := Some(Mtx(m)), timedOut := false, at := Waiting(Mtx(m), deadline)), k.mtxs);
      }
    }
  }

  lemma HandedOver(tasks: seq<Task>, mtxs: seq<Mutex>, t: nat, m: nat)
    requires MutexInv(tasks, mtxs) && t < |tasks| && m < |mtxs| && mtxs[m].owner == t
    requires tasks[t].blocked.None? && tasks[t].at.Waiting? && tasks[t].at.obj == Mtx(m) && tasks[t].held.None?
    ensures MutexInv(tasks[t := tasks[t].(at := Outside, held := Some(m))], mtxs)
  {
    var q := tasks[t := tasks[t].(at := Outside, held := Some(m))];
    forall i | 0 <= i < |mtxs|
      ensures OwnerOk(q, mtxs[i], i)
    {
      assert OwnerOk(tasks, mtxs[i], i);
      if mtxs[i].owner == t {
        OwnsNone(tasks, mtxs, t, i);
        assert Agrees(tasks[t], t, mtxs);
      }
    }
    HandedRest(tasks, mtxs, t, m);
  }

  lemma HandedRest(tasks: seq<Task>, mtxs: seq<Mutex>, t: nat, m: nat)
    requires AllAgree(tasks, mtxs) && AllInherited(tasks, mtxs) && BoostsOwned(tasks, mtxs)
    requires t < |tasks| && m < |mtxs| && mtxs[m].owner == t && tasks[t].blocked.None?
    ensures var q := tasks[t := tasks[t].(at := Outside, held := Some(m))];
            AllAgree(q, mtxs) && AllInherited(q, mtxs) && BoostsOwned(q, mtxs)
  {
    var q := tasks[t := tasks[t].(at := Outside, held := Some(m))];
    forall u | 0 <= u < |q|
      ensures Agrees(q[u], u, mtxs) && Inherited(q[u], q, mtxs)
    {
      assert Agrees(tasks[u], u, mtxs) && Inherited(tasks[u], tasks, mtxs);
    }
  }

  /** Going to sleep: the mutex is locked by somebody at least as urgent. */
  lemma Sleeps(tasks: seq<Task>, mtxs: seq<Mutex>, t: nat, m: nat, deadline: nat)
    requires MutexInv(tasks, mtxs) && t < |tasks| && m < |mtxs| && mtxs[m].locked && tasks[t].held.None?
    requires tasks[t].at.Outside? && tasks[t].blocked.None?
    requires 0 <= mtxs[m].owner < |tasks| && tasks[mtxs[m].owner].prio <= tasks[t].prio
    requires forall i :: 0 <= i < |mtxs| ==> mtxs[i].owner != t
    ensures MutexInv(tasks[t := tasks[t].(blocked := Some(Mtx(m)), timedOut := false, at := Waiting(Mtx(m), deadline))],
                     mtxs)
  {
    var q := tasks[t := tasks[t].(blocked := Some(Mtx(m)), timedOut := false, at := Waiting(Mtx(m), deadline))];
    forall i | 0 <= i < |mtxs|
      ensures OwnerOk(q, mtxs[i], i)
    {
      assert OwnerOk(tasks, mtxs[i], i);
    }
    forall u | 0 <= u < |q|
      ensures Agrees(q[u], u, mtxs) && Inherited(q[u], q, mtxs)
    {
      assert Agrees(tasks[u], u, mtxs) && Inherited(tasks[u], tasks, mtxs);
    }
  }

  /** A lock takes a free mutex at once; of a locked one it returns -1 exactly if a deadline
      was set and has come, and else the task sleeps. */
  lemma LockKeeps(k: Kernel, t: nat, m: nat, deadline: nat)
    requires Inv(k) && Legal(k, Lock(t, m, deadline))
    ensures var r := MutexLock(k, t, m, deadline);
            && Inv(r.0)
            && (r.1 == Returned(0) <==> r.0.mtxs[m].owner == t)
            && (r.1 == Returned(0) <==> !k.mtxs[m].locked)
            && (r.1 == Returned(0) ==> r.0.tasks[t].held == Some(m))
            && (r.1 == Returned(-1) <==> k.mtxs[m].locked && deadline != 0 && k.now >= deadline)
            && (r.1 != Returned(0) && r.1 != Returned(-1) ==>
                  r.1 == Pending && AsleepOn(r.0.tasks[t], Mtx(m), deadline))
  {
    hide Inv;
    InvMutex(k);
    TaskAt(k, t);
    if !k.mtxs[m].locked {
      TakeFree(k.tasks, k.mtxs, t, m);
      hide MutexInv;
      MutexMove(k, t, k.tasks[t].(held := Some(m)), k.mtxs[m := Mutex(true, t, k.tasks[t].prio)]);
    } else {
      if k.mtxs[m].owner == t {
        OwnsNone(k.tasks, k.mtxs, t, m);
        assert false;
      }
      BoostKeeps(k, t, m);
      hide MutexInv;
      MutexLoopKeeps(Boost(k, t, k.mtxs[m].owner), t, m, deadline);
    }
  }

  // ----- mutex_unlock -----

  lemma UnlockReset(tasks: seq<Task>, mtxs: seq<Mutex>, t: nat, m: nat)
    requires MutexInv(tasks, mtxs) && t < |tasks| && m < |mtxs| && mtxs[m].locked && mtxs[m].owner == t
    requires tasks[t].at.Outside? && tasks[t].blocked.None?
    ensures mtxs[m].orig == tasks[t].base && tasks[t].held == Some(m)
    ensures forall i :: 0 <= i < |mtxs| && i != m ==> mtxs[i].owner != t
  {
    assert OwnerOk(tasks, mtxs[m], m);
    forall i | 0 <= i < |mtxs| && i != m
      ensures mtxs[i].owner != t
    {
      if mtxs[i].owner == t {
        OwnsNone(tasks, mtxs, t, i);
      }
    }
  }

  /** No waiter: the mutex becomes free. */
  lemma Frees(tasks: seq<Task>, mtxs: seq<Mutex>, t: nat, m: nat, orig: nat)
    requires MutexInv(tasks, mtxs) && t < |tasks| && m < |mtxs| && mtxs[m].owner == t
    requires tasks[t].at.Outside? && tasks[t].blocked.None?
    requires forall i :: 0 <= i < |mtxs| && i != m ==> mtxs[i].owner != t
    requires forall u :: 0 <= u < |tasks| ==> tasks[u].blocked != Some(Mtx(m))
    ensures MutexInv(tasks[t := tasks[t].(prio := tasks[t].base, held := None)], mtxs[m := Mutex(false, -1, orig)])
  {
    var q, n := tasks[t := tasks[t].(prio := tasks[t].base, held := None)], mtxs[m := Mutex(false, -1, orig)];
    forall i | 0 <= i < |n|
      ensures OwnerOk(q, n[i], i)
    {
      assert OwnerOk(tasks, mtxs[i], i);
    }
    forall u | 0 <= u < |q|
      ensures Agrees(q[u], u, n) && Inherited(q[u], q, n)
    {
      assert Agrees(tasks[u], u, mtxs) && Inherited(tasks[u], tasks, mtxs);
    }
    forall u | 0 <= u < |q| && q[u].prio != q[u].base
      ensures exists i :: 0 <= i < |n| && n[i].owner == u
    {
      var i :| 0 <= i < |mtxs| && mtxs[i].owner == u;
      assert n[i].owner == u;
    }
  }

  /** A waiter is woken as the new owner. */
  lemma HandsOver(tasks: seq<Task>, mtxs: seq<Mutex>, t: nat, m: nat, w: nat)
    requires MutexInv(tasks, mtxs) && TasksOk(tasks) && t < |tasks| && m < |mtxs| && mtxs[m].owner == t
    requires tasks[t].at.Outside? && tasks[t].blocked.None?
    requires forall i :: 0 <= i < |mtxs| && i != m ==> mtxs[i].owner != t
    requires w < |tasks| && w != t && tasks[w].blocked == Some(Mtx(m))
    requires forall u :: 0 <= u < |tasks| && tasks[u].blocked == Some(Mtx(m)) ==> tasks[w].prio <= tasks[u].prio
    ensures var q := tasks[t := tasks[t].(prio := tasks[t].base, held := None)]
                          [w := tasks[w].(blocked := None, timedOut := false)];
            MutexInv(q, mtxs[m := Mutex(true, w, tasks[w].prio)])
  {
    var q := tasks[t := tasks[t].(prio := tasks[t].base, held := None)]
                  [w := tasks[w].(blocked := None, timedOut := false)];
    var n := mtxs[m := Mutex(true, w, tasks[w].prio)];
    SleeperOwnsNone(tasks, mtxs, w);
    assert TaskOk(tasks[w]) && Agrees(tasks[w], w, mtxs);
    HandAgree(tasks, mtxs, t, m, w);
    HandInherit(tasks, mtxs, t, m, w);
    forall i | 0 <= i < |n|
      ensures OwnerOk(q, n[i], i)
    {
      assert OwnerOk(tasks, mtxs[i], i);
    }
    forall u | 0 <= u < |q| && q[u].prio != q[u].base
      ensures exists i :: 0 <= i < |n| && n[i].owner == u
    {
      var i :| 0 <= i < |mtxs| && mtxs[i].owner == u;
      assert n[i].owner == u;
    }
  }

  lemma SleeperOwnsNone(tasks: seq<Task>, mtxs: seq<Mutex>, w: nat)
    requires MutexInv(tasks, mtxs) && TasksOk(tasks) && w < |tasks| && tasks[w].blocked.Some?
    requires tasks[w].blocked.value.Mtx?
    ensures tasks[w].prio == tasks[w].base && forall i :: 0 <= i < |mtxs| ==> mtxs[i].owner != w
  {
    assert TaskOk(tasks[w]);
    forall i | 0 <= i < |mtxs|
      ensures mtxs[i].owner != w
    {
      if mtxs[i].owner == w {
        OwnsNone(tasks, mtxs, w, i);
      }
    }
  }

  lemma HandAgree(tasks: seq<Task>, mtxs: seq<Mutex>, t: nat, m: nat, w: nat)
    requires AllAgree(tasks, mtxs) && TasksOk(tasks) && t < |tasks| && m < |mtxs| && mtxs[m].owner == t
    requires tasks[t].at.Outside? && w < |tasks| && w != t && tasks[w].blocked == Some(Mtx(m))
    ensures var q := tasks[t := tasks[t].(prio := tasks[t].base, held := None)]
                          [w := tasks[w].(blocked := None, timedOut := false)];
            AllAgree(q, mtxs[m := Mutex(true, w, tasks[w].prio)])
  {
    var q := tasks[t := tasks[t].(prio := tasks[t].base, held := None)]
                  [w := tasks[w].(blocked := None, timedOut := false)];
    var n := mtxs[m := Mutex(true, w, tasks[w].prio)];
    forall u | 0 <= u < |q|
      ensures Agrees(q[u], u, n)
    {
      assert Agrees(tasks[u], u, mtxs) && TaskOk(tasks[u]);
    }
  }

  lemma HandInherit(tasks: seq<Task>, mtxs: seq<Mutex>, t: nat, m: nat, w: nat)
    requires AllInherited(tasks, mtxs) && t < |tasks| && m < |mtxs| && mtxs[m].owner == t && tasks[t].blocked.None?
    requires forall i :: 0 <= i < |mtxs| && i != m ==> mtxs[i].owner != t
    requires w < |tasks| && w != t && tasks[w].blocked == Some(Mtx(m))
    requires forall u :: 0 <= u < |tasks| && tasks[u].blocked == Some(Mtx(m)) ==> tasks[w].prio <= tasks[u].prio
    ensures var q := tasks[t := tasks[t].(prio := tasks[t].base, held := None)]
                          [w := tasks[w].(blocked := None, timedOut := false)];
            AllInherited(q, mtxs[m := Mutex(true, w, tasks[w].prio)])
  {
    var q := tasks[t := tasks[t].(prio := tasks[t].base, held := None)]
                  [w := tasks[w].(blocked := None, timedOut := false)];
    var n := mtxs[m := Mutex(true, w, tasks[w].prio)];
    forall u | 0 <= u < |q|
      ensures Inherited(q[u], q, n)
    {
      assert Inherited(tasks[u], tasks, mtxs);
    }
  }

  /** The mutex has gone to the most urgent sleeper, or to nobody if nobody sleeps. */
  ghost predicate PassedOn(k: Kernel, r: Kernel, m: nat) {
    && m < |r.mtxs| && |r.tasks| == |k.tasks|
    && if exists u: nat :: SleepsOn(k.tasks, Mtx(m), u)
       then
         var b := r.mtxs[m].owner;
         r.mtxs[m].locked && b >= 0 && Foremost(k.tasks, Mtx(m), b) && !SleepsOn(r.tasks, Mtx(m), b)
       else !r.mtxs[m].locked && r.mtxs[m].owner == -1
  }

  lemma HandsToBest(k: Kernel, t: nat, m: nat)
    requires Inv(k) && Legal(k, Unlock(t, m)) && t < |k.tasks| && m < |k.mtxs|
    ensures k.mtxs[m].locked && k.mtxs[m].owner == t ==> PassedOn(k, MutexUnlock(k, t, m), m)
  {
    hide Inv, Foremost;
    PriosBounded(k);
    var x := k.mtxs[m];
    if x.locked && x.owner == t {
      var y := k.tasks[t].(prio := x.orig, held := None);
      var q := SetTask(k, t, y);
      assert forall u: nat :: SleepsOn(q.tasks, Mtx(m), u) <==> SleepsOn(k.tasks, Mtx(m), u);
      OrigBounded(k, t, m);
      WakesBest(q, Mtx(m));
      var w := WakeOne(q, Mtx(m));
      if w.1 >= 0 {
        SameForemost(k.tasks, t, y, Mtx(m), w.1);
      }
    }
  }

  /** A task that is awake does not matter for who is foremost. */
  lemma SameForemost(tasks: seq<Task>, t: nat, y: Task, obj: Obj, b: nat)
    requires t < |tasks| && tasks[t].blocked != Some(obj) && y.blocked != Some(obj)
    requires Foremost(tasks[t := y], obj, b)
    ensures Foremost(tasks, obj, b)
  {
    var q := tasks[t := y];
    forall u: nat | SleepsOn(tasks, obj, u)
      ensures SleepsOn(q, obj, u) && u != t && q[u] == tasks[u]
    {
    }
    assert b != t && q[b] == tasks[b];
  }

  lemma OrigBounded(k: Kernel, t: nat, m: nat)
    requires Inv(k) && t < |k.tasks| && m < |k.mtxs| && k.mtxs[m].locked && k.mtxs[m].owner == t
    ensures k.mtxs[m].orig < 256
  {
  }

  /** Unlocking by the owner restores the priority it had before any boost; the
      mutex then belongs to the most urgent waiter, at its own priority, or to
      nobody if nobody waits. */
  lemma UnlockKeeps(k: Kernel, t: nat, m: nat)
    requires Inv(k) && Legal(k, Unlock(t, m))
    ensures var r := MutexUnlock(k, t, m);
            && Inv(r)
            && (k.mtxs[m].locked && k.mtxs[m].owner == t ==>
                  r.tasks[t].prio == k.tasks[t].base && r.tasks[t].held.None? && r.mtxs[m].owner != t)
            && (!(k.mtxs[m].locked && k.mtxs[m].owner == t) ==> r == k)
            && (k.mtxs[m].locked && k.mtxs[m].owner == t ==> PassedOn(k, r, m))
  {
    hide Inv, PassedOn;
    HandsToBest(k, t, m);
    InvMutex(k);
    var x := k.mtxs[m];
    if x.locked && x.owner == t {
      UnlockReset(k.tasks, k.mtxs, t, m);
      var y := k.tasks[t].(prio := x.orig, held := None);
      var q := k.tasks[t := y];
      var b := Best(q, Mtx(m), |q|);
      TaskAt(k, t);
      if b < 0 {
        forall u | 0 <= u < |k.tasks|
          ensures k.tasks[u].blocked != Some(Mtx(m))
        {
          TaskAt(k, u);
          assert q[u].blocked == k.tasks[u].blocked;
        }
        Frees(k.tasks, k.mtxs, t, m, x.orig);
        hide MutexInv;
        MutexMove(k, t, y, k.mtxs[m := Mutex(false, -1, x.orig)]);
      } else {
        UnlockHands(k, t, m, b);
      }
    }
  }

  lemma UnlockHands(k: Kernel, t: nat, m: nat, b: nat)
    requires Inv(k) && Legal(k, Unlock(t, m)) && k.mtxs[m].locked && k.mtxs[m].owner == t
    requires b < |k.tasks|
    requires b == Best(k.tasks[t := k.tasks[t].(prio := k.mtxs[m].orig, held := None)], Mtx(m), |k.tasks|)
    ensures var r := MutexUnlock(k, t, m);
            Inv(r) && r.tasks[t].prio == k.tasks[t].base && r.tasks[t].held.None? && r.mtxs[m].owner == b != t
  {
    hide Inv;
    InvMutex(k);
    UnlockReset(k.tasks, k.mtxs, t, m);
    var y := k.tasks[t].(prio := k.mtxs[m].orig, held := None);
    var q := k.tasks[t := y];
    assert b != t && q[b] == k.tasks[b];
    forall u | 0 <= u < |k.tasks| && k.tasks[u].blocked == Some(Mtx(m))
      ensures k.tasks[b].prio <= k.tasks[u].prio
    {
      assert q[u] == k.tasks[u];
    }
    HandsOver(k.tasks, k.mtxs, t, m, b);
    TaskAt(k, t);
    TaskAt(k, b);
    hide MutexInv, Best;
    var w := k.tasks[b].(blocked := None, timedOut := false);
    TwoMoves(k, t, y, b, w, k.mtxs[m := Mutex(true, b, k.tasks[b].prio)]);
  }

  /** Two tasks that are no semaphore waiters change together with the mutexes. */
  lemma TwoMoves(k: Kernel, t: nat, y: Task, b: nat, w: Task, mtxs: seq<Mutex>)
    requires Inv(k) && t < |k.tasks| && b < |k.tasks| && t != b && TaskOk(y) && TaskOk(w)
    requires MutexInv(k.tasks[t := y][b := w], mtxs)
    requires k.tasks[t].at == y.at && k.tasks[t].blocked == y.blocked
    requires k.tasks[b].at == w.at && w.at.Waiting? && w.at.obj.Mtx? && w.blocked.None?
             && k.tasks[b].blocked.Some? && k.tasks[b].blocked.value.Mtx?
    ensures Inv(k.(tasks := k.tasks[t := y][b := w], mtxs := mtxs))
  {
    hide MutexInv, SemsOk;
    SemsBlind(k.tasks, k.sems, t, y);
    SemsBlind(k.tasks[t := y], k.sems, b, w);
  }

  // ----- Timeouts, kills, rechecks -----

  /** A timed-out mutex waiter is not the owner, and no longer a candidate. */
  lemma TimeoutMutex(tasks: seq<Task>, mtxs: seq<Mutex>, t: nat)
    requires MutexInv(tasks, mtxs) && t < |tasks| && TaskOk(tasks[t]) && tasks[t].blocked.Some?
    requires tasks[t].blocked.value.Mtx?
    ensures MutexInv(tasks[t := tasks[t].(blocked := None, timedOut := true)], mtxs)
  {
    var q := tasks[t := tasks[t].(blocked := None, timedOut := true)];
    forall i | 0 <= i < |mtxs|
      ensures OwnerOk(q, mtxs[i], i)
    {
      assert OwnerOk(tasks, mtxs[i], i);
    }
    forall u | 0 <= u < |q|
      ensures Agrees(q[u], u, mtxs) && Inherited(q[u], q, mtxs)
    {
      assert Agrees(tasks[u], u, mtxs) && Inherited(tasks[u], tasks, mtxs);
    }
  }

  lemma WakeSem(k: Kernel, t: nat, timedOut: bool)
    requires Inv(k) && t < |k.tasks| && k.tasks[t].blocked.Some? && k.tasks[t].blocked.value.Sem?
    ensures Inv(SetTask(k, t, k.tasks[t].(blocked := None, timedOut := timedOut)))
  {
    hide MutexInv, SemsOk, Inv, SemOk;
    TaskAt(k, t);
    SemIndex(k, t);
    var s := k.tasks[t].blocked.value.i;
    SemAt(k, s);
    var y := k.tasks[t].(blocked := None, timedOut := timedOut);
    WakeMore(k.tasks, k.sems[s], s, t, y);
    SemMoveKeeps(k, t, y, s, k.sems[s]);
    assert k.sems[s := k.sems[s]] == k.sems;
  }

  lemma SemIndex(k: Kernel, t: nat)
    requires Inv(k) && t < |k.tasks| && k.tasks[t].at.Waiting? && k.tasks[t].at.obj.Sem?
    ensures k.tasks[t].at.obj.i < |k.sems|
  {
    hide MutexInv, SemsOk;
  }

  lemma WakeMore(tasks: seq<Task>, x: Semaphore, s: nat, t: nat, y: Task)
    requires SemOk(tasks, x, s) && t < |tasks| && tasks[t].blocked == Some(Sem(s))
    requires y.blocked.None? && y.at.Waiting? && y.at.obj == Sem(s)
    ensures SemOk(tasks[t := y], x, s)
  {
    WokenOne(tasks, t, y, s);
    assert SomeBlocked(tasks, s);
    hide Woken;
  }

  lemma TimeoutKeeps(k: Kernel, t: nat)
    requires Inv(k) && Legal(k, Timeout(t))
    ensures Inv(Step(k, Timeout(t)).0)
  {
    hide Inv, MutexInv;
    TaskAt(k, t);
    if k.tasks[t].blocked.value.Sem? {
      WakeSem(k, t, true);
    } else {
      InvMutex(k);
      TimeoutMutex(k.tasks, k.mtxs, t);
      MutexMove(k, t, k.tasks[t].(blocked := None, timedOut := true), k.mtxs);
    }
  }

  /** Woken from the wait for a mutex: either as its owner or by the deadline, never
      both and never for nothing. */
  lemma MutexWakeup(k: Kernel, t: nat)
    requires Inv(k) && Legal(k, Resume(t)) && k.tasks[t].at.obj.Mtx?
    ensures var m := k.tasks[t].at.obj.i;
            && m < |k.mtxs| && (k.mtxs[m].owner == t <==> !k.tasks[t].timedOut)
            && (k.mtxs[m].owner == t ==> AtLoop(k, t, m))
  {
    InvMutex(k);
    TaskAt(k, t);
    assert Agrees(k.tasks[t], t, k.mtxs);
    var m := k.tasks[t].at.obj.i;
    assert OwnerOk(k.tasks, k.mtxs[m], m);
  }

  /** The recheck after a wake-up. It returns -1 exactly if there is still nothing to take and
      the deadline woke the task or has come meanwhile. */
  lemma RecheckKeeps(k: Kernel, t: nat)
    requires Inv(k) && Legal(k, Resume(t))
    ensures var r := Recheck(k, t);
            && Inv(r.0)
            && (k.tasks[t].at.obj.Mtx? ==> var m := k.tasks[t].at.obj.i;
                  m < |r.0.mtxs| && r.1.Returned? && (r.1 == Returned(0) <==> r.0.mtxs[m].owner == t))
            && (k.tasks[t].at.obj.Sem? ==> var s := k.tasks[t].at.obj.i;
                  s < |k.sems| && s < |r.0.sems|
                  && r.0.sems[s].takes == k.sems[s].takes + (if r.1 == Returned(0) then 1 else 0)
                  && (r.1 == Returned(0) <==> k.sems[s].count > 0))
            && (r.1 == Returned(-1) <==>
                  !Served(k, t) && (k.tasks[t].timedOut || Passed(k.now, k.tasks[t].at.deadline)))
            && (r.1 != Returned(0) && r.1 != Returned(-1) ==>
                  r.1 == Pending && AsleepOn(r.0.tasks[t], k.tasks[t].at.obj, k.tasks[t].at.deadline))
  {
    hide Inv;
    var x := k.tasks[t];
    TaskAt(k, t);
    match x.at.obj {
      case Sem(s) =>
        SemIndex(k, t);
        if x.timedOut && k.sems[s].count <= 0 {
          SemAt(k, s);
          NoToken(k.tasks, k.sems[s], s, t, x.(at := Outside));
          SemMoveKeeps(k, t, x.(at := Outside), s, k.sems[s]);
          assert k.sems[s := k.sems[s]] == k.sems;
        } else {
          SemLoopKeeps(k, t, s, x.at.deadline);
        }
      case Mtx(m) =>
        MutexWakeup(k, t);
        if x.timedOut {
          InvMutex(k);
          GivesUp(k.tasks, k.mtxs, t);
          hide MutexInv;
          MutexMove(k, t, x.(at := Outside), k.mtxs);
        } else {
          MutexLoopKeeps(k, t, m, x.at.deadline);
        }
    }
  }

  predicate Passed(now: nat, deadline: nat) {
    deadline != 0 && now >= deadline
  }

  /** There is a token, or the mutex has been handed over. */
  predicate Served(k: Kernel, t: nat)
    requires t < |k.tasks| && k.tasks[t].at.Waiting?
  {
    match k.tasks[t].at.obj
    case Sem(s) => s < |k.sems| && k.sems[s].count > 0
    case Mtx(m) => m < |k.mtxs| && k.mtxs[m].owner == t
  }

  lemma GivesUp(tasks: seq<Task>, mtxs: seq<Mutex>, t: nat)
    requires MutexInv(tasks, mtxs) && t < |tasks| && TaskOk(tasks[t]) && tasks[t].timedOut && tasks[t].blocked.None?
    requires tasks[t].at.Waiting? && tasks[t].at.obj.Mtx?
    ensures MutexInv(tasks[t := tasks[t].(at := Outside)], mtxs)
  {
    var q := tasks[t := tasks[t].(at := Outside)];
    assert Agrees(tasks[t], t, mtxs);
    forall i | 0 <= i < |mtxs|
      ensures OwnerOk(q, mtxs[i], i)
    {
      assert OwnerOk(tasks, mtxs[i], i);
      if mtxs[i].owner == t {
        OwnsNone(tasks, mtxs, t, i);
      }
    }
    forall u | 0 <= u < |q|
      ensures Agrees(q[u], u, mtxs) && Inherited(q[u], q, mtxs)
    {
      assert Agrees(tasks[u], u, mtxs) && Inherited(tasks[u], tasks, mtxs);
    }
  }

  // ----- Every step, every run -----

  lemma StepKeeps(k: Kernel, e: Event)
    requires Inv(k) && Legal(k, e)
    ensures Inv(Step(k, e).0)
  {
    hide Inv, SemLoop, MutexLock, MutexUnlock, SemPost, Recheck;
    match e {
      case SemWait(t, i, timeout) => SemLoopKeeps(k, t, i, Deadline(k.now, timeout));
      case Post(i) => PostKeeps(k, i);
      case Lock(t, i, timeout) => LockKeeps(k, t, i, Deadline(k.now, timeout));
      case Unlock(t, i) => UnlockKeeps(k, t, i);
      case Resume(t) => RecheckKeeps(k, t);
      case Timeout(t) => TimeoutKeeps(k, t);
      case Kill(t) =>
        TaskAt(k, t);
        WakeSem(k, t, k.tasks[t].timedOut);
      case Advance(n) => ClockKeeps(k, n);
    }
  }

  lemma ClockKeeps(k: Kernel, n: nat)
    requires Inv(k)
    ensures Inv(k.(now := k.now + n))
  {
  }

  function Run(k: Kernel, events: seq<Event>): (r: Kernel)
    decreases |events|
  {
    if events == [] then k
    else
      var l := Run(k, events[..|events| - 1]);
      var e := events[|events| - 1];
      if Legal(l, e) then Step(l, e).0 else l
  }

  /** Tasks outside any call, free mutexes, semaphores as initialised. */
  ghost predicate Fresh(k: Kernel) {
    && (forall t :: 0 <= t < |k.tasks| ==> FreshTask(k.tasks[t]))
    && (forall i :: 0 <= i < |k.mtxs| ==> k.mtxs[i] == Mutex(false, -1, 0))
    && (forall s :: 0 <= s < |k.sems| ==> k.sems[s] == Semaphore(k.sems[s].init, k.sems[s].init, 0, 0))
  }

  predicate FreshTask(x: Task) {
    x.prio == x.base < 256 && x.blocked.None? && x.at.Outside? && x.held.None?
  }

  lemma FreshInv(k: Kernel)
    requires Fresh(k)
    ensures Inv(k)
  {
    forall t | 0 <= t < |k.tasks|
      ensures TaskOk(k.tasks[t]) && Agrees(k.tasks[t], t, k.mtxs) && Inherited(k.tasks[t], k.tasks, k.mtxs)
    {
      assert FreshTask(k.tasks[t]);
    }
    forall i | 0 <= i < |k.mtxs|
      ensures OwnerOk(k.tasks, k.mtxs[i], i)
    {
    }
    forall s | 0 <= s < |k.sems|
      ensures SemOk(k.tasks, k.sems[s], s)
    {
    }
    assert BoostsOwned(k.tasks, k.mtxs);
  }

  lemma {:induction false} RunInv(k: Kernel, events: seq<Event>)
    requires Fresh(k)
    ensures Inv(Run(k, events))
    decreases |events|
  {
    hide Inv, Step, Legal;
    if events == [] {
      FreshInv(k);
    } else {
      RunInv(k, events[..|events| - 1]);
      var l, e := Run(k, events[..|events| - 1]), events[|events| - 1];
      if Legal(l, e) {
        StepKeeps(l, e);
      }
    }
  }

  // ----- What it says -----

  predicate Holds(k: Kernel, t: int, m: nat) {
    0 <= t < |k.tasks| && k.tasks[t].held == Some(m)
  }

  /** Mutexes in every reachable state: one holder at most, nobody asleep on an
      unlocked one, the owner at least as urgent as every sleeper, and boosts only
      on owners, whose saved priority is the one without boost. */
  lemma MutexProtocol(k: Kernel, events: seq<Event>)
    requires Fresh(k)
    ensures var r := Run(k, events);
            && (forall t, u, m :: Holds(r, t, m) && Holds(r, u, m) ==> t == u)
            && (forall m, t :: 0 <= m < |r.mtxs| && !r.mtxs[m].locked && 0 <= t < |r.tasks| ==>
                                  r.tasks[t].blocked != Some(Mtx(m)))
            && (forall m, t :: 0 <= m < |r.mtxs| && 0 <= t < |r.tasks| && r.tasks[t].blocked == Some(Mtx(m)) ==>
                                  0 <= r.mtxs[m].owner < |r.tasks| && r.tasks[r.mtxs[m].owner].prio <= r.tasks[t].prio)
            && (forall m :: 0 <= m < |r.mtxs| && r.mtxs[m].locked ==>
                                  0 <= r.mtxs[m].owner < |r.tasks| && r.mtxs[m].orig == r.tasks[r.mtxs[m].owner].base)
            && (forall t :: 0 <= t < |r.tasks| && (forall m :: 0 <= m < |r.mtxs| ==> r.mtxs[m].owner != t) ==>
                                  r.tasks[t].prio == r.tasks[t].base)
  {
    hide Run, Fresh;
    RunInv(k, events);
    var r := Run(k, events);
    InvMutex(r);
    hide Inv, TasksOk;
    forall t, u, m | Holds(r, t, m) && Holds(r, u, m)
      ensures t == u
    {
      assert Agrees(r.tasks[t], t, r.mtxs) && Agrees(r.tasks[u], u, r.mtxs);
    }
    forall m, t | 0 <= m < |r.mtxs| && 0 <= t < |r.tasks| && r.tasks[t].blocked == Some(Mtx(m))
      ensures r.mtxs[m].locked && 0 <= r.mtxs[m].owner < |r.tasks| && r.tasks[r.mtxs[m].owner].prio <= r.tasks[t].prio
    {
      assert Inherited(r.tasks[t], r.tasks, r.mtxs);
    }
    forall m | 0 <= m < |r.mtxs| && r.mtxs[m].locked
      ensures 0 <= r.mtxs[m].owner < |r.tasks| && r.mtxs[m].orig == r.tasks[r.mtxs[m].owner].base
    {
      assert OwnerOk(r.tasks, r.mtxs[m], m);
    }
  }

  /** Semaphores in every reachable state: tokens are conserved and never negative,
      and while anybody sleeps at least as many woken waiters as tokens are on their
      way to take them. */
  lemma SemaphoreProtocol(k: Kernel, events: seq<Event>, s: nat)
    requires Fresh(k) && s < |Run(k, events).sems|
    ensures var r := Run(k, events);
            && r.sems[s].count == r.sems[s].init + r.sems[s].posts - r.sems[s].takes
            && (r.sems[s].init >= 0 ==> r.sems[s].count >= 0)
            && (SomeBlocked(r.tasks, s) ==> |Woken(r.tasks, s)| >= r.sems[s].count)
  {
    hide Run, Fresh;
    RunInv(k, events);
    hide Inv, Woken, SomeBlocked;
    SemAt(Run(k, events), s);
  }
}
