/** What every interleaving of semaphore and mutex calls keeps. */
module IpcInv {
  import opened Basics
  import opened Ipc

  // ----- The invariant, task by task and object by object -----

  /** Priorities fit a byte; a blocked task stands in the wait it blocked for. */
  predicate TaskOk(x: Task) {
    && x.prio <= x.base < 256
    && (x.blocked.Some? ==> x.at.Waiting? && x.at.obj == x.blocked.value && !x.timedOut)
    && (x.at.Waiting? && x.at.obj.Mtx? ==> x.held.None?)
  }

  ghost predicate TasksOk(tasks: seq<Task>) {
    forall t :: 0 <= t < |tasks| ==> TaskOk(tasks[t])
  }

  /** A task in the mutex wait: handed over to exactly when woken by an unlock. */
  predicate MutexWaiter(x: Task, t: int, m: Mutex) {
    (x.blocked.None? && !x.timedOut) <==> m.owner == t
  }

  /** Holders and waiters agree with the mutex they name. */
  predicate Agrees(x: Task, t: int, mtxs: seq<Mutex>) {
    && (x.held.Some? ==> x.held.value < |mtxs| && mtxs[x.held.value].owner == t)
    && (x.at.Waiting? && x.at.obj.Mtx? ==> x.at.obj.i < |mtxs| && MutexWaiter(x, t, mtxs[x.at.obj.i]))
  }

  ghost predicate AllAgree(tasks: seq<Task>, mtxs: seq<Mutex>) {
    forall t :: 0 <= t < |tasks| ==> Agrees(tasks[t], t, mtxs)
  }

  /** The owner holds the mutex or is on its way out of the wait for it, and its
      saved priority is its priority without boost. */
  ghost predicate OwnerOk(tasks: seq<Task>, m: Mutex, i: nat) {
    if m.locked then
      && 0 <= m.owner < |tasks| && m.orig == tasks[m.owner].base
      && (tasks[m.owner].held == Some(i) || (tasks[m.owner].at.Waiting? && tasks[m.owner].at.obj == Mtx(i)))
    else m.owner == -1
  }

  ghost predicate OwnersOk(tasks: seq<Task>, mtxs: seq<Mutex>) {
    forall i :: 0 <= i < |mtxs| ==> OwnerOk(tasks, mtxs[i], i)
  }

  /** A blocked waiter waits for a locked mutex, whose owner is at least as urgent. */
  predicate Inherited(x: Task, tasks: seq<Task>, mtxs: seq<Mutex>) {
    x.blocked.Some? && x.blocked.value.Mtx? ==>
      && x.blocked.value.i < |mtxs| && mtxs[x.blocked.value.i].locked
      && 0 <= mtxs[x.blocked.value.i].owner < |tasks|
      && tasks[mtxs[x.blocked.value.i].owner].prio <= x.prio
  }

  ghost predicate AllInherited(tasks: seq<Task>, mtxs: seq<Mutex>) {
    forall t :: 0 <= t < |tasks| ==> Inherited(tasks[t], tasks, mtxs)
  }

  /** Only owners are boosted. */
  ghost predicate BoostsOwned(tasks: seq<Task>, mtxs: seq<Mutex>) {
    forall t :: 0 <= t < |tasks| && tasks[t].prio != tasks[t].base ==>
      exists i :: 0 <= i < |mtxs| && mtxs[i].owner == t
  }

  ghost predicate MutexInv(tasks: seq<Task>, mtxs: seq<Mutex>) {
    && AllAgree(tasks, mtxs) && OwnersOk(tasks, mtxs)
    && AllInherited(tasks, mtxs) && BoostsOwned(tasks, mtxs)
  }

  /** Woken waiters of semaphore `s` that have not rechecked yet. */
  function Woken(tasks: seq<Task>, s: nat): set<int> {
    set t | 0 <= t < |tasks| && tasks[t].at.Waiting? && tasks[t].at.obj == Sem(s) && tasks[t].blocked.None?
  }

  ghost predicate SomeBlocked(tasks: seq<Task>, s: nat) {
    exists t :: 0 <= t < |tasks| && tasks[t].blocked == Some(Sem(s))
  }

  /** Tokens are conserved, and none lies around while a waiter sleeps. */
  ghost predicate SemOk(tasks: seq<Task>, x: Semaphore, s: nat) {
    && x.count == x.init + x.posts - x.takes
    && (x.init >= 0 ==> x.count >= 0)
    && (SomeBlocked(tasks, s) ==> |Woken(tasks, s)| >= x.count)
  }

  ghost predicate SemsOk(tasks: seq<Task>, sems: seq<Semaphore>) {
    forall s :: 0 <= s < |sems| ==> SemOk(tasks, sems[s], s)
  }

  ghost predicate SemNamed(tasks: seq<Task>, n: nat) {
    forall t :: 0 <= t < |tasks| && tasks[t].at.Waiting? && tasks[t].at.obj.Sem? ==> tasks[t].at.obj.i < n
  }

  ghost predicate Inv(k: Kernel) {
    TasksOk(k.tasks) && MutexInv(k.tasks, k.mtxs) && SemsOk(k.tasks, k.sems) && SemNamed(k.tasks, |k.sems|)
  }

  // ----- Tasks that change in ways a mutex does not see -----

  /** `x` and `y` look the same to every mutex. */
  predicate SameForMutex(x: Task, y: Task) {
    && x.prio == y.prio && x.base == y.base && x.held == y.held
    && (x.blocked.Some? && x.blocked.value.Mtx? <==> y.blocked.Some? && y.blocked.value.Mtx?)
    && (x.at.Waiting? && x.at.obj.Mtx? <==> y.at.Waiting? && y.at.obj.Mtx?)
    && (x.at.Waiting? && x.at.obj.Mtx? ==> x == y)
    && (x.blocked.Some? && x.blocked.value.Mtx? ==> x == y)
  }

  lemma MutexFrame(tasks: seq<Task>, mtxs: seq<Mutex>, t: nat, y: Task)
    requires MutexInv(tasks, mtxs) && t < |tasks| && SameForMutex(tasks[t], y)
    ensures MutexInv(tasks[t := y], mtxs)
  {
    var q := tasks[t := y];
    assert AllAgree(q, mtxs);
    assert OwnersOk(q, mtxs);
    AgreeFrame(tasks, mtxs, t, y);
  }

  lemma AgreeFrame(tasks: seq<Task>, mtxs: seq<Mutex>, t: nat, y: Task)
    requires AllInherited(tasks, mtxs) && BoostsOwned(tasks, mtxs) && t < |tasks| && SameForMutex(tasks[t], y)
    ensures AllInherited(tasks[t := y], mtxs) && BoostsOwned(tasks[t := y], mtxs)
  {
    var q := tasks[t := y];
    forall u | 0 <= u < |q|
      ensures Inherited(q[u], q, mtxs)
    {
      assert Inherited(tasks[u], tasks, mtxs);
    }
  }

  // ----- Semaphores -----

  lemma OneMore(a: set<nat>, t: nat)
    ensures |a + {t}| == |a| + if t in a then 0 else 1
  {
    if t in a {
      assert a + {t} == a;
    }
  }

  lemma OneLess(a: set<nat>, t: nat)
    ensures |a - {t}| == |a| - if t in a then 1 else 0
  {
    if t !in a {
      assert a - {t} == a;
    }
  }

  /** One task changes; no other semaphore notices. */
  lemma WokenOne(tasks: seq<Task>, t: nat, y: Task, s: nat)
    requires t < |tasks|
    ensures var a, b := Woken(tasks, s), Woken(tasks[t := y], s);
            && (t in b <==> y.at.Waiting? && y.at.obj == Sem(s) && y.blocked.None?)
            && b == (if t in b then a + {t} else a - {t})
            && |b| == |a| + (if t in b && t !in a then 1 else 0) - (if t !in b && t in a then 1 else 0)
  {
    var a, b := Woken(tasks, s), Woken(tasks[t := y], s);
    assert forall u :: u != t ==> (u in b <==> u in a);
    hide Woken;
    if t in b {
      assert b == a + {t};
      OneMore(a, t);
    } else {
      assert b == a - {t};
      OneLess(a, t);
    }
  }

  /** A semaphore other than `s` is untouched when a task that only waits for `s`
      changes and still waits for nothing else. */
  lemma OtherSems(tasks: seq<Task>, sems: seq<Semaphore>, t: nat, y: Task, s: nat)
    requires SemsOk(tasks, sems) && t < |tasks|
    requires forall r :: r != s ==> (tasks[t].at.Waiting? && tasks[t].at.obj == Sem(r) && tasks[t].blocked.None? ==>
                                     y.at == tasks[t].at && y.blocked.None?)
    requires forall r :: r != s ==> y.blocked != Some(Sem(r))
    ensures forall r :: 0 <= r < |sems| && r != s ==> SemOk(tasks[t := y], sems[r], r)
  {
    forall r | 0 <= r < |sems| && r != s
      ensures SemOk(tasks[t := y], sems[r], r)
    {
      assert SemOk(tasks, sems[r], r);
      WokenOne(tasks, t, y, r);
      if SomeBlocked(tasks[t := y], r) {
        var u :| 0 <= u < |tasks| && tasks[t := y][u].blocked == Some(Sem(r));
        assert tasks[u].blocked == Some(Sem(r));
      }
    }
  }

  /** Task `t` becomes `y`, which differs from it only as a waiter for semaphore `s`. */
  predicate SemMove(x: Task, y: Task, s: nat) {
    && y.prio == x.prio && y.base == x.base && y.held == x.held
    && (x.at.Outside? || x.at.obj == Sem(s)) && (y.at.Outside? || y.at.obj == Sem(s))
    && (x.blocked.None? || x.blocked.value == Sem(s)) && (y.blocked.None? || y.blocked.value == Sem(s))
    && (y.blocked.Some? ==> y.at.Waiting? && !y.timedOut)
  }

  lemma SemMoveKeeps(k: Kernel, t: nat, y: Task, s: nat, v: Semaphore)
    requires Inv(k) && t < |k.tasks| && s < |k.sems| && SemMove(k.tasks[t], y, s)
    requires SemOk(k.tasks[t := y], v, s)
    ensures Inv(SetTask(k, t, y).(sems := k.sems[s := v]))
  {
    hide MutexInv, SemOk, SemsOk;
    assert MutexInv(k.tasks[t := y], k.mtxs) by { MutexFrame(k.tasks, k.mtxs, t, y); }
    OtherSems(k.tasks, k.sems, t, y, s);
    SemsOkFrom(k.tasks[t := y], k.sems, s, v);
  }

  lemma SemsOkFrom(tasks: seq<Task>, sems: seq<Semaphore>, s: nat, v: Semaphore)
    requires s < |sems| && SemOk(tasks, v, s)
    requires forall r :: 0 <= r < |sems| && r != s ==> SemOk(tasks, sems[r], r)
    ensures SemsOk(tasks, sems[s := v])
  {
    hide SemOk;
  }

  lemma SemAt(k: Kernel, s: nat)
    requires Inv(k) && s < |k.sems|
    ensures SemOk(k.tasks, k.sems[s], s)
  {
    hide MutexInv;
  }

  /** The task sleeps on `obj`, until a wake-up or its deadline. */
  predicate AsleepOn(x: Task, obj: Obj, deadline: nat) {
    x.blocked == Some(obj) && x.at == Waiting(obj, deadline) && !x.timedOut
  }

  /** A wait takes a token exactly when it returns 0, at once if there is one; it returns -1
      exactly if there is none and a deadline was set and has come; else the task sleeps. */
  lemma SemLoopKeeps(k: Kernel, t: nat, s: nat, deadline: nat)
    requires Inv(k) && Runnable(k, t) && s < |k.sems|
    requires k.tasks[t].at.Outside? || k.tasks[t].at.obj == Sem(s)
    ensures var r := SemLoop(k, t, s, deadline);
            && Inv(r.0)
            && r.0.sems[s].takes == k.sems[s].takes + (if r.1 == Returned(0) then 1 else 0)
            && (r.1 == Returned(0) <==> k.sems[s].count > 0)
            && (r.1 == Returned(-1) <==> k.sems[s].count <= 0 && deadline != 0 && k.now >= deadline)
            && (r.1 != Returned(0) && r.1 != Returned(-1) ==>
                  r.1 == Pending && AsleepOn(r.0.tasks[t], Sem(s), deadline))
  {
    hide MutexInv, SemsOk, Inv, SemOk;
    SemAt(k, s);
    var r := SemLoop(k, t, s, deadline);
    var y, v := r.0.tasks[t], r.0.sems[s];
    if k.sems[s].count > 0 {
      TakeToken(k.tasks, k.sems[s], s, t, y);
    } else {
      NoToken(k.tasks, k.sems[s], s, t, y);
    }
    SemMoveKeeps(k, t, y, s, v);
    assert r.0 == SetTask(k, t, y).(sems := k.sems[s := v]);
  }

  /** One token less, at most one woken waiter less. */
  lemma TakeToken(tasks: seq<Task>, x: Semaphore, s: nat, t: nat, y: Task)
    requires SemOk(tasks, x, s) && x.count > 0 && t < |tasks| && tasks[t].blocked.None? && y.blocked.None?
    ensures SemOk(tasks[t := y], x.(count := x.count - 1, takes := x.takes + 1), s)
  {
    WokenOne(tasks, t, y, s);
    if SomeBlocked(tasks[t := y], s) {
      var u :| 0 <= u < |tasks| && tasks[t := y][u].blocked == Some(Sem(s));
      assert tasks[u].blocked == Some(Sem(s));
    }
    hide Woken;
  }

  lemma NoToken(tasks: seq<Task>, x: Semaphore, s: nat, t: nat, y: Task)
    requires SemOk(tasks, x, s) && x.count <= 0 && t < |tasks|
    ensures SemOk(tasks[t := y], x, s)
  {
    hide Woken;
  }

  lemma TaskAt(k: Kernel, t: nat)
    requires Inv(k) && t < |k.tasks|
    ensures TaskOk(k.tasks[t])
  {
    hide MutexInv, SemsOk;
  }

  ghost predicate SleepsOn(tasks: seq<Task>, obj: Obj, u: nat) {
    u < |tasks| && tasks[u].blocked == Some(obj)
  }

  /** Task `b` sleeps, no sleeper is more urgent, and no earlier one as urgent. */
  ghost predicate Foremost(tasks: seq<Task>, obj: Obj, b: nat) {
    && SleepsOn(tasks, obj, b)
    && (forall u: nat :: SleepsOn(tasks, obj, u) ==> tasks[b].prio <= tasks[u].prio)
    && (forall u: nat :: SleepsOn(tasks, obj, u) && u < b ==> tasks[b].prio < tasks[u].prio)
  }

  /** Task `b` is the one that is woken, and nobody else notices. */
  ghost predicate WokenAlone(before: seq<Task>, after: seq<Task>, obj: Obj, b: nat) {
    Foremost(before, obj, b) && after == before[b := before[b].(blocked := None, timedOut := false)]
  }

  ghost predicate WakesMostUrgent(before: seq<Task>, after: seq<Task>, obj: Obj) {
    if exists u: nat :: SleepsOn(before, obj, u) then exists b: nat :: WokenAlone(before, after, obj, b)
    else after == before
  }

  lemma WakesBest(k: Kernel, obj: Obj)
    requires forall u :: 0 <= u < |k.tasks| ==> k.tasks[u].prio < 256
    ensures WakesMostUrgent(k.tasks, WakeOne(k, obj).0.tasks, obj)
    ensures WakeOne(k, obj).1 >= 0 <==> exists u: nat :: SleepsOn(k.tasks, obj, u)
    ensures WakeOne(k, obj).1 >= 0 ==> WokenAlone(k.tasks, WakeOne(k, obj).0.tasks, obj, WakeOne(k, obj).1)
  {
    var b := Best(k.tasks, obj, |k.tasks|);
    if b >= 0 {
      assert SleepsOn(k.tasks, obj, b);
      assert WokenAlone(k.tasks, WakeOne(k, obj).0.tasks, obj, b);
    }
  }

  lemma PriosBounded(k: Kernel)
    requires Inv(k)
    ensures forall u :: 0 <= u < |k.tasks| ==> k.tasks[u].prio < 256
  {
    hide Inv;
    forall u | 0 <= u < |k.tasks|
      ensures k.tasks[u].prio < 256
    {
      TaskAt(k, u);
    }
  }

  /** A post adds a token and wakes the most urgent sleeper, if anybody sleeps. */
  lemma PostKeeps(k: Kernel, s: nat)
    requires Inv(k) && s < |k.sems|
    ensures Inv(SemPost(k, s)) && SemPost(k, s).sems[s].count == k.sems[s].count + 1
    ensures WakesMostUrgent(k.tasks, SemPost(k, s).tasks, Sem(s))
  {
    hide WakesMostUrgent, WokenAlone, MutexInv, SemsOk, Inv;
    PriosBounded(k);
    WakesBest(k.(sems := k.sems[s := k.sems[s].(count := k.sems[s].count + 1, posts := k.sems[s].posts + 1)]), Sem(s));
    SemAt(k, s);
    var x := k.sems[s];
    var v := x.(count := x.count + 1, posts := x.posts + 1);
    var b := Best(k.tasks, Sem(s), |k.tasks|);
    if b < 0 {
      forall u | 0 <= u < |k.tasks|
        ensures k.tasks[u].blocked != Some(Sem(s))
      {
        TaskAt(k, u);
      }
      assert SemOk(k.tasks, v, s);
      NothingMoves(k, s, v);
    } else {
      var y := k.tasks[b].(blocked := None, timedOut := false);
      TaskAt(k, b);
      WakeToken(k.tasks, x, s, b, y);
      hide SemOk;
      SemMoveKeeps(k, b, y, s, v);
    }
  }

  /** One token more, one woken waiter more. */
  lemma WakeToken(tasks: seq<Task>, x: Semaphore, s: nat, b: nat, y: Task)
    requires SemOk(tasks, x, s) && b < |tasks| && tasks[b].blocked == Some(Sem(s))
    requires y.blocked.None? && y.at.Waiting? && y.at.obj == Sem(s)
    ensures SemOk(tasks[b := y], x.(count := x.count + 1, posts := x.posts + 1), s)
  {
    WokenOne(tasks, b, y, s);
    assert SomeBlocked(tasks, s);
    assert b !in Woken(tasks, s);
    hide Woken;
  }

  lemma NothingMoves(k: Kernel, s: nat, v: Semaphore)
    requires Inv(k) && s < |k.sems| && SemOk(k.tasks, v, s)
    ensures Inv(k.(sems := k.sems[s := v]))
  {
    hide MutexInv, SemOk;
  }

  // ----- Mutexes -----

  /** A task that neither holds a mutex nor was handed one owns none. */
  lemma OwnsNone(tasks: seq<Task>, mtxs: seq<Mutex>, t: nat, i: nat)
    requires MutexInv(tasks, mtxs) && t < |tasks| && i < |mtxs| && mtxs[i].owner == t
    ensures tasks[t].held == Some(i)
         || (tasks[t].at.Waiting? && tasks[t].at.obj == Mtx(i) && tasks[t].blocked.None? && !tasks[t].timedOut)
  {
    assert OwnerOk(tasks, mtxs[i], i);
    assert Agrees(tasks[t], t, mtxs);
  }

  /** Semaphores do not see a task that is no waiter of theirs before or after. */
  lemma SemsBlind(tasks: seq<Task>, sems: seq<Semaphore>, t: nat, y: Task)
    requires SemsOk(tasks, sems) && t < |tasks|
    requires tasks[t].at == y.at
        || ((tasks[t].at.Waiting? ==> tasks[t].at.obj.Mtx?) && (y.at.Waiting? ==> y.at.obj.Mtx?))
    requires tasks[t].blocked == y.blocked
          || ((tasks[t].blocked.Some? ==> tasks[t].blocked.value.Mtx?) && (y.blocked.Some? ==> y.blocked.value.Mtx?)
              && (y.at.Waiting? ==> y.at.obj.Mtx?))
    ensures SemsOk(tasks[t := y], sems)
  {
    forall r | 0 <= r < |sems|
      ensures SemOk(tasks[t := y], sems[r], r)
    {
      assert SemOk(tasks, sems[r], r);
      WokenOne(tasks, t, y, r);
      if SomeBlocked(tasks[t := y], r) {
        var u :| 0 <= u < |tasks| && tasks[t := y][u].blocked == Some(Sem(r));
        assert tasks[u].blocked == Some(Sem(r));
      }
    }
  }

  /** A mutex step changes one task that is no semaphore waiter and one mutex. */
  lemma MutexMove(k: Kernel, t: nat, y: Task, mtxs: seq<Mutex>)
    requires Inv(k) && t < |k.tasks| && TaskOk(y) && MutexInv(k.tasks[t := y], mtxs)
    requires (k.tasks[t].at == y.at && k.tasks[t].blocked == y.blocked)
          || ((k.tasks[t].at.Waiting? ==> k.tasks[t].at.obj.Mtx?) && (y.at.Waiting? ==> y.at.obj.Mtx?)
              && (k.tasks[t].blocked.Some? ==> k.tasks[t].blocked.value.Mtx?)
              && (y.blocked.Some? ==> y.blocked.value.Mtx?))
    ensures Inv(SetTask(k, t, y).(mtxs := mtxs))
  {
    hide MutexInv, SemsOk;
    SemsBlind(k.tasks, k.sems, t, y);
  }

  lemma InvMutex(k: Kernel)
    requires Inv(k)
    ensures MutexInv(k.tasks, k.mtxs) && TasksOk(k.tasks)
  {
  }

  /** Taking a free mutex. */
  lemma TakeFree(tasks: seq<Task>, mtxs: seq<Mutex>, t: nat, m: nat)
    requires MutexInv(tasks, mtxs) && TasksOk(tasks) && t < |tasks| && m < |mtxs|
    requires tasks[t].blocked.None? && tasks[t].at.Outside? && tasks[t].held.None? && !mtxs[m].locked
    ensures MutexInv(tasks[t := tasks[t].(held := Some(m))], mtxs[m := Mutex(true, t, tasks[t].prio)])
  {
    var q, n := tasks[t := tasks[t].(held := Some(m))], mtxs[m := Mutex(true, t, tasks[t].prio)];
    assert OwnerOk(tasks, mtxs[m], m);
    if tasks[t].prio != tasks[t].base {
      var i :| 0 <= i < |mtxs| && mtxs[i].owner == t;
      OwnsNone(tasks, mtxs, t, i);
    }
    TakeAgree(tasks, mtxs, t, m);
    TakeOwners(tasks, mtxs, t, m);
    TakeInherited(tasks, mtxs, t, m);
  }

  lemma TakeAgree(tasks: seq<Task>, mtxs: seq<Mutex>, t: nat, m: nat)
    requires MutexInv(tasks, mtxs) && TasksOk(tasks) && t < |tasks| && m < |mtxs|
    requires tasks[t].blocked.None? && tasks[t].at.Outside? && tasks[t].held.None? && !mtxs[m].locked
    ensures AllAgree(tasks[t := tasks[t].(held := Some(m))], mtxs[m := Mutex(true, t, tasks[t].prio)])
  {
    var q, n := tasks[t := tasks[t].(held := Some(m))], mtxs[m := Mutex(true, t, tasks[t].prio)];
    assert OwnerOk(tasks, mtxs[m], m);
    forall u | 0 <= u < |q|
      ensures Agrees(q[u], u, n)
    {
      assert Agrees(tasks[u], u, mtxs) && Inherited(tasks[u], tasks, mtxs) && TaskOk(tasks[u]);
    }
  }

  lemma TakeOwners(tasks: seq<Task>, mtxs: seq<Mutex>, t: nat, m: nat)
    requires MutexInv(tasks, mtxs) && t < |tasks| && m < |mtxs| && tasks[t].prio == tasks[t].base
    requires tasks[t].blocked.None? && tasks[t].at.Outside? && tasks[t].held.None?
    ensures OwnersOk(tasks[t := tasks[t].(held := Some(m))], mtxs[m := Mutex(true, t, tasks[t].prio)])
    ensures BoostsOwned(tasks[t := tasks[t].(held := Some(m))], mtxs[m := Mutex(true, t, tasks[t].prio)])
         <== !mtxs[m].locked
  {
    var q, n := tasks[t := tasks[t].(held := Some(m))], mtxs[m := Mutex(true, t, tasks[t].prio)];
    forall i | 0 <= i < |n|
      ensures OwnerOk(q, n[i], i)
    {
      assert OwnerOk(tasks, mtxs[i], i);
    }
    forall u | 0 <= u < |q| && q[u].prio != q[u].base && !mtxs[m].locked
      ensures exists i :: 0 <= i < |n| && n[i].owner == u
    {
      var i :| 0 <= i < |mtxs| && mtxs[i].owner == u;
      assert OwnerOk(tasks, mtxs[m], m) && i != m;
      assert n[i].owner == u;
    }
  }

  lemma TakeInherited(tasks: seq<Task>, mtxs: seq<Mutex>, t: nat, m: nat)
    requires AllInherited(tasks, mtxs) && t < |tasks| && m < |mtxs| && tasks[t].blocked.None? && !mtxs[m].locked
    ensures AllInherited(tasks[t := tasks[t].(held := Some(m))], mtxs[m := Mutex(true, t, tasks[t].prio)])
  {
    var q, n := tasks[t := tasks[t].(held := Some(m))], mtxs[m := Mutex(true, t, tasks[t].prio)];
    forall u | 0 <= u < |q|
      ensures Inherited(q[u], q, n)
    {
      assert Inherited(tasks[u], tasks, mtxs);
    }
  }

  /** Boosting the owner of a mutex. */
  lemma BoostKeeps(k: Kernel, t: nat, m: nat)
    requires Inv(k) && t < |k.tasks| && m < |k.mtxs| && k.mtxs[m].locked
    ensures Inv(Boost(k, t, k.mtxs[m].owner))
    ensures 0 <= k.mtxs[m].owner < |k.tasks|
    ensures k.mtxs[m].owner != t ==> Boost(k, t, k.mtxs[m].owner).tasks[t] == k.tasks[t]
    ensures Boost(k, t, k.mtxs[m].owner).tasks[k.mtxs[m].owner].prio <= k.tasks[t].prio
  {
    hide SemsOk;
    var o := k.mtxs[m].owner;
    assert OwnerOk(k.tasks, k.mtxs[m], m);
    if k.tasks[t].prio < k.tasks[o].prio {
      var y := k.tasks[o].(prio := k.tasks[t].prio);
      TaskAt(k, o);
      BoostMutex(k.tasks, k.mtxs, o, k.tasks[t].prio, m);
      hide MutexInv;
      MutexMove(k, o, y, k.mtxs);
    }
  }

  lemma BoostMutex(tasks: seq<Task>, mtxs: seq<Mutex>, o: nat, p: nat, m: nat)
    requires MutexInv(tasks, mtxs) && o < |tasks| && TaskOk(tasks[o]) && p < tasks[o].prio && m < |mtxs|
    requires mtxs[m].owner == o && mtxs[m].locked
    ensures MutexInv(tasks[o := tasks[o].(prio := p)], mtxs)
  {
    var q := tasks[o := tasks[o].(prio := p)];
    OwnsNone(tasks, mtxs, o, m);
    assert Agrees(tasks[o], o, mtxs);
    forall u | 0 <= u < |q|
      ensures Inherited(q[u], q, mtxs)
    {
      assert Inherited(tasks[u], tasks, mtxs) && Agrees(tasks[u], u, mtxs);
    }
    forall u | 0 <= u < |q| && q[u].prio != q[u].base
      ensures exists i :: 0 <= i < |mtxs| && mtxs[i].owner == u
    {
      if u == o {
        assert mtxs[m].owner == o;
      }
    }
    BoostRest(tasks, mtxs, o, p);
  }

  lemma BoostRest(tasks: seq<Task>, mtxs: seq<Mutex>, o: nat, p: nat)
    requires AllAgree(tasks, mtxs) && OwnersOk(tasks, mtxs) && o < |tasks|
    ensures AllAgree(tasks[o := tasks[o].(prio := p)], mtxs) && OwnersOk(tasks[o := tasks[o].(prio := p)], mtxs)
  {
    var q := tasks[o := tasks[o].(prio := p)];
    forall i | 0 <= i < |mtxs|
      ensures OwnerOk(q, mtxs[i], i)
    {
      assert OwnerOk(tasks, mtxs[i], i);
    }
  }
}
