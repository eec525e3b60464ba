/** Bounded waiting under the round robin of kernel/sched.c. */
module SchedFair {
  import opened Sched
  import opened SchedInv
  import opened SchedMoves

  /** Passing over slot `i` brings the round closer to it. */
  lemma Closer(n: nat, cur: int, p: int, i: int)
    requires 0 <= cur < n && 0 <= p < n && 0 <= i < n && p != i && Dist(n, cur, p) <= Dist(n, cur, i)
    ensures 1 <= Dist(n, p, i) < Dist(n, cur, i)
  {
  }

  /** Slot `i` can run on core `c` and no candidate there is more urgent. */
  ghost predicate Waits(tasks: seq<Tcb>, c: nat, cur: int, i: int) {
    && Candidate(tasks, c, cur, i) && tasks[i].prio <= IDLE_PRIO
    && forall j :: Candidate(tasks, c, cur, j) ==> tasks[i].prio <= tasks[j].prio
  }

  /** One call of schedule: the waiting task is chosen, or the distance to it shrinks. */
  lemma OneCall(tasks: seq<Tcb>, c: nat, cur: int, i: int)
    requires 0 <= cur < |tasks| && Waits(tasks, c, cur, i)
    ensures var p := PickNext(tasks, c, cur);
            0 <= p < |tasks| && (p != i ==> Dist(|tasks|, p, i) < Dist(|tasks|, cur, i))
  {
    PickIsBest(tasks, c, cur, i);
    var p := PickNext(tasks, c, cur);
    if p != i {
      Closer(|tasks|, cur, p, i);
    }
  }

  // ----- Runs -----

  /** Event `e` is a choice core `c` makes: its call of pick_next. */
  predicate Chooses(k: Kernel, e: Event, c: nat) {
    e == Pick(c) && Legal(k, e)
  }

  function Choice(k: Kernel, c: nat): int
    requires InPhase(k, c, Reaped)
  {
    PickNext(k.tasks, c, k.cores[c].current)
  }

  /** How many choices core `c` makes in a run. */
  function Choices(k: Kernel, events: seq<Event>, c: nat): nat
    decreases |events|
  {
    if events == [] then 0
    else
      var front := events[..|events| - 1];
      Choices(k, front, c) + if Chooses(Run(k, front), events[|events| - 1], c) then 1 else 0
  }

  /** Whenever core `c` chooses, task `i` can run there and nobody is more urgent. */
  ghost predicate StaysReady(k: Kernel, events: seq<Event>, c: nat, i: int) {
    forall m :: 0 <= m < |events| ==> ReadyAt(Run(k, events[..m]), events[m], c, i)
  }

  ghost predicate ReadyAt(k: Kernel, e: Event, c: nat, i: int) {
    Chooses(k, e, c) ==> Waits(k.tasks, c, k.cores[c].current, i)
  }

  /** The m-th event of the run is core `c` choosing task `i`. */
  ghost predicate ChosenAt(k: Kernel, events: seq<Event>, c: nat, i: int, m: nat) {
    m < |events| && Chooses(Run(k, events[..m]), events[m], c) && Choice(Run(k, events[..m]), c) == i
  }

  ghost predicate On(k: Kernel, c: nat) {
    c < |k.cores| && k.cores[c].started && 0 <= k.cores[c].current < |k.tasks|
    && (k.cores[c].phase.Picked? ==> 0 <= k.cores[c].phase.next < |k.tasks|)
  }

  /** How far the round of core `c` is from task `i`; a choice made counts already. */
  function Remaining(k: Kernel, c: nat, i: int): int
    requires c < |k.cores|
  {
    Dist(|k.tasks|, if k.cores[c].phase.Picked? then k.cores[c].phase.next else k.cores[c].current, i)
  }

  /** Between its own switches nothing changes which task is current on a core, nor a
      choice it has made. */
  lemma CurrentStays(k: Kernel, e: Event, c: nat)
    requires Safe(k) && Legal(k, e) && c < |k.cores| && e != Switch(c) && e != Start(c)
    ensures var r := Step(k, e).0;
            && |r.cores| == |k.cores|
            && r.cores[c].current == k.cores[c].current && r.cores[c].started == k.cores[c].started
            && (e != Pick(c) ==> r.cores[c].phase.Picked? == k.cores[c].phase.Picked?)
            && (e != Pick(c) && k.cores[c].phase.Picked? ==> r.cores[c].phase == k.cores[c].phase)
  {
    hide Safe, PickNext, BestBlocked, FreeSlot, PutRecord, LiveByPid, FindRecord, FirstReady, ChildAlive;
  }

  lemma SameSlots(k: Kernel, e: Event)
    requires Legal(k, e)
    ensures |Step(k, e).0.tasks| == |k.tasks|
  {
    hide PickNext, BestBlocked, FreeSlot, FreeRecord, OrphanRecord, LiveByPid, FindRecord, FirstReady, ChildAlive;
  }

  /** ... and its own switch makes the chosen task current. */
  lemma SwitchMakesCurrent(k: Kernel, c: nat)
    requires Safe(k) && Legal(k, Switch(c))
    ensures var r := Step(k, Switch(c)).0;
            && |r.cores| == |k.cores| && |r.tasks| == |k.tasks|
            && r.cores[c] == k.cores[c].(current := k.cores[c].phase.next, phase := InTask)
  {
  }

  /** One event of a run: a choice of somebody else brings core `c` closer to task `i`,
      and everything else leaves it where it is. */
  lemma OneEvent(k: Kernel, e: Event, c: nat, i: int)
    requires Safe(k) && Legal(k, e) && On(k, c) && 0 <= i < |k.tasks| && ReadyAt(k, e, c, i)
    requires Chooses(k, e, c) ==> Choice(k, c) != i
    ensures var r := Step(k, e).0;
            && On(r, c) && |r.tasks| == |k.tasks|
            && Remaining(r, c, i) <= Remaining(k, c, i) - if Chooses(k, e, c) then 1 else 0
  {
    hide Safe, PickNext, Waits, Step, Legal;
    if e == Switch(c) {
      SwitchPhase(k, c);
      SwitchMakesCurrent(k, c);
    } else if e == Pick(c) {
      CurrentStays(k, e, c);
      SameSlots(k, e);
      OneCall(k.tasks, c, k.cores[c].current, i);
      PickedPhase(k, c);
    } else {
      NotStarted(k, e, c);
      CurrentStays(k, e, c);
      SameSlots(k, e);
    }
  }

  lemma SwitchPhase(k: Kernel, c: nat)
    requires Legal(k, Switch(c))
    ensures k.cores[c].phase.Picked?
  {
  }

  lemma PickedPhase(k: Kernel, c: nat)
    requires Legal(k, Pick(c))
    ensures !k.cores[c].phase.Picked? && Step(k, Pick(c)).0.cores[c].phase == Picked(Choice(k, c))
  {
    hide PickNext;
  }

  lemma NotStarted(k: Kernel, e: Event, c: nat)
    requires On(k, c) && Legal(k, e)
    ensures e != Start(c)
  {
  }

  /** As long as task `i` is not chosen, every choice uses up one step of the round. */
  lemma {:induction false} RoundShrinks(k: Kernel, events: seq<Event>, c: nat, i: int)
    requires Safe(k) && On(k, c) && 0 <= i < |k.tasks| && StaysReady(k, events, c, i)
    requires forall m :: 0 <= m < |events| ==> !ChosenAt(k, events, c, i, m)
    ensures var r := Run(k, events);
            && Safe(r) && On(r, c) && |r.tasks| == |k.tasks|
            && Choices(k, events, c) + Remaining(r, c, i) <= Remaining(k, c, i)
    decreases |events|
  {
    hide Safe, Step, Legal, On, Remaining, Waits, Chooses, ReadyAt, Choice;
    if events != [] {
      var n := |events| - 1;
      var front, e := events[..n], events[n];
      forall m | 0 <= m < n
        ensures ReadyAt(Run(k, front[..m]), front[m], c, i) && !ChosenAt(k, front, c, i, m)
      {
        assert front[..m] == events[..m] && !ChosenAt(k, events, c, i, m);
      }
      RoundShrinks(k, front, c, i);
      assert ReadyAt(Run(k, events[..n]), events[n], c, i) && !ChosenAt(k, events, c, i, n);
      if Legal(Run(k, front), e) {
        OneEvent(Run(k, front), e, c, i);
        StepSafe(Run(k, front), e);
      } else {
        IllegalIsNoChoice(Run(k, front), e, c);
      }
    }
  }

  lemma IllegalIsNoChoice(k: Kernel, e: Event, c: nat)
    requires !Legal(k, e)
    ensures !Chooses(k, e, c)
  {
  }

  /** The first event with which core `c` chooses task `i`. */
  lemma {:induction false} FirstChosen(k: Kernel, events: seq<Event>, c: nat, i: int, n: nat) returns (m: nat)
    requires n < |events| && ChosenAt(k, events, c, i, n)
    ensures m <= n && ChosenAt(k, events, c, i, m) && forall j :: 0 <= j < m ==> !ChosenAt(k, events, c, i, j)
    decreases n
  {
    hide ChosenAt;
    if j :| 0 <= j < n && ChosenAt(k, events, c, i, j) {
      m := FirstChosen(k, events, c, i, j);
    } else {
      m := n;
    }
  }

  /** ... nobody is more urgent than task `i`. */
  ghost predicate NobodyAhead(k: Kernel, events: seq<Event>, c: nat, i: nat) {
    forall m :: 0 <= m < |events| ==> NotAhead(Run(k, events[..m]), events[m], c, i)
  }

  ghost predicate NotAhead(k: Kernel, e: Event, c: nat, i: nat) {
    Chooses(k, e, c) && i < |k.tasks| ==>
      forall j :: Candidate(k.tasks, c, k.cores[c].current, j) ==> k.tasks[i].prio <= k.tasks[j].prio
  }

  /** A task that does not stop itself is a candidate whenever its core chooses. */
  lemma StaysCandidate(k: Kernel, events: seq<Event>, c: nat, i: nat)
    requires Safe(k) && i < |k.tasks| && k.tasks[i].owner == c && Runnable(k.tasks[i])
    requires NeverStops(k, events, i) && NobodyAhead(k, events, c, i)
    ensures StaysReady(k, events, c, i)
  {
    hide Safe, Chooses, StopsAt, Candidate, Run;
    forall m | 0 <= m < |events|
      ensures ReadyAt(Run(k, events[..m]), events[m], c, i)
    {
      var front := events[..m];
      forall l | 0 <= l < m
        ensures !StopsAt(Run(k, front[..l]), front[l], i)
      {
        assert front[..l] == events[..l];
      }
      StaysRunnable(k, front, i);
      assert NotAhead(Run(k, events[..m]), events[m], c, i);
      if Chooses(Run(k, front), events[m], c) {
        ChooserThere(Run(k, front), events[m], c);
        RunnableIsCandidate(Run(k, front), c, i);
      }
    }
  }

  lemma ChooserThere(k: Kernel, e: Event, c: nat)
    requires Chooses(k, e, c)
    ensures c < |k.cores|
  {
  }

  lemma RunnableIsCandidate(k: Kernel, c: nat, i: nat)
    requires Safe(k) && c < |k.cores| && i < |k.tasks| && k.tasks[i].owner == c && Runnable(k.tasks[i])
    ensures Candidate(k.tasks, c, k.cores[c].current, i) && k.tasks[i].prio <= IDLE_PRIO
  {
    TaskAt(k, i);
  }

  /** From every reachable state and in every run from there: a ready or running task that
      does not stop itself, with nobody more urgent when its core chooses, is chosen within
      as many choices of that core as there are task slots. */
  lemma RoundRobin(start: Kernel, past: seq<Event>, events: seq<Event>, c: nat, i: nat) returns (m: nat)
    requires Initial(start)
    requires var k := Run(start, past);
             && c < |k.cores| && k.cores[c].started && i < |k.tasks|
             && Runnable(k.tasks[i]) && k.tasks[i].owner == c && NeverStops(k, events, i)
             && NobodyAhead(k, events, c, i) && Choices(k, events, c) >= |k.tasks|
    ensures var k := Run(start, past);
            ChosenAt(k, events, c, i, m) && Choices(k, events[..m], c) < |k.tasks|
  {
    hide Run, Initial, Choices, StaysReady, ChosenAt, Safe, NeverStops, NobodyAhead;
    RunSafe(start, past);
    StaysCandidate(Run(start, past), events, c, i);
    m := ChosenInTime(start, past, events, c, i);
  }

  /** ... whenever it is a candidate at each of these choices. */
  lemma ChosenInTime(start: Kernel, past: seq<Event>, events: seq<Event>, c: nat, i: int) returns (m: nat)
    requires Initial(start)
    requires var k := Run(start, past);
             && c < |k.cores| && k.cores[c].started && 0 <= i < |k.tasks|
             && StaysReady(k, events, c, i) && Choices(k, events, c) >= |k.tasks|
    ensures var k := Run(start, past);
            ChosenAt(k, events, c, i, m) && Choices(k, events[..m], c) < |k.tasks|
  {
    hide Run, Initial, Choices, StaysReady, ChosenAt, Safe;
    var k := Run(start, past);
    RunSafe(start, past);
    StartedOn(k, c);
    DistIs(|k.tasks|, if k.cores[c].phase.Picked? then k.cores[c].phase.next else k.cores[c].current, i);
    if forall j :: 0 <= j < |events| ==> !ChosenAt(k, events, c, i, j) {
      RoundShrinks(k, events, c, i);
      var r := Run(k, events);
      DistIs(|r.tasks|, if r.cores[c].phase.Picked? then r.cores[c].phase.next else r.cores[c].current, i);
      assert false;
    }
    var n: nat :| n < |events| && ChosenAt(k, events, c, i, n);
    m := FirstChosen(k, events, c, i, n);
    var before := events[..m];
    UntilChosen(k, events, c, i, m);
    RoundShrinks(k, before, c, i);
    var r := Run(k, before);
    DistIs(|r.tasks|, if r.cores[c].phase.Picked? then r.cores[c].phase.next else r.cores[c].current, i);
  }

  lemma StartedOn(k: Kernel, c: nat)
    requires Safe(k) && c < |k.cores| && k.cores[c].started
    ensures On(k, c)
  {
    CoreAt(k, c);
  }

  lemma UntilChosen(k: Kernel, events: seq<Event>, c: nat, i: int, m: nat)
    requires m <= |events| && StaysReady(k, events, c, i)
    requires forall j :: 0 <= j < m ==> !ChosenAt(k, events, c, i, j)
    ensures StaysReady(k, events[..m], c, i)
    ensures forall j :: 0 <= j < m ==> !ChosenAt(k, events[..m], c, i, j)
  {
    var before := events[..m];
    forall j | 0 <= j < m
      ensures ReadyAt(Run(k, before[..j]), before[j], c, i) && !ChosenAt(k, before, c, i, j)
    {
      assert before[..j] == events[..j] && !ChosenAt(k, events, c, i, j);
    }
  }
}
