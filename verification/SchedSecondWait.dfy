/** A run of the scheduler of kernel/sched.c in which a second wait sleeps although the
    child's exit is recorded: the parent waits again between the record and the moment
    the child becomes a zombie, after the child's wake-up has been spent. */
module SchedSecondWait {
  import opened Sched
  import opened SchedInv
  import opened SchedExit

  lemma RunMore(k: Kernel, events: seq<Event>, e: Event)
    requires Legal(Run(k, events), e)
    ensures Run(k, events + [e]) == Step(Run(k, events), e).0
  {
    assert (events + [e])[..|events|] == events;
  }

  /** Runs of runs. */
  lemma {:induction false} RunJoin(k: Kernel, a: seq<Event>, b: seq<Event>)
    ensures Run(k, a + b) == Run(Run(k, a), b)
    decreases |b|
  {
    hide Step, Legal;
    if b == [] {
      assert a + b == a;
    } else {
      var n := |b| - 1;
      RunJoin(k, a, b[..n]);
      assert (a + b)[..|a + b| - 1] == a + b[..n];
    }
  }

  /** One event. */
  lemma RunOne(k: Kernel, e: Event)
    requires Legal(k, e)
    ensures Run(k, [e]) == Step(k, e).0
  {
    assert [e][..0] == [];
  }

  const UNUSED_SLOT := Tcb(Unused, 0, 0, 0, 0, false, Nothing, false, 0)

  function Idle(c: nat, s: TaskState): Tcb {
    Tcb(s, IDLE_PRIO, c, c + 1, 0, false, Nothing, false, 0)
  }

  /** Two cores with four slots, before anything has started. */
  function Boot(): Kernel {
    Kernel([Idle(0, Ready), Idle(1, Ready), UNUSED_SLOT, UNUSED_SLOT],
           [Core(false, -1, -1, InTask), Core(false, -1, -1, InTask)], [Record(false, 0, 0, 0)], 3, [0, 1], map[], {})
  }

  function Parent(s: TaskState): Tcb {
    Tcb(s, 100, 0, 3, 0, false, Nothing, false, 0)
  }

  function Child(s: TaskState): Tcb {
    Tcb(s, 100, 1, 4, 3, true, Nothing, false, 0)
  }

  /** The parent with pid 3 on core 0, its child with pid 4 on core 1, and what is
      current on the cores. */
  function Family(idle0: TaskState, parent: TaskState, idle1: TaskState, child: TaskState, a: Core, b: Core): Kernel {
    Kernel([Idle(0, idle0), Idle(1, idle1), Parent(parent), Child(child)], [a, b], [Record(false, 0, 0, 0)], 5, [0, 1],
           map[], {})
  }

  lemma Slots4(tasks: seq<Tcb>)
    requires |tasks| == 4 && !tasks[0].state.Unused? && !tasks[1].state.Unused?
    ensures FreeSlot(tasks, 0) == if tasks[2].state.Unused? then 2 else FreeSlot(tasks, 3)
    ensures tasks[3].state.Unused? ==> FreeSlot(tasks, 3) == 3
  {
    assert FreeSlot(tasks, 0) == FreeSlot(tasks, 1) == FreeSlot(tasks, 2);
  }

  /** Both cores start, and the parent and its child are created. */
  lemma Started()
    ensures Run(Boot(), [Start(0), Start(1)])
         == Boot().(tasks := [Idle(0, Running), Idle(1, Running), UNUSED_SLOT, UNUSED_SLOT],
                    cores := [Core(true, 0, -1, InTask), Core(true, 1, -1, InTask)])
  {
    var k := Boot();
    assert FirstReady(k.tasks, 0, 4) == 0;
    RunOne(k, Start(0));
    var k1 := Step(k, Start(0)).0;
    assert FirstReady(k1.tasks, 1, 4) == 1;
    assert [Start(0)] + [Start(1)] == [Start(0), Start(1)];
    RunMore(k, [Start(0)], Start(1));
  }

  /** Both tasks have a slot, and the child is still being set up. */
  function SetUp(): Kernel {
    Boot().(tasks := [Idle(0, Running), Idle(1, Running), Tcb(Ready, 100, 0, 3, 0, false, Nothing, false, 0),
                      Tcb(Setup, 100, 1, 4, 0, false, Nothing, false, 0)],
            cores := [Core(true, 0, -1, InTask), Core(true, 1, -1, InTask)], nextPid := 5)
  }

  lemma TwoMade()
    ensures Run(Run(Boot(), [Start(0), Start(1)]), [CreateTask(0, 100, true), CreateTask(1, 100, false)]) == SetUp()
  {
    Started();
    var k := Run(Boot(), [Start(0), Start(1)]);
    var e1, e2 := CreateTask(0, 100, true), CreateTask(1, 100, false);
    hide Run;
    RunOne(k, e1);
    Slots4(k.tasks);
    RunMore(k, [e1], e2);
    Slots4(Step(k, e1).0.tasks);
    assert [e1] + [e2] == [e1, e2];
  }

  lemma Created()
    ensures Run(Run(Boot(), [Start(0), Start(1)]),
                    [CreateTask(0, 100, true), CreateTask(1, 100, false), Configure(3, 3), Admit(3)])
         == Family(Running, Ready, Running, Ready, Core(true, 0, -1, InTask), Core(true, 1, -1, InTask))
  {
    TwoMade();
    var k := Run(Boot(), [Start(0), Start(1)]);
    var e1, e2, e3, e4 := CreateTask(0, 100, true), CreateTask(1, 100, false), Configure(3, 3), Admit(3);
    hide Run;
    assert LiveByPid(SetUp().tasks, 3, 0) >= 0 by { assert SetUp().tasks[2].pid == 3; }
    RunMore(k, [e1, e2], e3);
    assert [e1, e2] + [e3] == [e1, e2, e3];
    RunMore(k, [e1, e2, e3], e4);
    assert [e1, e2, e3] + [e4] == [e1, e2, e3, e4];
  }

  /** A core in its idle task comes to its choice. */
  lemma Comes(k: Kernel, c: nat)
    requires c < |k.cores| && k.cores[c] == Core(true, c, -1, InTask) && c < |k.tasks| && k.tasks[c] == Idle(c, Running)
    ensures Run(k, [Yield(c), DoReap(c)]) == SetCore(k, c, Core(true, c, -1, Reaped))
  {
    hide Run;
    RunOne(k, Yield(c));
    RunMore(k, [Yield(c)], DoReap(c));
    assert [Yield(c)] + [DoReap(c)] == [Yield(c), DoReap(c)];
  }

  /** It chooses the urgent task it owns. */
  lemma Chosen(k: Kernel, c: nat, t: nat)
    requires c < |k.cores| && k.cores[c] == Core(true, c, -1, Reaped) && c < |k.tasks| && t < |k.tasks| && t != c
    requires k.tasks[c] == Idle(c, Running) && k.tasks[t].owner == c && k.tasks[t].state.Ready?
    requires k.tasks[t].prio == 100
    requires forall j :: 0 <= j < |k.tasks| && j != t && j != c ==> k.tasks[j].owner != c
    ensures Run(k, [Pick(c), Switch(c)])
         == k.(tasks := k.tasks[c := Idle(c, Ready)][t := k.tasks[t].(state := Running)],
               cores := k.cores[c := Core(true, t, -1, InTask)])
  {
    hide Run, PickNext;
    PickIsBest(k.tasks, c, c, t);
    assert PickNext(k.tasks, c, c) == t;
    RunOne(k, Pick(c));
    RunMore(k, [Pick(c)], Switch(c));
    assert [Pick(c)] + [Switch(c)] == [Pick(c), Switch(c)];
  }

  lemma Switched(k: Kernel, c: nat, t: nat)
    requires c < |k.cores| && k.cores[c] == Core(true, c, -1, InTask) && c < |k.tasks| && t < |k.tasks| && t != c
    requires k.tasks[c] == Idle(c, Running) && k.tasks[t].owner == c && k.tasks[t].state.Ready?
    requires k.tasks[t].prio == 100
    requires forall j :: 0 <= j < |k.tasks| && j != t && j != c ==> k.tasks[j].owner != c
    ensures Run(k, [Yield(c), DoReap(c)] + [Pick(c), Switch(c)])
         == k.(tasks := k.tasks[c := Idle(c, Ready)][t := k.tasks[t].(state := Running)],
               cores := k.cores[c := Core(true, t, -1, InTask)])
  {
    hide Run;
    RunJoin(k, [Yield(c), DoReap(c)], [Pick(c), Switch(c)]);
    Comes(k, c);
    Chosen(SetCore(k, c, Core(true, c, -1, Reaped)), c, t);
  }

  const RUNNING_FAMILY := Family(Ready, Running, Ready, Running, Core(true, 2, -1, InTask), Core(true, 3, -1, InTask))

  /** Task `i` sleeps for a child whose exit is recorded and collected, while core `c`
      has still to make the child a zombie. */
  ghost predicate SleepsBehind(k: Kernel, i: nat, c: nat) {
    && i < |k.tasks| && c < |k.cores| && SleepsFor(k.tasks[i])
    && k.tasks[i].waitFor in k.exits && k.tasks[i].waitFor in k.harvested
    && HasChild(k.tasks, k.tasks[i].waitFor, k.tasks[i].pid) && k.cores[c].phase.Exiting?
  }

  /** The child exits with code 7, the parent collects it, and waits once more. */
  lemma SecondWait()
    ensures SleepsBehind(Run(RUNNING_FAMILY, [Exit(1, 7), WaitPid(0, 4), WaitPid(0, 4)]), 2, 1)
  {
    var k := RUNNING_FAMILY;
    hide Run;
    var e1, e2 := Exit(1, 7), WaitPid(0, 4);
    var code := Exited(3, 7);
    assert LiveByPid(k.tasks, 3, 0) == 2 by { assert k.tasks[2].pid == 3; }
    assert FreeRecord(k.recs, 0) == 0;
    RunOne(k, e1);
    var k1 := Step(k, e1).0;
    assert k1 == k.(cores := [k.cores[0], Core(true, 3, -1, Exiting)], recs := [Record(true, 4, 3, 7)],
                    exits := map[4 := code]);
    assert FindRecord(k1.recs, 4, 3, 0) == 0;
    RunMore(k, [e1], e2);
    assert [e1] + [e2] == [e1, e2];
    var k2 := Step(k1, e2).0;
    assert k2 == k1.(recs := [Record(false, 4, 3, 7)], harvested := {4});
    assert FindRecord(k2.recs, 4, 3, 0) == -1;
    assert IsLiveChild(k2.tasks[3], 4, 3);
    RunMore(k, [e1, e2], e2);
    assert [e1, e2] + [e2] == [e1, e2, e2];
    assert IsLiveChild(Step(k2, e2).0.tasks[3], 4, 3);
  }

  function Making(): seq<Event> {
    [Start(0), Start(1)] + [CreateTask(0, 100, true), CreateTask(1, 100, false), Configure(3, 3), Admit(3)]
  }

  function Scheduling2(): seq<Event> {
    ([Yield(0), DoReap(0)] + [Pick(0), Switch(0)]) + ([Yield(1), DoReap(1)] + [Pick(1), Switch(1)])
  }

  lemma BothSwitched(k: Kernel)
    requires k == Family(Running, Ready, Running, Ready, Core(true, 0, -1, InTask), Core(true, 1, -1, InTask))
    ensures Run(k, Scheduling2()) == RUNNING_FAMILY
  {
    hide Run;
    RunJoin(k, [Yield(0), DoReap(0)] + [Pick(0), Switch(0)], [Yield(1), DoReap(1)] + [Pick(1), Switch(1)]);
    Switched(k, 0, 2);
    var k1 := Family(Ready, Running, Running, Ready, Core(true, 2, -1, InTask), Core(true, 1, -1, InTask));
    assert Run(k, [Yield(0), DoReap(0)] + [Pick(0), Switch(0)]) == k1;
    Switched(k1, 1, 3);
  }

  /** From the start of the system: a parent asleep in its second wait for a child whose
      exit is recorded and collected, and which is not a zombie yet. */
  lemma SecondWaitSleeps()
    ensures Initial(Boot())
    ensures SleepsBehind(Run(Boot(), Making() + Scheduling2() + [Exit(1, 7), WaitPid(0, 4), WaitPid(0, 4)]), 2, 1)
  {
    BootIsInitial();
    hide Run, SleepsBehind, Scheduling2, Initial, Boot, Family;
    RunJoin(Boot(), [Start(0), Start(1)],
            [CreateTask(0, 100, true), CreateTask(1, 100, false), Configure(3, 3), Admit(3)]);
    Created();
    RunJoin(Boot(), Making(), Scheduling2());
    BothSwitched(Run(Boot(), Making()));
    RunJoin(Boot(), Making() + Scheduling2(), [Exit(1, 7), WaitPid(0, 4), WaitPid(0, 4)]);
    SecondWait();
  }

  lemma BootIsInitial()
    ensures Initial(Boot())
  {
  }
}
