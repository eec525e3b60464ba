/** The lock-free event ring of kernel/gui_input.c: one producer and one consumer,
    interleaved load by load and store by store.  Storing and copying an event take
    two steps each, so that a torn event could be seen if the protocol allowed it. */
module EventRing {
  const N := 64

  /** An event takes two loads or stores. */
  datatype Event = Event(first: int, rest: int)

  /** Inside gui_input_push: head loaded; tail checked; slot half written; written. */
  datatype Producer =
    | Outside
    | HasHead(ev: Event, h: nat)
    | HasRoom(ev: Event, h: nat)
    | Writing(ev: Event, h: nat)
    | Written(ev: Event, h: nat)

  /** Inside gui_input_pop: tail loaded; head checked; event half copied; copied. */
  datatype Consumer =
    | Away
    | HasTail(t: nat)
    | HasEvent(t: nat)
    | Copying(t: nat, seen: int)
    | Copied(t: nat, out: Event)

  /** History: the events whose push returned 1, those popped, and the last answers. */
  datatype Ring = Ring(slots: seq<Event>, head: nat, tail: nat, prod: Producer, cons: Consumer,
                       accepted: seq<Event>, popped: seq<Event>)

  datatype Step =
    | PushLoadHead(ev: Event)
    | PushCheckTail
    | PushStoreHalf(torn: Event)
    | PushStoreRest
    | PushStoreHead
    | PopLoadTail
    | PopCheckHead
    | PopCopyHalf
    | PopCopyRest
    | PopStoreTail

  function Next(i: nat): (n: nat)
    ensures n < N && (i < 63 ==> n == i + 1) && (i == 63 ==> n == 0)
  {
    (i + 1) % 64
  }

  /** Whose turn in its own code it is; the other side may be anywhere. */
  predicate Enabled(r: Ring, s: Step) {
    match s
    case PushLoadHead(_) => r.prod.Outside?
    case PushCheckTail => r.prod.HasHead?
    case PushStoreHalf(_) => r.prod.HasRoom? && r.prod.h < |r.slots|
    case PushStoreRest => r.prod.Writing? && r.prod.h < |r.slots|
    case PushStoreHead => r.prod.Written?
    case PopLoadTail => r.cons.Away?
    case PopCheckHead => r.cons.HasTail?
    case PopCopyHalf => r.cons.HasEvent? && r.cons.t < |r.slots|
    case PopCopyRest => r.cons.Copying? && r.cons.t < |r.slots|
    case PopStoreTail => r.cons.Copied?
  }

  function Do(r: Ring, s: Step): Ring
    requires Enabled(r, s)
  {
    match s
    case PushLoadHead(ev) => r.(prod := HasHead(ev, r.head))
    case PushCheckTail =>
      if Next(r.prod.h) == r.tail then r.(prod := Outside) else r.(prod := HasRoom(r.prod.ev, r.prod.h))
    case PushStoreHalf(torn) => r.(slots := r.slots[r.prod.h := torn], prod := Writing(r.prod.ev, r.prod.h))
    case PushStoreRest => r.(slots := r.slots[r.prod.h := r.prod.ev], prod := Written(r.prod.ev, r.prod.h))
    case PushStoreHead => r.(head := Next(r.prod.h), prod := Outside, accepted := r.accepted + [r.prod.ev])
    case PopLoadTail => r.(cons := HasTail(r.tail))
    case PopCheckHead => if r.cons.t == r.head then r.(cons := Away) else r.(cons := HasEvent(r.cons.t))
    case PopCopyHalf => r.(cons := Copying(r.cons.t, r.slots[r.cons.t].first))
    case PopCopyRest => r.(cons := Copied(r.cons.t, Event(r.cons.seen, r.slots[r.cons.t].rest)))
    case PopStoreTail => r.(tail := Next(r.cons.t), cons := Away, popped := r.popped + [r.cons.out])
  }

  // ----- The invariant -----

  function Slot(i: nat): (s: nat)
    ensures s < N
  {
    i % 64
  }

  /** The pending events, at most 63, lie in their slots, oldest at the tail. */
  ghost predicate Queued(r: Ring) {
    && |r.slots| == N && |r.popped| <= |r.accepted| <= |r.popped| + 63
    && r.head == Slot(|r.accepted|) && r.tail == Slot(|r.popped|)
    && (forall i :: |r.popped| <= i < |r.accepted| ==> r.slots[Slot(i)] == r.accepted[i])
    && (forall i :: 0 <= i < |r.popped| ==> r.popped[i] == r.accepted[i])
  }

  /** The producer works on the slot behind the last event, and only with room. */
  ghost predicate ProducerOk(r: Ring) {
    match r.prod
    case Outside => true
    case HasHead(_, h) => h == r.head
    case HasRoom(_, h) => h == r.head && |r.accepted| < |r.popped| + 63
    case Writing(_, h) => h == r.head && |r.accepted| < |r.popped| + 63
    case Written(ev, h) => h == r.head && |r.accepted| < |r.popped| + 63 && |r.slots| == N && h < N && r.slots[h] == ev
  }

  /** The consumer works on the oldest event, and what it has seen is that event. */
  ghost predicate ConsumerOk(r: Ring) {
    match r.cons
    case Away => true
    case HasTail(t) => t == r.tail
    case HasEvent(t) => t == r.tail && |r.popped| < |r.accepted|
    case Copying(t, seen) => t == r.tail && |r.popped| < |r.accepted| && seen == r.accepted[|r.popped|].first
    case Copied(t, out) => t == r.tail && |r.popped| < |r.accepted| && out == r.accepted[|r.popped|]
  }

  ghost predicate Inv(r: Ring) {
    Queued(r) && ProducerOk(r) && ConsumerOk(r)
  }

  // ----- Slots -----

  lemma SlotNext(i: nat)
    ensures Next(Slot(i)) == Slot(i + 1)
  {
  }

  /** Positions less than 64 apart have different slots. */
  lemma SlotsApart(i: nat, j: nat)
    requires i < j < i + 64
    ensures Slot(i) != Slot(j)
  {
  }

  /** Full at the tail load means 63 pending events, and conversely. */
  lemma FullMeans63(r: Ring)
    requires Queued(r)
    ensures Next(r.head) == r.tail <==> |r.accepted| - |r.popped| == 63
  {
    SlotNext(|r.accepted|);
    if |r.accepted| - |r.popped| < 63 {
      SlotsApart(|r.popped|, |r.accepted| + 1);
    } else {
      assert |r.accepted| + 1 == |r.popped| + 64;
    }
  }

  lemma EmptyMeansNone(r: Ring)
    requires Queued(r)
    ensures r.tail == r.head <==> |r.popped| == |r.accepted|
  {
    if |r.popped| < |r.accepted| {
      SlotsApart(|r.popped|, |r.accepted|);
    }
  }

  // ----- Every step -----

  /** A store into the free slot at the head touches no pending event. */
  lemma StoreKeeps(r: Ring, v: Event)
    requires Queued(r) && |r.accepted| < |r.popped| + 63
    ensures Queued(r.(slots := r.slots[r.head := v]))
  {
    var q := r.slots[r.head := v];
    forall i | |r.popped| <= i < |r.accepted|
      ensures q[Slot(i)] == r.accepted[i]
    {
      SlotsApart(i, |r.accepted|);
    }
  }

  lemma StepKeeps(r: Ring, s: Step)
    requires Inv(r) && Enabled(r, s)
    ensures Inv(Do(r, s))
  {
    hide Next, Slot;
    match s {
      case PushLoadHead(ev) =>
      case PushCheckTail => FullMeans63(r);
      case PushStoreHalf(torn) => StoreKeeps(r, torn);
      case PushStoreRest => StoreKeeps(r, r.prod.ev);
      case PushStoreHead => SlotNext(|r.accepted|);
      case PopLoadTail =>
      case PopCheckHead => EmptyMeansNone(r);
      case PopCopyHalf =>
      case PopCopyRest =>
      case PopStoreTail => SlotNext(|r.popped|);
    }
  }

  /** No slot is written while the consumer may still read it. */
  lemma WriterAwayFromReader(r: Ring)
    requires Inv(r)
    requires r.prod.HasRoom? || r.prod.Writing? || r.prod.Written?
    requires r.cons.HasEvent? || r.cons.Copying? || r.cons.Copied?
    ensures r.prod.h != r.cons.t
  {
    SlotsApart(|r.popped|, |r.accepted|);
  }

  /** A push is turned away exactly if 63 events are pending when it loads the tail. */
  lemma RejectedOnlyWhenFull(r: Ring)
    requires Inv(r) && Enabled(r, PushCheckTail)
    ensures Do(r, PushCheckTail).prod.Outside? <==> |r.accepted| - |r.popped| == 63
  {
    FullMeans63(r);
  }

  // ----- Every run -----

  function Run(r: Ring, steps: seq<Step>): Ring
    decreases |steps|
  {
    if steps == [] then r
    else
      var q := Run(r, steps[..|steps| - 1]);
      var s := steps[|steps| - 1];
      if Enabled(q, s) then Do(q, s) else q
  }

  predicate Empty(r: Ring) {
    |r.slots| == N && r.head == 0 == r.tail && r.prod.Outside? && r.cons.Away? && r.accepted == [] == r.popped
  }

  lemma {:induction false} RunKeeps(r: Ring, steps: seq<Step>)
    requires Empty(r)
    ensures Inv(Run(r, steps))
    decreases |steps|
  {
    hide Do, Enabled;
    if steps != [] {
      RunKeeps(r, steps[..|steps| - 1]);
      var q, s := Run(r, steps[..|steps| - 1]), steps[|steps| - 1];
      hide Inv;
      if Enabled(q, s) {
        StepKeeps(q, s);
      }
    }
  }

  /** Under every interleaving the popped events are a prefix, in order, of the
      accepted pushes, at most 63 are pending, and writer and reader never share a
      slot. */
  lemma PoppedIsPrefix(r: Ring, steps: seq<Step>)
    requires Empty(r)
    ensures var q := Run(r, steps);
            && q.popped <= q.accepted && |q.accepted| - |q.popped| <= 63
            && ((q.prod.Writing? || q.prod.Written?) && (q.cons.Copying? || q.cons.HasEvent?) ==> q.prod.h != q.cons.t)
  {
    hide Run, Slot;
    RunKeeps(r, steps);
    var q := Run(r, steps);
    if (q.prod.Writing? || q.prod.Written?) && (q.cons.Copying? || q.cons.HasEvent?) {
      WriterAwayFromReader(q);
    }
  }

  // ----- The two functions, called without interference -----

  class Queue {
    const evq: array<Event>
    var head: nat
    var tail: nat

    constructor ()
      ensures Valid() && Pending() == [] && fresh(evq)
    {
      evq := new Event[N](i => Event(0, 0));
      head, tail := 0, 0;
    }

    ghost predicate Valid()
      reads this
    {
      evq.Length == N && head < N && tail < N
    }

    /** The events from tail to head. */
    ghost function Pending(): (q: seq<Event>)
      requires Valid()
      reads this, evq
      ensures |q| == Count(head, tail)
    {
      Contents(evq[..], head, tail)
    }

    method Push(ev: Event) returns (ok: bool)
      requires Valid()
      modifies this, evq
      ensures Valid() && (ok <==> |old(Pending())| < 63)
      ensures Pending() == if ok then old(Pending()) + [ev] else old(Pending())
    {
      hide Contents;
      var h := head;
      var n := (h + 1) % N;
      CountNext(h, tail);
      if n == tail { return false; }
      Appended(evq[..], h, tail, ev);
      evq[h] := ev;
      assert evq[..] == old(evq[..])[h := ev];
      head := n;
      ok := true;
    }

    method Pop() returns (ok: bool, out: Event)
      requires Valid()
      modifies this
      ensures Valid() && (ok <==> old(Pending()) != [])
      ensures ok ==> old(Pending()) == [out] + Pending()
      ensures !ok ==> Pending() == old(Pending())
    {
      var t := tail;
      if t == head { return false, Event(0, 0); }
      out := evq[t];
      tail := (t + 1) % N;
      ok := true;
    }
  }

  function Count(head: nat, tail: nat): (n: nat)
    requires head < N && tail < N
    ensures n == 0 <==> head == tail
  {
    if tail <= head then head - tail else head - tail + N
  }

  lemma CountNext(head: nat, tail: nat)
    requires head < N && tail < N
    ensures head != tail ==> Count(head, tail) == Count(head, Next(tail)) + 1
    ensures Count(head, tail) < 63 <==> Next(head) != tail
  {
  }

  function Contents(slots: seq<Event>, head: nat, tail: nat): (q: seq<Event>)
    requires |slots| == N && head < N && tail < N
    ensures |q| == Count(head, tail)
    decreases Count(head, tail)
  {
    if tail == head then []
    else
      CountNext(head, tail);
      [slots[tail]] + Contents(slots, head, Next(tail))
  }

  lemma {:induction false} Appended(slots: seq<Event>, head: nat, tail: nat, ev: Event)
    requires |slots| == N && head < N && tail < N && Next(head) != tail
    ensures Contents(slots[head := ev], Next(head), tail) == Contents(slots, head, tail) + [ev]
    decreases Count(head, tail)
  {
    CountNext(head, tail);
    if tail == head {
      assert Contents(slots[head := ev], Next(head), Next(head)) == [];
    } else {
      assert Next(head) != Next(tail);
      Appended(slots, head, Next(tail), ev);
    }
  }
}
