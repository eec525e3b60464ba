/** Two endpoints joined by a network that may lose, repeat and reorder every
    segment ever emitted.  Main result: in every run each side's handler is
    given a prefix of what the other side's tcp_write accepted. */
module TcpLink {
  import opened Words
  import opened TcpModel
  import opened TcpSend
  import opened TcpReceive

  datatype Link = Link(a: Pcb, b: Pcb)

  /** One thing that can happen, at endpoint `a` if `atA` and at `b` otherwise.
      `Arrive` picks any segment the other side has ever emitted. */
  datatype Event =
    | Arrive(atA: bool, i: nat, o: Options, calls: seq<AppCall>)
    | AppWrite(atA: bool, data: seq<u8>)
    | AppClose(atA: bool)
    | Retransmit(atA: bool)
    | Idle(atA: bool, keepalive: bool)
    | Abort(atA: bool)

  function At(p: Pcb, wire: seq<Seg>, e: Event): Pcb
    requires Sized(p)
  {
    match e
    case Arrive(_, i, o, calls) => if i < |wire| then Input(p, wire[i], o, _ => calls) else p
    case AppWrite(_, data) => Write(p, data).0
    case AppClose(_) => Close(p)
    case Retransmit(_) => Rtx(p)
    case Idle(_, keepalive) => Nudge(p, keepalive)
    case Abort(_) => p.(used := false)
  }

  predicate Shaped(l: Link) {
    Sized(l.a) && Sized(l.b)
  }

  function Step(l: Link, e: Event): (r: Link)
    requires Shaped(l)
  {
    if e.atA then l.(a := At(l.a, l.b.out, e)) else l.(b := At(l.b, l.a.out, e))
  }

  /** The state after a run; events are taken in order. */
  function Run(l: Link, events: seq<Event>): Link
    decreases |events|
  {
    if events == [] then l
    else
      var r := Run(l, events[..|events| - 1]);
      if Shaped(r) then Step(r, events[|events| - 1]) else r
  }

  /** A client that has sent its SYN and a server that has answered it. */
  function Opening(issA: u32, issB: u32, o: Options): Link {
    var a := Connect(issA);
    Link(a, Accept(issB, Seg(true, false, false, issA, 0, a.out[0].win, []), o))
  }

  ghost predicate HalfInv(p: Pcb, peer: Pcb) {
    Good(p) && RecvInv(p, peer.iss, peer.accepted, FinSent(peer.phase), 0)
  }

  ghost predicate LinkInv(l: Link) {
    HalfInv(l.a, l.b) && HalfInv(l.b, l.a)
  }

  /** Sequence numbers identify stream positions only below 2^31 bytes. */
  predicate Short(l: Link) {
    |l.a.accepted| < 0x8000_0000 && |l.b.accepted| < 0x8000_0000
  }

  // ----- One step -----

  lemma AbortKeeps(p: Pcb)
    requires Good(p)
    ensures Good(p.(used := false))
  {
    hide AllHonest, Queue, Wrap, Diff;
  }

  /** Whatever happens at one endpoint keeps its own invariants. */
  lemma AtKeeps(p: Pcb, peer: Pcb, e: Event)
    requires HalfInv(p, peer) && Good(peer) && |peer.accepted| < 0x8000_0000
    ensures HalfInv(At(p, peer.out, e), peer) && Grows(p, At(p, peer.out, e))
  {
    hide Queue, PhaseInv, RxInv, Received, Input, Write, Close, Rtx, Nudge, Honest;
    var q := At(p, peer.out, e);
    match e {
      case Arrive(_, i, o, calls) =>
        if i < |peer.out| {
          assert peer.out[i] in peer.out;
          InputKeeps(p, peer.out[i], o, _ => calls, peer.iss, peer.accepted, FinSent(peer.phase));
        }
      case AppWrite(_, data) => WriteKeeps(p, data); ByOneself(p, q, peer);
      case AppClose(_) => CloseKeeps(p); ByOneself(p, q, peer);
      case Retransmit(_) => RtxKeeps(p); ByOneself(p, q, peer);
      case Idle(_, keepalive) => NudgeKeeps(p, keepalive); ByOneself(p, q, peer);
      case Abort(_) => AbortKeeps(p);
    }
  }

  lemma ByOneself(p: Pcb, q: Pcb, peer: Pcb)
    requires HalfInv(p, peer) && Good(q) && SendOnly(p, q)
    ensures HalfInv(q, peer) && Grows(p, q)
  {
    hide AllHonest, Queue, PhaseInv, RxInv, Received;
    SendOnlyRecv(p, q, peer.iss, peer.accepted, FinSent(peer.phase), 0);
  }

  /** The other endpoint's view survives that step. */
  lemma OtherKeeps(p: Pcb, q: Pcb, peer: Pcb)
    requires HalfInv(peer, p) && Grows(p, q)
    ensures HalfInv(peer, q)
  {
    hide Good, RxInv, Received;
    StreamGrows(peer, p.iss, p.accepted, FinSent(p.phase), q.accepted, FinSent(q.phase));
  }

  lemma StepKeeps(l: Link, e: Event)
    requires LinkInv(l) && Short(l)
    ensures LinkInv(Step(l, e))
  {
    hide Queue, AllHonest, PhaseInv, RecvInv, At;
    if e.atA {
      AtKeeps(l.a, l.b, e);
      OtherKeeps(l.a, At(l.a, l.b.out, e), l.b);
    } else {
      AtKeeps(l.b, l.a, e);
      OtherKeeps(l.b, At(l.b, l.a.out, e), l.a);
    }
  }

  // ----- Whole runs -----

  ghost predicate Born(p: Pcb, iss: u32) {
    p.iss == iss && p.accepted == [] && !FinSent(p.phase)
  }

  lemma ConnectInv(iss: u32, irs: u32)
    ensures |Connect(iss).out| == 1 && Good(Connect(iss)) && Born(Connect(iss), iss)
    ensures RecvInv(Connect(iss), irs, [], false, 0)
  {
    hide NewEdge, Window, Count;
    CountAll(Falses(RCVBUF), false);
  }

  lemma AcceptInv(iss: u32, s: Seg, o: Options)
    ensures Good(Accept(iss, s, o)) && RecvInv(Accept(iss, s, o), s.seqno, [], false, 0) && Born(Accept(iss, s, o), iss)
  {
    hide NewEdge, Window, Count;
    CountAll(Falses(RCVBUF), false);
  }

  lemma OpeningInv(issA: u32, issB: u32, o: Options)
    ensures LinkInv(Opening(issA, issB, o))
  {
    hide Good, RecvInv, Connect, Accept;
    ConnectInv(issA, issB);
    AcceptInv(issB, Seg(true, false, false, issA, 0, Connect(issA).out[0].win, []), o);
  }

  lemma {:induction false} RunInv(issA: u32, issB: u32, o: Options, events: seq<Event>)
    requires forall k :: 0 <= k <= |events| ==> Short(Run(Opening(issA, issB, o), events[..k]))
    ensures LinkInv(Run(Opening(issA, issB, o), events))
    decreases |events|
  {
    hide LinkInv, Opening, Step;
    OpeningInv(issA, issB, o);
    if events != [] {
      var init := events[..|events| - 1];
      forall k | 0 <= k <= |init|
        ensures Short(Run(Opening(issA, issB, o), init[..k]))
      {
        assert init[..k] == events[..k];
      }
      RunInv(issA, issB, o, init);
      var r := Run(Opening(issA, issB, o), init);
      InvShaped(r);
      assert init == events[..|events| - 1] && Short(r);
      StepKeeps(r, events[|events| - 1]);
    }
  }

  lemma InvShaped(l: Link)
    requires LinkInv(l)
    ensures Shaped(l)
  {
  }

  /** End to end: for every interleaving of writes, closes, timers, losses,
      duplicates and reorderings, the bytes handed over on one side are a prefix
      of the bytes accepted on the other, and a FIN is taken only behind all of them. */
  lemma StreamsArePrefixes(issA: u32, issB: u32, o: Options, events: seq<Event>)
    requires forall k :: 0 <= k <= |events| ==> Short(Run(Opening(issA, issB, o), events[..k]))
    ensures var l := Run(Opening(issA, issB, o), events);
            && l.b.delivered <= l.a.accepted && l.a.delivered <= l.b.accepted
            && (FinTaken(l.b.phase) ==> l.b.delivered == l.a.accepted && FinSent(l.a.phase))
            && (FinTaken(l.a.phase) ==> l.a.delivered == l.b.accepted && FinSent(l.b.phase))
  {
    hide Run, Opening;
    RunInv(issA, issB, o, events);
  }

  /** The send-space invariant in every reachable state: how much may be in
      flight in each phase, where the FIN sits, and a clean scoreboard tail. */
  ghost predicate SendSpace(p: Pcb) {
    && SizedTx(p.tx)
    && ClearTail(p.tx)
    && (Sending(p) ==> Diff(p.tx.nxt, p.tx.una) <= |p.tx.buf|)
    && (p.phase.FinWait1? || (p.phase.LastAck? && p.used) ==>
          Diff(p.tx.nxt, p.tx.una) == |p.tx.buf| + 1 && p.tx.nxt == Wrap(p.tx.finSeq + 1)
          && p.tx.finSeq == Wrap(p.iss + 1 + |p.accepted|))
    && FinsBehind(p.out, p.iss, |p.accepted|, FinSent(p.phase))
  }

  /** No scoreboard mark lies at or behind sndlen. */
  ghost predicate ClearTail(t: Tx) {
    |t.sacked| == SNDBUF && forall i :: |t.buf| <= i < SNDBUF ==> !t.sacked[i]
  }

  /** Every FIN emitted so far sits right behind byte `len` of the stream. */
  ghost predicate FinsBehind(out: seq<Seg>, iss: u32, len: nat, finSent: bool) {
    forall s :: s in out && s.fin ==> finSent && s.seqno == Wrap(iss + 1 + len)
  }

  lemma SendSpaceEverywhere(issA: u32, issB: u32, o: Options, events: seq<Event>)
    requires forall k :: 0 <= k <= |events| ==> Short(Run(Opening(issA, issB, o), events[..k]))
    ensures SendSpace(Run(Opening(issA, issB, o), events).a)
    ensures SendSpace(Run(Opening(issA, issB, o), events).b)
  {
    hide Run, Opening;
    RunInv(issA, issB, o, events);
    GoodSpace(Run(Opening(issA, issB, o), events).a);
    GoodSpace(Run(Opening(issA, issB, o), events).b);
  }

  lemma GoodSpace(p: Pcb)
    requires Good(p)
    ensures SendSpace(p)
  {
    hide AllHonest, Wrap, Diff, PhaseInv, Queue, ClearTail, FinsBehind;
    FinPlace(p.phase, p.used, p.tx, p.iss, p.accepted);
    FinsOnWire(p.out, p.iss, p.accepted, FinSent(p.phase));
    TailClear(p.tx, p.accepted);
  }

  lemma TailClear(t: Tx, stream: seq<u8>)
    requires Queue(t, stream)
    ensures ClearTail(t)
  {
  }

  lemma FinPlace(phase: Phase, used: bool, t: Tx, iss: u32, stream: seq<u8>)
    requires PhaseInv(phase, used, t, iss, stream) && |t.buf| <= SNDBUF
    ensures phase.FinWait1? || (phase.LastAck? && used) ==>
              Diff(t.nxt, t.una) == |t.buf| + 1 && t.nxt == Wrap(t.finSeq + 1)
              && t.finSeq == Wrap(iss + 1 + |stream|)
    ensures phase.Established? || phase.CloseWait? ==> Diff(t.nxt, t.una) <= |t.buf|
  {
    if FinFlying(t, iss, stream) {
      FinFlight(t, iss, stream);
    }
    hide Wrap, Diff, AtAcked;
  }

  lemma FinsOnWire(out: seq<Seg>, iss: u32, stream: seq<u8>, finSent: bool)
    requires AllHonest(out, iss, stream, finSent)
    ensures FinsBehind(out, iss, |stream|, finSent)
  {
    forall s | s in out && s.fin
      ensures finSent && s.seqno == Wrap(iss + 1 + |stream|)
    {
      assert Honest(s, iss, stream, finSent);
    }
  }

  /** New data never pushes the flight past min(cwnd, snd_wnd). */
  lemma {:induction false} FlightBound(p: Pcb, unsent: nat, usable: nat, mss: nat)
    requires Sized(p) && unsent <= Unsent(p)
    ensures var q := OutputLoop(p, unsent, usable, mss);
            Diff(p.tx.nxt, p.tx.una) <= Diff(q.tx.nxt, q.tx.una) <= Diff(p.tx.nxt, p.tx.una) + usable
    decreases unsent
  {
    hide SendChunk, Diff;
    var n := NextChunk(p, unsent, usable, mss);
    if n != 0 {
      SentAdvances(p, n);
      ChunkFrame(p, n);
      FlightBound(SendChunk(p, n), unsent - n, usable - n, mss);
    }
  }

  lemma ChunkFrame(p: Pcb, n: nat)
    requires Sized(p) && n <= Unsent(p)
    ensures SendChunk(p, n).tx.una == p.tx.una
  {
  }

  lemma OutputWithinWindow(p: Pcb)
    requires Sized(p) && Unsent(p) >= 0
    ensures var q := OutputLoop(p, Unsent(p), Usable(p), EffMss(p));
            Diff(q.tx.nxt, q.tx.una) <= Max(Diff(p.tx.nxt, p.tx.una), Min(p.tx.cwnd, p.tx.wnd))
  {
    FlightBound(p, Unsent(p), Usable(p), EffMss(p));
    hide OutputLoop;
  }
}
