/** Echo backpressure: an endpoint whose handler writes back exactly what it is
    given never loses a byte, as long as the peer stays below the largest right
    window edge it was ever shown. */
module TcpEcho {
  import opened Words
  import opened TcpModel
  import opened TcpSend
  import opened TcpReceive

  function EchoBack(bytes: seq<u8>): seq<AppCall> {
    [WriteCall(bytes)]
  }

  /** What can happen to the echo server.  `off` is the stream position of the
      segment's first data byte. */
  datatype Event =
    | Segment(s: Seg, o: Options, off: nat)
    | Retransmit
    | Idle(keepalive: bool)

  function Step(p: Pcb, e: Event): (r: Pcb)
    requires Sized(p)
    ensures Sized(r)
  {
    match e
    case Segment(s, o, _) => Input(p, s, o, EchoBack)
    case Retransmit => Rtx(p)
    case Idle(keepalive) => Nudge(p, keepalive)
  }

  /** The peer sends no byte at or beyond the largest edge ever advertised, and
      the conversation stays (by a window's width) below 2^31 bytes. */
  ghost predicate Obeys(p: Pcb, e: Event, irs: u32) {
    && |p.delivered| < 0x7fff_0000
    && (e.Segment? && e.s.data != [] ==>
          e.s.seqno == Wrap(irs + 1 + e.off) && e.off + |e.s.data| <= p.edge)
  }

  /** Every buffered byte lies below the largest advertised edge. */
  ghost predicate BelowEdge(r: Rx, at: nat, edge: int) {
    SizedRx(r) && forall o :: 0 <= o < RCVBUF && r.mark[o] ==> at + o < edge
  }

  ghost predicate Listening(p: Pcb, irs: u32) {
    && Good(p) && EdgeOf(p)
    && (p.phase.SynRcvd? || p.phase.Established?) && !p.tx.finPending
    && p.rx.nxt == Wrap(irs + 1 + |p.delivered|)
    && BelowEdge(p.rx, |p.delivered|, p.edge)
    && p.rx.buffered == Count(p.rx.mark)
  }

  /** Either data may still come, or the peer has closed; nothing is lost so far. */
  ghost predicate EchoInv(p: Pcb, irs: u32) {
    && p.accepted == p.delivered
    && (Listening(p, irs) || (Good(p) && (p.phase.CloseWait? || p.phase.LastAck?)))
  }

  // ----- Sending keeps it -----

  lemma CalmListening(p: Pcb, q: Pcb, irs: u32)
    requires Listening(p, irs) && Good(q) && SendOnly(p, q) && Calm(p, q) && p.edge <= q.edge
    requires (q.phase.SynRcvd? || q.phase.Established?) && !q.tx.finPending
    ensures Listening(q, irs)
  {
    hide Good, Count, Wrap, EdgeInv;
  }

  // ----- Receiving keeps it -----

  lemma StoredBelow(r: Rx, at: nat, irs: u32, edge: int, seqno: u32, data: seq<u8>, off: nat)
    requires BelowEdge(r, at, edge) && r.nxt == Wrap(irs + 1 + at)
    requires at <= edge < 0x8000_0000
    requires seqno == Wrap(irs + 1 + off) && off + |data| <= edge
    ensures BelowEdge(Stored(r, seqno, data), at, edge)
  {
    hide Count, Wrap, Diff;
    var q := Stored(r, seqno, data);
    forall o | 0 <= o < RCVBUF && q.mark[o]
      ensures at + o < edge
    {
      SamePosition(irs, at, off, |data|, o);
    }
  }

  /** Every handler call finds room: the bytes handed over fit the send buffer. */
  lemma RoomForEcho(p: Pcb, irs: u32, n: nat)
    requires Listening(p, irs)
    requires n <= RCVBUF && forall i :: 0 <= i < n ==> p.rx.mark[i]
    ensures n <= SNDBUF - |p.tx.buf|
  {
    hide Good, Count, Wrap, SDiff;
    if n > 0 {
      assert p.rx.mark[n - 1];
    }
  }

  /** The state the handler leaves after echoing `n` bytes, before it sends. */
  function Echoed(p: Pcb, n: nat): Pcb
    requires Sized(p) && n <= RCVBUF
  {
    Enqueue(Deliver(p, n), p.rx.buf[..n])
  }

  lemma EdgeShift(r: Rx, at: nat, len: nat, edge: int, n: nat)
    requires EdgeInv(r, at, len, edge) && len + n <= SNDBUF && at + n <= edge && n <= r.buffered
    ensures EdgeInv(r.(nxt := Wrap(r.nxt + n), buffered := r.buffered - n), at + n, len + n, edge)
  {
    SDiffShift(r.adv, r.nxt, n);
    hide SDiff;
  }

  lemma SDiffShift(a: u32, b: u32, n: nat)
    requires n <= SNDBUF && -8 * SWS_MIN <= SDiff(a, b) <= SNDBUF
    ensures SDiff(a, Wrap(b + n)) == SDiff(a, b) - n
  {
  }

  lemma EchoedEdge(p: Pcb, irs: u32, n: nat)
    requires Listening(p, irs)
    requires n <= RCVBUF && forall i :: 0 <= i < n ==> p.rx.mark[i]
    ensures Sized(p) && EdgeOf(Echoed(p, n))
    ensures BelowEdge(Echoed(p, n).rx, |Echoed(p, n).delivered|, Echoed(p, n).edge)
  {
    ListeningSized(p, irs);
    RoomForEcho(p, irs, n);
    CountShift(p.rx.mark, n);
    hide Good, Count, Wrap, EdgeInv;
    var q := Echoed(p, n);
    if n > 0 {
      assert p.rx.mark[n - 1];
    }
    EdgeBound(p);
    EdgeShift(p.rx, |p.delivered|, |p.tx.buf|, p.edge, n);
    EdgeSame(p.rx.(nxt := q.rx.nxt, buffered := q.rx.buffered), q.rx, |q.delivered|, |q.tx.buf|, p.edge);
    forall o | 0 <= o < RCVBUF && q.rx.mark[o]
      ensures |p.delivered| + n + o < p.edge
    {
      assert o < RCVBUF - n && p.rx.mark[o + n];
    }
  }

  lemma EchoedGood(p: Pcb, n: nat)
    requires Good(p) && p.phase.Established? && n <= RCVBUF && n <= SNDBUF - |p.tx.buf|
    ensures Good(Echoed(p, n))
  {
    DeliverFrame(p, n);
    hide Good;
    EnqueueKeeps(Deliver(p, n), p.rx.buf[..n]);
  }

  lemma DeliverListening(p: Pcb, irs: u32, n: nat)
    requires Listening(p, irs) && p.phase.Established? && p.accepted == p.delivered
    requires n <= RCVBUF && forall i :: 0 <= i < n ==> p.rx.mark[i]
    ensures Sized(p) && Listening(Echoed(p, n), irs)
    ensures Echoed(p, n).accepted == Echoed(p, n).delivered
  {
    RoomForEcho(p, irs, n);
    EchoedGood(p, n);
    CountShift(p.rx.mark, n);
    WrapShift(irs + 1 + |p.delivered|, n);
    hide Good, Count, Wrap, EdgeInv, BelowEdge;
    EchoedEdge(p, irs, n);
  }

  lemma EdgeBound(p: Pcb)
    requires EdgeOf(p)
    ensures |p.delivered| <= p.edge
  {
  }

  lemma EdgeSame(r: Rx, q: Rx, at: nat, len: nat, edge: int)
    requires EdgeInv(r, at, len, edge) && q.nxt == r.nxt && q.adv == r.adv && q.buffered >= 0
    ensures EdgeInv(q, at, len, edge)
  {
  }

  /** reasm_insert with the echo handler: all delivered bytes are written back. */
  lemma ReasmEcho(p: Pcb, s: Seg, off: nat, irs: u32)
    requires Listening(p, irs) && p.phase.Established? && p.accepted == p.delivered
    requires p.edge < 0x8000_0000 && s.data != []
    requires s.seqno == Wrap(irs + 1 + off) && off + |s.data| <= p.edge
    ensures var q := Reasm(p, s.seqno, s.data, EchoBack).0;
            Listening(q, irs) && q.phase.Established? && q.accepted == q.delivered
  {
    var p1 := p.(rx := Stored(p.rx, s.seqno, s.data));
    EdgeBound(p);
    StoredBelow(p.rx, |p.delivered|, irs, p.edge, s.seqno, s.data, off);
    StoredListening(p, s, irs);
    var n := Prefix(p1.rx.mark, 0);
    if n > 0 {
      hide Stored, Listening, Good, Write, ShiftBytes, Output;
      RoomForEcho(p1, irs, n);
      DeliverListening(p1, irs, n);
      EchoWrites(p1, n);
      var p2 := Echoed(p1, n);
      OutputListening(p2, irs);
      assert Reasm(p, s.seqno, s.data, EchoBack).0 == ShiftBytes(Output(p2), n);
      ShiftListening(Output(p2), n, irs);
    }
  }

  /** Another buffer content below the edge, at the same place in the stream. */
  lemma OtherBuffer(p: Pcb, r: Rx, irs: u32)
    requires Listening(p, irs) && Good(p.(rx := r))
    requires BelowEdge(r, |p.delivered|, p.edge)
    requires r.nxt == p.rx.nxt && r.adv == p.rx.adv && r.buffered == Count(r.mark)
    ensures Listening(p.(rx := r), irs)
  {
    hide Good, Count, Wrap, BelowEdge, EdgeInv;
    EdgeSame(p.rx, r, |p.delivered|, |p.tx.buf|, p.edge);
  }

  lemma StoredListening(p: Pcb, s: Seg, irs: u32)
    requires Listening(p, irs)
    requires BelowEdge(Stored(p.rx, s.seqno, s.data), |p.delivered|, p.edge)
    ensures Listening(p.(rx := Stored(p.rx, s.seqno, s.data)), irs)
  {
    hide PhaseInv, Queue, AllHonest, Count, Wrap, BelowEdge, EdgeInv, Covers;
    StoredFrame(p, s);
    OtherBuffer(p, Stored(p.rx, s.seqno, s.data), irs);
  }

  /** The handler's write takes all `n` bytes. */
  lemma EchoWrites(p: Pcb, n: nat)
    requires Sized(p) && 0 < n <= RCVBUF && p.phase.Established? && n <= SNDBUF - |p.tx.buf|
    ensures React(Deliver(p, n), EchoBack(p.rx.buf[..n])) == Output(Echoed(p, n))
    ensures Write(Deliver(p, n), p.rx.buf[..n]).1 == n
  {
    hide Output;
    var bytes := p.rx.buf[..n];
    assert bytes[..n] == bytes;
    var q := Write(Deliver(p, n), bytes).0;
    assert React(q, []) == q;
    assert EchoBack(bytes)[1..] == [];
  }

  lemma OutputListening(p: Pcb, irs: u32)
    requires Listening(p, irs) && p.phase.Established?
    ensures Listening(Output(p), irs) && Output(p).phase.Established?
    ensures Output(p).accepted == p.accepted && Output(p).delivered == p.delivered
  {
    OutputKeeps(p);
    OutputOpen(p);
    hide Good, Output;
    CalmListening(p, Output(p), irs);
  }

  /** Without a pending FIN, tcp_output stays in the data phase. */
  lemma OutputOpen(p: Pcb)
    requires Good(p) && p.phase.Established? && !p.tx.finPending
    ensures Output(p).phase.Established? && !Output(p).tx.finPending && p.edge <= Output(p).edge
  {
    if Unsent(p) >= 0 {
      hide PhaseInv, Queue, AllHonest, OutputLoop;
      LoopOpen(p, Unsent(p), Usable(p), EffMss(p));
    }
  }

  lemma {:induction false} LoopOpen(p: Pcb, unsent: nat, usable: nat, mss: nat)
    requires Sized(p) && unsent <= Unsent(p)
    ensures var q := OutputLoop(p, unsent, usable, mss);
            q.phase == p.phase && q.tx.finPending == p.tx.finPending && p.edge <= q.edge
    decreases unsent
  {
    var n := NextChunk(p, unsent, usable, mss);
    if n != 0 {
      SentAdvances(p, n);
      hide NewEdge, Window, Diff;
      LoopOpen(SendChunk(p, n), unsent - n, usable - n, mss);
    }
  }

  lemma ShiftListening(p: Pcb, n: nat, irs: u32)
    requires Listening(p, irs) && n <= RCVBUF
    ensures Listening(ShiftBytes(p, n), irs)
    ensures ShiftBytes(p, n) == p.(rx := ShiftBytes(p, n).rx)
  {
    hide Good, Count, Wrap, EdgeInv;
    ShiftFrame(p, n);
    OtherBuffer(p, ShiftBytes(p, n).rx, irs);
  }

  // ----- One event and whole runs -----

  lemma PureAckListening(p: Pcb, irs: u32)
    requires Listening(p, irs)
    ensures Listening(PureAck(p), irs) && PureAck(p).phase == p.phase
    ensures PureAck(p).accepted == p.accepted && PureAck(p).delivered == p.delivered && PureAck(p).used == p.used
  {
    hide NewEdge, Window;
    assert PureAck(p).phase == p.phase && PureAck(p).tx == p.tx && p.edge <= PureAck(p).edge;
    hide Good, PureAck;
    EmitBareAck(p);
    CalmListening(p, PureAck(p), irs);
  }

  lemma EmitBareAck(p: Pcb)
    requires Good(p)
    ensures Good(PureAck(p)) && Quiet(p, PureAck(p))
  {
    EmitBare(p, false, false, true, p.tx.nxt);
  }

  /** ACK processing without a pending FIN stays in the data phase. */
  lemma OnAckListening(p: Pcb, s: Seg, sacks: seq<(u32, u32)>, irs: u32)
    requires Listening(p, irs)
    ensures Listening(OnAck(p, s, sacks), irs)
    ensures OnAck(p, s, sacks).accepted == p.accepted && OnAck(p, s, sacks).delivered == p.delivered
  {
    OnAckKeeps(p, s, sacks);
    OnAckOpen(p, s, sacks);
    hide Good, OnAck;
    CalmListening(p, OnAck(p, s, sacks), irs);
  }

  lemma OnAckOpen(p: Pcb, s: Seg, sacks: seq<(u32, u32)>)
    requires Good(p) && (p.phase.SynRcvd? || p.phase.Established?) && !p.tx.finPending
    ensures var q := OnAck(p, s, sacks);
            (q.phase.SynRcvd? || q.phase.Established?) && !q.tx.finPending && p.edge <= q.edge
  {
    hide PhaseInv, Queue, AllHonest;
    AckNumbersKeep(p, s, sacks);
    AckNumbersOpen(p, s, sacks);
    var p1 := AckNumbers(p, s, sacks);
    AckPhaseKeeps(p1);
    var p2 := AckPhase(p1);
    hide AckNumbers, SeqGeq, Wrap, Acknowledging;
    assert (p2.phase.SynRcvd? || p2.phase.Established?) && p2.tx == p1.tx && p2.edge == p1.edge;
    hide AckPhase;
    if p2.used && Sending(p2) {
      var p3 := if s.syn then p2
                else p2.(tx := UpdateWnd(p2.tx, s.seqno, s.ackno, Wrap(s.win * p2.scale)));
      CongestionFields(p2, p3.tx);
      OutputOpen(p3);
    }
  }

  lemma AckNumbersOpen(p: Pcb, s: Seg, sacks: seq<(u32, u32)>)
    requires Sized(p)
    ensures var q := AckNumbers(p, s, sacks);
            q.phase == p.phase && q.tx.finPending == p.tx.finPending && p.edge <= q.edge
  {
    hide FastRetransmit, NewAck, DupAck, GrownCwnd, Wrap, Diff, MarkBlocks;
    FastFrame(p.(tx := p.tx.(dupacks := (p.tx.dupacks + 1) % 0x100)));
  }

  lemma FastFrame(p: Pcb)
    requires Sized(p)
    ensures var q := FastRetransmit(p);
            q.phase == p.phase && q.tx.finPending == p.tx.finPending && p.edge <= q.edge
  {
    hide NewEdge, Window, ResendLen, LossThreshold, Wrap;
  }

  lemma DataListening(p: Pcb, s: Seg, off: nat, irs: u32)
    requires Listening(p, irs) && p.phase.Established? && p.accepted == p.delivered
    requires p.edge < 0x8000_0000
    requires s.data != [] ==> s.seqno == Wrap(irs + 1 + off) && off + |s.data| <= p.edge
    ensures EchoInv(DataEstablished(p, s, EchoBack), irs)
  {
    ListeningSized(p, irs);
    hide Good, Listening, Reasm, PureAck, TakeFin, TryFin, FinReached, Wrap;
    var p1 := if |s.data| > 0 then
                var r := Reasm(p, s.seqno, s.data, EchoBack);
                if r.1 > 0 then r.0 else PureAck(r.0)
              else p;
    if |s.data| > 0 {
      ReasmEcho(p, s, off, irs);
      PureAckListening(Reasm(p, s.seqno, s.data, EchoBack).0, irs);
    }
    assert Listening(p1, irs) && p1.phase.Established? && p1.accepted == p1.delivered;
    ListeningSized(p1, irs);
    if FinReached(p1, s) {
      PeerCloses(p1, s, irs);
    }
  }

  lemma ListeningSized(p: Pcb, irs: u32)
    requires Listening(p, irs)
    ensures Sized(p) && Good(p) && EdgeOf(p) && !p.tx.finPending
  {
  }

  /** After the peer's FIN nothing more is handed over or accepted. */
  lemma PeerCloses(p: Pcb, s: Seg, irs: u32)
    requires Listening(p, irs) && p.phase.Established? && p.accepted == p.delivered
    ensures var p2 := TakeFin(p, s);
            EchoInv(TryFin(p2.(phase := CloseWait, tx := p2.tx.(finPending := true))), irs)
  {
    hide PhaseInv, Queue, AllHonest, FinReached, Wrap, SegOut;
    var p1 := if Wrap(s.seqno + |s.data|) == p.rx.nxt
              then p.(rx := p.rx.(nxt := Wrap(p.rx.nxt + 1))) else p;
    EmitBare(p1, false, false, true, p1.tx.nxt);
    EmitFrame(p1, false, false, true, p1.tx.nxt, []);
    var p2 := TakeFin(p, s);
    PassiveClose(p2);
    TryFinKeeps(p2.(phase := CloseWait, tx := p2.tx.(finPending := true)));
  }

  /** The peer has closed: no segment makes the handler run again. */
  lemma ClosedKeeps(p: Pcb, s: Seg, o: Options, irs: u32)
    requires Good(p) && (p.phase.CloseWait? || p.phase.LastAck?) && p.accepted == p.delivered
    ensures EchoInv(Input(p, s, o, EchoBack), irs)
  {
    hide PhaseInv, Queue, AllHonest, OnAck, PureAck, Wrap;
    OnAckKeeps(p, s, o.sacks);
    ClosedPhases(p, s, o.sacks);
    var p1 := if s.ack then OnAck(p, s, o.sacks) else p;
    EmitBareAck(p1);
    AckStays(p1);
  }

  lemma AckStays(p: Pcb)
    requires Sized(p)
    ensures PureAck(p).phase == p.phase && PureAck(p).used == p.used
  {
    hide NewEdge, Window;
  }

  lemma ClosedPhases(p: Pcb, s: Seg, sacks: seq<(u32, u32)>)
    requires Good(p) && (p.phase.CloseWait? || p.phase.LastAck?)
    ensures OnAck(p, s, sacks).phase.CloseWait? || OnAck(p, s, sacks).phase.LastAck?
  {
    hide PhaseInv, Queue, AllHonest, AckNumbers, AckPhase, Output;
    AckNumbersKeep(p, s, sacks);
    var p1 := AckNumbers(p, s, sacks);
    AckPhaseKeeps(p1) by { hide AckPhase; }
    assert AckPhase(p1).phase == p.phase by { AckPhaseSame(p1); }
    var p2 := AckPhase(p1);
    if p2.used && Sending(p2) {
      var p3 := if s.syn then p2
                else p2.(tx := UpdateWnd(p2.tx, s.seqno, s.ackno, Wrap(s.win * p2.scale)));
      CongestionFields(p2, p3.tx);
      OutputClosing(p3);
    }
  }

  lemma OutputClosing(p: Pcb)
    requires Good(p) && p.phase.CloseWait?
    ensures Output(p).phase.CloseWait? || Output(p).phase.LastAck?
  {
    if Unsent(p) >= 0 {
      hide PhaseInv, Queue, AllHonest, OutputLoop, SegOut;
      LoopOpen(p, Unsent(p), Usable(p), EffMss(p));
    }
  }

  lemma AckPhaseSame(p: Pcb)
    requires Sized(p) && (p.phase.CloseWait? || p.phase.LastAck?)
    ensures AckPhase(p).phase == p.phase
  {
  }

  lemma EdgeCeiling(p: Pcb)
    requires EdgeOf(p)
    ensures |p.delivered| <= p.edge <= |p.delivered| + SNDBUF
  {
  }

  /** After ACK processing the edge is still below 2^31. */
  lemma AckedEdge(p: Pcb, s: Seg, sacks: seq<(u32, u32)>, irs: u32)
    requires Listening(p, irs) && |p.delivered| < 0x7fff_0000
    ensures Listening(OnAck(p, s, sacks), irs)
    ensures p.edge <= OnAck(p, s, sacks).edge < 0x7fff_1000
    ensures OnAck(p, s, sacks).accepted == p.accepted && OnAck(p, s, sacks).delivered == p.delivered
  {
    OnAckListening(p, s, sacks, irs);
    OnAckOpen(p, s, sacks);
    hide OnAck, Good, EdgeInv;
    EdgeCeiling(OnAck(p, s, sacks));
  }

  /** ACK processing, then the data part, of a segment inside the window. */
  lemma OpenKeeps(p: Pcb, s: Seg, o: Options, off: nat, irs: u32)
    requires Listening(p, irs) && p.used && p.accepted == p.delivered && Obeys(p, Segment(s, o, off), irs)
    ensures Sized(p) && EchoInv(Input(p, s, o, EchoBack), irs)
  {
    hide Good, OnAck, OnSynAck, PureAck, OnData, Wrap, EdgeInv, EdgeOf, Listening;
    ListeningSized(p, irs);
    ListeningBound(p, irs);
    AckedEdge(p, s, o.sacks, irs);
    var p1 := if s.ack then OnAck(p, s, o.sacks) else p;
    ListeningSized(p1, irs);
    ListeningPhase(p, irs);
    if p1.used {
      OpenData(p1, s, off, irs);
    }
  }

  /** The part of tcp_input behind the ACK processing. */
  lemma OpenData(p: Pcb, s: Seg, off: nat, irs: u32)
    requires Sized(p) && Listening(p, irs) && p.accepted == p.delivered && p.edge < 0x7fff_1000
    requires s.data != [] ==> s.seqno == Wrap(irs + 1 + off) && off + |s.data| <= p.edge
    ensures EchoInv(OnData(if s.syn && s.ack && p.phase.Established? then PureAck(p) else p, s, EchoBack), irs)
  {
    hide Good, PureAck, DataEstablished, Wrap, EdgeInv, Listening;
    PureAckListening(p, irs);
    var q := if s.syn && s.ack && p.phase.Established? then PureAck(p) else p;
    ListeningSized(q, irs);
    PureAckEdge(p);
    ListeningPhase(q, irs);
    if q.phase.Established? {
      ListeningBound(q, irs);
      ListeningBound(p, irs);
      DataListening(q, s, off, irs);
    }
  }

  lemma ListeningBound(p: Pcb, irs: u32)
    requires Listening(p, irs)
    ensures |p.delivered| <= p.edge <= |p.delivered| + SNDBUF
  {
  }

  lemma ListeningPhase(p: Pcb, irs: u32)
    requires Listening(p, irs)
    ensures p.phase.SynRcvd? || p.phase.Established?
  {
  }

  lemma PureAckEdge(p: Pcb)
    requires Sized(p)
    ensures p.edge <= PureAck(p).edge
  {
    hide NewEdge, Window;
  }

  /** Echo is lossless over one event. */
  lemma StepKeeps(p: Pcb, e: Event, irs: u32)
    requires EchoInv(p, irs) && Obeys(p, e, irs)
    ensures Sized(p) && EchoInv(Step(p, e), irs)
  {
    hide PhaseInv, Queue, AllHonest, Rtx, Nudge, Input, Wrap, EdgeInv;
    match e {
      case Segment(s, o, off) =>
        if !p.used {
          hide Good;
          UnusedInput(p, s, o);
        } else if p.phase.CloseWait? || p.phase.LastAck? {
          ClosedKeeps(p, s, o, irs);
        } else {
          OpenKeeps(p, s, o, off, irs);
        }
      case Retransmit => RtxEcho(p, irs);
      case Idle(keepalive) => NudgeEcho(p, keepalive, irs);
    }
  }

  lemma UnusedInput(p: Pcb, s: Seg, o: Options)
    requires Sized(p) && !p.used
    ensures Input(p, s, o, EchoBack) == p
  {
  }

  lemma NudgeEcho(p: Pcb, keepalive: bool, irs: u32)
    requires EchoInv(p, irs)
    ensures Sized(p) && EchoInv(Nudge(p, keepalive), irs)
  {
    NudgeKeeps(p, keepalive);
    NudgeFrame(p, keepalive);
    hide Good, Nudge, EdgeInv;
    if Listening(p, irs) {
      CalmListening(p, Nudge(p, keepalive), irs);
    }
  }

  lemma NudgeFrame(p: Pcb, keepalive: bool)
    requires Sized(p)
    ensures Nudge(p, keepalive).phase == p.phase && Nudge(p, keepalive).tx == p.tx && p.edge <= Nudge(p, keepalive).edge
  {
    hide NewEdge, Window;
  }

  lemma RtxEcho(p: Pcb, irs: u32)
    requires EchoInv(p, irs)
    ensures Sized(p) && EchoInv(Rtx(p), irs)
  {
    RtxKeeps(p);
    RtxFrame(p);
    hide Good, Rtx, EdgeInv;
    if Listening(p, irs) {
      CalmListening(p, Rtx(p), irs);
    }
  }

  lemma RtxFrame(p: Pcb)
    requires Good(p)
    ensures (p.phase.SynRcvd? || p.phase.Established?) && !p.tx.finPending ==>
              Rtx(p).phase == p.phase && !Rtx(p).tx.finPending && p.edge <= Rtx(p).edge
    ensures p.phase.CloseWait? || p.phase.LastAck? ==> Rtx(p).phase.CloseWait? || Rtx(p).phase.LastAck?
  {
    hide NewEdge, Window, RtxData, PhaseInv, Queue, AllHonest, Output, Wrap;
    if |p.tx.buf| > 0 {
      RtxDataFrame(p);
    }
    if p.phase.Established? && !p.tx.finPending {
      OutputOpen(p);
    } else if p.phase.CloseWait? {
      OutputClosing(p);
    } else if p.phase.LastAck? {
      OutputNotSending(p);
    }
  }

  /** Retransmitting data either sends one segment or runs tcp_output. */
  lemma RtxDataFrame(p: Pcb)
    requires Sized(p) && |p.tx.buf| > 0
    ensures var q := RtxData(p);
            q == Output(p) || (q.phase == p.phase && q.tx.finPending == p.tx.finPending && p.edge <= q.edge)
  {
    hide NewEdge, Window, ResendLen, LossThreshold, Output, Wrap, Diff;
  }

  lemma OutputNotSending(p: Pcb)
    requires Sized(p) && !Sending(p)
    ensures Output(p) == p
  {
  }

  /** The events of `es`, taken in order. */
  function Run(p: Pcb, es: seq<Event>): (r: Pcb)
    requires Sized(p)
    ensures Sized(r)
    decreases |es|
  {
    if |es| == 0 then p else Step(Run(p, es[..|es| - 1]), es[|es| - 1])
  }

  /** The server of a connection whose client opened with `syn`. */
  function Server(iss: u32, syn: Seg, o: Options): (r: Pcb)
    ensures Sized(r)
  {
    TcpModel.Accept(iss, syn, o)
  }

  lemma ServerInv(iss: u32, syn: Seg, o: Options)
    ensures EchoInv(Server(iss, syn, o), syn.seqno)
  {
    var b := Blank(iss, SynRcvd, o.sackPerm, o.timestamps, o.scale);
    var nxt := Wrap(syn.seqno + 1);
    var b1 := b.(tx := b.tx.(wnd := syn.win, maxWnd := syn.win, wl1 := syn.seqno, wl2 := syn.ackno),
                 rx := b.rx.(nxt := nxt, adv := nxt));
    CountAll(Falses(RCVBUF), false);
    EdgeKept(b1, true, false, true, iss, []);
    hide NewEdge, Window, Count, SDiff;
    assert Good(Server(iss, syn, o));
  }

  ghost predicate AllObey(p: Pcb, es: seq<Event>, irs: u32)
    requires Sized(p)
  {
    forall k :: 0 <= k < |es| ==> Obeys(Run(p, es[..k]), es[k], irs)
  }

  /** Main result: for every run of the echo server against a peer that stays
      inside the advertised window, every byte handed over has been written back
      (accepted by tcp_write), whatever the ACKs, windows and timers were. */
  lemma {:induction false} EchoIsLossless(iss: u32, syn: Seg, o: Options, es: seq<Event>)
    requires AllObey(Server(iss, syn, o), es, syn.seqno)
    ensures EchoInv(Run(Server(iss, syn, o), es), syn.seqno)
    ensures Run(Server(iss, syn, o), es).accepted == Run(Server(iss, syn, o), es).delivered
    decreases |es|
  {
    hide Listening, Good, Obeys, Server, Step;
    ServerInv(iss, syn, o);
    if |es| > 0 {
      var init := es[..|es| - 1];
      forall k | 0 <= k < |init|
        ensures Obeys(Run(Server(iss, syn, o), init[..k]), init[k], syn.seqno)
      {
        assert init[..k] == es[..k];
      }
      EchoIsLossless(iss, syn, o, init);
      assert es[..|es| - 1] == init;
      StepKeeps(Run(Server(iss, syn, o), init), es[|es| - 1], syn.seqno);
    }
  }

  /** What the echo handler is given in any state and by any segment, and how much of it
      tcp_write takes: all of it exactly if it fits the free send buffer. */
  lemma EchoWholeExactlyIf(p: Pcb, irs: u32, s: Seg)
    requires Listening(p, irs) && p.phase.Established?
    ensures var r := Stored(p.rx, s.seqno, s.data);
            var n, room := Prefix(r.mark, 0), SNDBUF - |p.tx.buf|;
            var q := Reasm(p, s.seqno, s.data, EchoBack).0;
            && 0 <= room && n <= |r.buf|
            && q.delivered == p.delivered + r.buf[..n]
            && q.accepted == p.accepted + r.buf[..if n <= room then n else room]
            && (q.accepted == p.accepted + r.buf[..n] <==> n <= room)
  {
    ListeningSized(p, irs);
    StoredFrame(p, s);
    var r := Stored(p.rx, s.seqno, s.data);
    var p1 := p.(rx := r);
    var n := Prefix(r.mark, 0);
    hide Good, Listening, Stored, Wrap;
    if n > 0 {
      EchoTakes(p1, n);
    }
  }

  /** tcp_write takes as much as there is room for. */
  lemma WriteTakes(p: Pcb, bytes: seq<u8>)
    requires Good(p) && p.phase.Established?
    ensures var room, q := SNDBUF - |p.tx.buf|, Write(p, bytes).0;
            && 0 <= room && q.delivered == p.delivered
            && q.accepted == p.accepted + bytes[..if |bytes| <= room then |bytes| else room]
  {
    var room := SNDBUF - |p.tx.buf|;
    RoomLeft(p);
    var k := if |bytes| <= room then |bytes| else room;
    EnqueueKeeps(p, bytes[..k]);
    OutputKeeps(Enqueue(p, bytes[..k]));
    hide Good, Output;
  }

  lemma RoomLeft(p: Pcb)
    requires Good(p)
    ensures |p.tx.buf| <= SNDBUF
  {
  }

  /** The handler's write of `n` delivered bytes. */
  lemma EchoTakes(p: Pcb, n: nat)
    requires Good(p) && p.phase.Established? && 0 < n <= RCVBUF
    ensures var room := SNDBUF - |p.tx.buf|;
            var q := React(Deliver(p, n), EchoBack(p.rx.buf[..n]));
            && 0 <= room
            && q.delivered == p.delivered + p.rx.buf[..n]
            && q.accepted == p.accepted + p.rx.buf[..if n <= room then n else room]
  {
    DeliverFrame(p, n);
    hide Good, Output, Write;
    var bytes, d := p.rx.buf[..n], Deliver(p, n);
    WriteTakes(d, bytes);
    var room := SNDBUF - |p.tx.buf|;
    assert bytes[..if n <= room then n else room] == p.rx.buf[..if n <= room then n else room];
    var q := Write(d, bytes).0;
    assert React(q, []) == q;
    assert EchoBack(bytes)[1..] == [];
  }

  /** The peer's obedience is needed: with the send buffer full, one byte beyond
      the edge is still handed over, and its echo is lost. */
  lemma BeyondEdgeIsLost(p: Pcb, irs: u32, b: u8)
    requires Listening(p, irs) && p.phase.Established? && p.accepted == p.delivered
    requires |p.tx.buf| == SNDBUF && forall o :: 0 <= o < RCVBUF ==> !p.rx.mark[o]
    ensures var q := Reasm(p, p.rx.nxt, [b], EchoBack).0;
            q.delivered == p.delivered + [b] && q.accepted == p.accepted
  {
    hide Good, Count, Wrap, EdgeInv;
    ListeningSized(p, irs);
    FirstByte(p.rx, b);
    var r := Stored(p.rx, p.rx.nxt, [b]);
    var p1 := p.(rx := r);
    assert Prefix(r.mark, 0) == 1;
    var p2 := Deliver(p1, 1);
    assert p1.rx.buf[..1] == [b];
    assert Write(p2, [b]) == (p2, 0);
    assert React(p2, []) == p2;
    assert EchoBack([b])[1..] == [];
    assert React(p2, EchoBack([b])) == p2;
  }

  lemma FirstByte(r: Rx, b: u8)
    requires SizedRx(r) && forall o :: 0 <= o < RCVBUF ==> !r.mark[o]
    ensures var q := Stored(r, r.nxt, [b]);
            q.mark[0] && !q.mark[1] && q.buf[0] == b
  {
    assert Diff(r.nxt + 1, r.nxt) == 1;
    hide Count;
  }

  // ----- A run to the full send buffer -----

  const PLAIN := Options([], false, false, 1)

  /** A client that never opens its window: SYN, the ACK of the handshake, data. */
  function Opening(irs: u32): Seg {
    Seg(true, false, false, irs, 0, 0, [])
  }

  function Greeting(iss: u32, irs: u32): Event {
    Segment(Seg(false, false, true, Wrap(irs + 1), Wrap(iss + 1), 0, []), PLAIN, 0)
  }

  function Filling(irs: u32, data: seq<u8>): Event {
    Segment(Seg(false, false, false, Wrap(irs + 1), 0, 0, data), PLAIN, 0)
  }

  /** The peer shows no window and there is nothing in flight. */
  predicate Shut(p: Pcb, iss: u32, irs: u32) {
    && Sized(p) && p.used && p.phase.Established? && !p.tx.finPending && !p.sackOk && p.scale == 1
    && p.tx.una == p.tx.nxt == Wrap(iss + 1) && p.tx.wnd == 0
    && p.rx.nxt == Wrap(irs + 1) && p.delivered == [] && p.tx.buf == [] && p.edge == SNDBUF
    && forall o :: 0 <= o < RCVBUF ==> !p.rx.mark[o]
  }

  /** With a shut window nothing goes out. */
  lemma ShutOutput(p: Pcb)
    requires Sized(p) && p.tx.wnd == 0 && !p.tx.finPending && Diff(p.tx.nxt, p.tx.una) == 0
    ensures Output(p) == p
  {
    hide Diff;
  }

  lemma AckOfSyn(iss: u32)
    ensures var a := Wrap(iss + 1);
            SeqGt(a, iss) && SeqLeq(a, a) && SeqGeq(a, a) && Diff(a, iss) == 1 && Diff(a, a) == 0
  {
  }

  /** The SYN is answered, and the window is shut. */
  predicate Waiting(p: Pcb, iss: u32, irs: u32) {
    && Sized(p) && p.used && p.phase.SynRcvd? && !p.tx.finPending && !p.sackOk && p.scale == 1 && p.iss == iss
    && p.tx.una == iss && p.tx.nxt == Wrap(iss + 1) && p.tx.wnd == 0
    && p.rx.nxt == Wrap(irs + 1) && p.delivered == [] && p.tx.buf == [] && p.edge == SNDBUF
    && forall o :: 0 <= o < RCVBUF ==> !p.rx.mark[o]
  }

  lemma GreetingAcked(p: Pcb, iss: u32, irs: u32)
    requires Waiting(p, iss, irs)
    ensures Shut(OnAck(p, Greeting(iss, irs).s, []), iss, irs)
  {
    hide Output, Wrap, Diff, SeqGt, SeqLeq, SeqGeq;
    AckOfSyn(iss);
    WrapZero();
    var s := Greeting(iss, irs).s;
    var p1 := CumAck(p, s.ackno);
    assert p.tx.sacked[0..] == p.tx.sacked && p1.tx.una == s.ackno;
    var p2 := AckPhase(p1);
    assert p2.phase.Established? && 0 * p2.scale == 0;
    ShutOutput(p2.(tx := UpdateWnd(p2.tx, s.seqno, s.ackno, 0)));
  }

  lemma Greeted(iss: u32, irs: u32)
    ensures Shut(Step(Server(iss, Opening(irs), PLAIN), Greeting(iss, irs)), iss, irs)
  {
    hide Server, OnAck, Wrap, Diff;
    NewServer(iss, irs);
    GreetingAcked(Server(iss, Opening(irs), PLAIN), iss, irs);
  }

  lemma WrapZero()
    ensures Wrap(0) == 0
  {
  }

  /** The first window is the whole buffer. */
  lemma FreshEdge(r: Rx)
    requires r.buffered == 0 && r.adv == r.nxt
    ensures NewEdge(r, 0) == Wrap(r.nxt + SNDBUF) && Window(Wrap(r.nxt + SNDBUF), r.nxt) == SNDBUF
  {
  }

  lemma NewServer(iss: u32, irs: u32)
    ensures var p := Server(iss, Opening(irs), PLAIN);
            Waiting(p, iss, irs)
  {
    var b := Blank(iss, SynRcvd, false, false, 1);
    var nxt := Wrap(irs + 1);
    FreshEdge(b.rx.(nxt := nxt, adv := nxt));
    hide NewEdge, Window, Wrap;
  }

  /** As many bytes as the send buffer holds fill it. */
  lemma Filled(p: Pcb, iss: u32, irs: u32, data: seq<u8>)
    requires Shut(p, iss, irs) && |data| == SNDBUF
    ensures var q := Step(p, Filling(irs, data));
            Sized(q) && q.phase.Established? && |q.tx.buf| == SNDBUF && forall o :: 0 <= o < RCVBUF ==> !q.rx.mark[o]
  {
    var r := Stored(p.rx, Wrap(irs + 1), data);
    AllCovered(p.rx, irs, data);
    var p1 := p.(rx := r);
    var d := Deliver(p1, RCVBUF);
    WriteShut(d, r.buf);
    var e := Write(d, r.buf).0;
    hide Write, Stored, Wrap, Diff, Output;
    assert r.buf[..RCVBUF] == r.buf;
    assert EchoBack(r.buf)[1..] == [];
    assert React(e, []) == e;
    assert Reasm(p, Wrap(irs + 1), data, EchoBack) == (ShiftBytes(e, RCVBUF), RCVBUF);
  }

  lemma AllCovered(rx: Rx, irs: u32, data: seq<u8>)
    requires SizedRx(rx) && rx.nxt == Wrap(irs + 1) && |data| == RCVBUF
    ensures var r := Stored(rx, Wrap(irs + 1), data);
            (forall o :: 0 <= o < RCVBUF ==> r.mark[o]) && Prefix(r.mark, 0) == RCVBUF && |r.buf| == RCVBUF
  {
    hide Count;
    var r := Stored(rx, Wrap(irs + 1), data);
    forall o | 0 <= o < RCVBUF
      ensures r.mark[o]
    {
      assert Diff(rx.nxt + o, rx.nxt) == o;
      assert Covers(rx, Wrap(irs + 1), |data|, o);
    }
  }

  lemma WriteShut(p: Pcb, bytes: seq<u8>)
    requires Sized(p) && p.phase.Established? && p.tx.buf == [] && 0 < |bytes| <= SNDBUF
    requires p.tx.wnd == 0 && !p.tx.finPending && p.tx.nxt == p.tx.una
    ensures Write(p, bytes).0 == Enqueue(p, bytes)
  {
    assert bytes[..|bytes|] == bytes;
    ShutOutput(Enqueue(p, bytes));
    hide Output;
  }

  /** An obedient run of the echo server that ends with a full send buffer; from there one
      byte beyond the edge is handed over and its echo lost. */
  lemma BeyondEdgeReached(iss: u32, irs: u32, data: seq<u8>, b: u8)
    requires |data| == SNDBUF
    ensures var p0, es := Server(iss, Opening(irs), PLAIN), [Greeting(iss, irs), Filling(irs, data)];
            var p := Run(p0, es);
            var q := Reasm(p, p.rx.nxt, [b], EchoBack).0;
            AllObey(p0, es, irs) && |p.tx.buf| == SNDBUF && p.accepted == p.delivered
            && q.delivered == p.delivered + [b] && q.accepted == p.accepted
  {
    var p0, e1, e2 := Server(iss, Opening(irs), PLAIN), Greeting(iss, irs), Filling(irs, data);
    hide Server, Step, Run, AllObey, Obeys, Reasm, Shut, Listening, Opening, Greeting, Filling;
    Greeted(iss, irs);
    var p1 := Step(p0, e1);
    Filled(p1, iss, irs, data);
    TwoEvents(p0, e1, e2);
    GreetingObeys(iss, irs);
    FillingObeys(p1, iss, irs, data);
    TwoObey(p0, e1, e2, irs);
    OpensAt(irs);
    EchoIsLossless(iss, Opening(irs), PLAIN, [e1, e2]);
    BeyondEdgeIsLost(Step(p1, e2), irs, b);
  }

  lemma OpensAt(irs: u32)
    ensures Opening(irs).seqno == irs
  {
  }

  lemma GreetingObeys(iss: u32, irs: u32)
    ensures Obeys(Server(iss, Opening(irs), PLAIN), Greeting(iss, irs), irs)
  {
    NewServer(iss, irs);
    hide Server;
  }

  lemma FillingObeys(p: Pcb, iss: u32, irs: u32, data: seq<u8>)
    requires Shut(p, iss, irs) && |data| == SNDBUF
    ensures Obeys(p, Filling(irs, data), irs)
  {
  }

  lemma TwoEvents(p: Pcb, e1: Event, e2: Event)
    requires Sized(p)
    ensures Run(p, []) == p && Run(p, [e1]) == Step(p, e1) && Run(p, [e1, e2]) == Step(Step(p, e1), e2)
  {
    hide Step;
    assert [e1, e2][..1] == [e1] && [e1][..0] == [];
    assert Run(p, [e1]) == Step(Run(p, []), e1);
  }

  lemma TwoObey(p: Pcb, e1: Event, e2: Event, irs: u32)
    requires Sized(p) && Obeys(p, e1, irs) && Obeys(Step(p, e1), e2, irs)
    ensures AllObey(p, [e1, e2], irs)
  {
    hide Step, Obeys;
    TwoEvents(p, e1, e2);
    forall k | 0 <= k < 2
      ensures Obeys(Run(p, [e1, e2][..k]), [e1, e2][k], irs)
    {
      assert [e1, e2][..k] == if k == 0 then [] else [e1];
    }
  }
}
