/** What every operation of one endpoint keeps on its sending side, whatever
    acknowledgements, windows, SACK edges, timers and application calls it meets:
    the send-space invariant and "only true stream bytes go on the wire". */
module TcpSend {
  import opened Words
  import opened TcpModel

  // ----- The send-space invariant -----

  /** Number of stream bytes the peer has acknowledged. */
  function Acked(t: Tx, stream: seq<u8>): int {
    |stream| - |t.buf|
  }

  /** snd_una is the sequence number right behind the acknowledged bytes. */
  ghost predicate AtAcked(t: Tx, iss: u32, stream: seq<u8>) {
    t.una == Wrap(iss + 1 + Acked(t, stream))
  }

  /** FIN is out and not acknowledged: it sits right behind the last accepted byte. */
  ghost predicate FinFlying(t: Tx, iss: u32, stream: seq<u8>) {
    && AtAcked(t, iss, stream) && !t.finPending
    && t.finSeq == Wrap(iss + 1 + |stream|)
    && t.nxt == Wrap(t.finSeq + 1)
  }

  ghost predicate FinAcked(t: Tx, iss: u32, stream: seq<u8>) {
    && t.buf == [] && !t.finPending
    && t.finSeq == Wrap(iss + 1 + |stream|)
    && t.una == t.nxt == Wrap(t.finSeq + 1)
  }

  ghost predicate SynFlying(t: Tx, iss: u32, stream: seq<u8>) {
    stream == [] && t.buf == [] && t.una == iss && t.nxt == Wrap(iss + 1) && !t.finPending
  }

  /** Data phase: at most the queued bytes are in flight. */
  ghost predicate Open(t: Tx, iss: u32, stream: seq<u8>) {
    AtAcked(t, iss, stream) && Diff(t.nxt, t.una) <= |t.buf|
  }

  ghost predicate PhaseInv(phase: Phase, used: bool, t: Tx, iss: u32, stream: seq<u8>) {
    match phase
    case SynSent => SynFlying(t, iss, stream)
    case SynRcvd => SynFlying(t, iss, stream)
    case Established => Open(t, iss, stream)
    case CloseWait => Open(t, iss, stream) && t.finPending
    case LastAck => FinFlying(t, iss, stream) || (!used && FinAcked(t, iss, stream))
    case FinWait1 => FinFlying(t, iss, stream)
    case FinWait2 => FinAcked(t, iss, stream)
    case TimeWait => FinFlying(t, iss, stream) || FinAcked(t, iss, stream)
  }

  /** As PhaseInv, before the phase has caught up with snd_una. */
  ghost predicate AckedPhaseInv(phase: Phase, used: bool, t: Tx, iss: u32, stream: seq<u8>) {
    match phase
    case SynRcvd => SynFlying(t, iss, stream) || (stream == [] == t.buf && Open(t, iss, stream) && !t.finPending)
    case LastAck => FinFlying(t, iss, stream) || FinAcked(t, iss, stream)
    case FinWait1 => FinFlying(t, iss, stream) || FinAcked(t, iss, stream)
    case _ => PhaseInv(phase, used, t, iss, stream)
  }

  /** `part` is what `whole` has from position `off` on. */
  ghost predicate PartAt(part: seq<u8>, whole: seq<u8>, off: int) {
    0 <= off && off + |part| <= |whole| && forall i :: 0 <= i < |part| ==> part[i] == whole[off + i]
  }

  /** The queue is the unacknowledged tail of everything tcp_write accepted, and
      the scoreboard is clear behind it. */
  ghost predicate Queue(t: Tx, stream: seq<u8>) {
    && SizedTx(t)
    && (forall i :: |t.buf| <= i < SNDBUF ==> !t.sacked[i])
    && PartAt(t.buf, stream, Acked(t, stream))
  }

  // ----- Honest segments -----

  predicate FinSent(phase: Phase) {
    phase.LastAck? || phase.FinWait1? || phase.FinWait2? || phase.TimeWait?
  }

  /** The peer's FIN has been taken. */
  predicate FinTaken(phase: Phase) {
    phase.CloseWait? || phase.LastAck? || phase.TimeWait?
  }

  /** The data bytes of `s` are the stream bytes from position `off` on. */
  ghost predicate DataAt(s: Seg, iss: u32, stream: seq<u8>, off: nat) {
    s.seqno == Wrap(iss + 1 + off) && PartAt(s.data, stream, off)
  }

  ghost predicate Honest(s: Seg, iss: u32, stream: seq<u8>, finSent: bool) {
    && (s.data != [] ==> exists off :: DataAt(s, iss, stream, off))
    && (s.fin ==> s.data == [] && finSent && s.seqno == Wrap(iss + 1 + |stream|))
    && (s.syn ==> s.data == [] && !s.fin && s.seqno == iss)
  }

  ghost predicate AllHonest(out: seq<Seg>, iss: u32, stream: seq<u8>, finSent: bool) {
    forall s :: s in out ==> Honest(s, iss, stream, finSent)
  }

  ghost predicate OutInv(p: Pcb) {
    AllHonest(p.out, p.iss, p.accepted, FinSent(p.phase))
  }

  ghost predicate Good(p: Pcb) {
    && Sized(p) && Queue(p.tx, p.accepted)
    && PhaseInv(p.phase, p.used, p.tx, p.iss, p.accepted)
    && OutInv(p)
  }

  /** `q` comes from `p` by sending alone: the receiving half is untouched and
      the history only grows. */
  ghost predicate SendOnly(p: Pcb, q: Pcb) {
    && q.iss == p.iss && q.sackOk == p.sackOk && q.tsOk == p.tsOk
    && q.rx == p.rx.(adv := q.rx.adv)
    && q.delivered == p.delivered
    && FinTaken(q.phase) == FinTaken(p.phase) && q.phase.SynSent? == p.phase.SynSent?
    && p.accepted <= q.accepted
    && p.out <= q.out
    && (FinSent(p.phase) ==> FinSent(q.phase) && q.accepted == p.accepted)
  }

  /** How far the advertised window may reach: with `at` bytes handed over and
      `len` bytes queued, no edge ever advertised lies beyond the space the queue
      still had for an echo, and the current edge is not far behind the largest. */
  ghost predicate EdgeInv(r: Rx, at: nat, len: nat, edge: int) {
    && len <= SNDBUF && 0 <= r.buffered
    && at <= edge <= at + SNDBUF - len
    && edge - 3 * SWS_MIN <= at + SDiff(r.adv, r.nxt) <= edge
  }

  ghost predicate EdgeOf(p: Pcb) {
    EdgeInv(p.rx, |p.delivered|, |p.tx.buf|, p.edge)
  }

  /** No byte is accepted, the queue does not grow, the window edge stays sound. */
  ghost predicate Calm(p: Pcb, q: Pcb) {
    q.accepted == p.accepted && |q.tx.buf| <= |p.tx.buf| && (EdgeOf(p) ==> EdgeOf(q))
  }

  /** Sending alone, with the connection alive as before. */
  ghost predicate Quiet(p: Pcb, q: Pcb) {
    SendOnly(p, q) && Calm(p, q) && q.used == p.used
  }

  // ----- Arithmetic of sequence numbers -----

  lemma WrapShift(base: int, d: int)
    ensures Wrap(Wrap(base) + d) == Wrap(base + d)
  {
  }

  lemma AckWithinFlight(una: u32, nxt: u32, ackno: u32)
    requires Diff(nxt, una) < 0x4000_0000
    requires SeqGt(ackno, una) && SeqLeq(ackno, nxt)
    ensures 0 < Diff(ackno, una) <= Diff(nxt, una)
    ensures ackno == Wrap(una + Diff(ackno, una))
    ensures Diff(nxt, ackno) == Diff(nxt, una) - Diff(ackno, una)
    ensures Diff(ackno, una) == Diff(nxt, una) ==> ackno == nxt
  {
  }

  /** At most the queue, plus one for SYN or FIN, is in flight. */
  lemma FlightSize(phase: Phase, used: bool, t: Tx, iss: u32, stream: seq<u8>)
    requires PhaseInv(phase, used, t, iss, stream) && |t.buf| <= SNDBUF
    ensures Diff(t.nxt, t.una) <= |t.buf| + 1
    ensures FinFlying(t, iss, stream) ==> Diff(t.nxt, t.una) == |t.buf| + 1
  {
    if FinFlying(t, iss, stream) {
      FinFlight(t, iss, stream);
    }
  }

  lemma FinFlight(t: Tx, iss: u32, stream: seq<u8>)
    requires FinFlying(t, iss, stream) && |t.buf| <= SNDBUF
    ensures Diff(t.nxt, t.una) == |t.buf| + 1
  {
    WrapShift(iss + 1 + |stream|, 1);
    SeqOrder(iss + 2 + |stream|, iss + 1 + Acked(t, stream));
  }

  // ----- Emitting one segment -----

  /** seg_out advertises no edge beyond the free echo space, also when
      silly-window avoidance holds an old edge or the edge shrinks. */
  lemma EdgeKept(p: Pcb, syn: bool, fin: bool, ack: bool, seqno: u32, data: seq<u8>)
    requires Sized(p) && EdgeOf(p)
    ensures EdgeOf(SegOut(p, syn, fin, ack, seqno, data))
  {
    hide NewEdge, Window, EdgeInv;
    EdgeStep(p.rx, |p.delivered|, |p.tx.buf|, p.edge);
  }

  lemma EdgeStep(r: Rx, at: nat, len: nat, edge: int)
    requires EdgeInv(r, at, len, edge)
    ensures var adv := NewEdge(r, len);
            EdgeInv(r.(adv := adv), at, len, Max(edge, at + Window(adv, r.nxt)))
  {
    var rwin := if r.buffered < RCVBUF then RCVBUF - r.buffered else 0;
    var avail := Min(rwin, SNDBUF - len);
    EdgeArith(r.nxt, r.adv, avail);
    var adv := NewEdge(r, len);
    WindowIsDistance(adv, r.nxt);
    assert SDiff(adv, r.nxt) == if 0 < avail - SDiff(r.adv, r.nxt) < SWS_MIN then SDiff(r.adv, r.nxt) else avail by {
      hide Wrap, SDiff;
      DiffIsDistance(Wrap(r.nxt + avail), r.adv);
    }
    hide NewEdge, Wrap, SDiff, Window;
  }

  lemma DiffIsDistance(a: u32, b: u32)
    ensures SeqGt(a, b) <==> SDiff(a, b) > 0
    ensures SeqGt(a, b) ==> Diff(a, b) == SDiff(a, b)
  {
  }

  lemma WindowIsDistance(adv: u32, nxt: u32)
    requires SDiff(adv, nxt) < 0x1_0000
    ensures Window(adv, nxt) == Max(SDiff(adv, nxt), 0)
  {
  }

  lemma EdgeArith(nxt: u32, adv: u32, avail: nat)
    requires avail <= SNDBUF && -3 * SWS_MIN <= SDiff(adv, nxt) <= SNDBUF
    ensures SDiff(Wrap(nxt + avail), adv) == avail - SDiff(adv, nxt)
    ensures SDiff(Wrap(nxt + avail), nxt) == avail
  {
  }

  lemma HonestGrows(out: seq<Seg>, iss: u32, stream: seq<u8>, bytes: seq<u8>)
    requires AllHonest(out, iss, stream, false)
    ensures AllHonest(out, iss, stream + bytes, false)
  {
    forall s | s in out
      ensures Honest(s, iss, stream + bytes, false)
    {
      assert Honest(s, iss, stream, false);
      if s.data != [] {
        var off :| DataAt(s, iss, stream, off);
        assert DataAt(s, iss, stream + bytes, off);
      }
    }
  }

  lemma HonestMore(out: seq<Seg>, s: Seg, iss: u32, stream: seq<u8>, finSent: bool)
    requires AllHonest(out, iss, stream, finSent) && Honest(s, iss, stream, finSent)
    ensures AllHonest(out + [s], iss, stream, finSent)
  {
    hide Honest;
  }

  lemma FinHonest(out: seq<Seg>, s: Seg, iss: u32, stream: seq<u8>)
    requires AllHonest(out, iss, stream, false)
    requires s.fin && !s.syn && s.data == [] && s.seqno == Wrap(iss + 1 + |stream|)
    ensures AllHonest(out + [s], iss, stream, true)
  {
    forall x | x in out
      ensures Honest(x, iss, stream, true)
    {
      assert Honest(x, iss, stream, false);
    }
  }

  lemma EmitData(p: Pcb, seqno: u32, data: seq<u8>, off: nat)
    requires Good(p)
    requires off + |data| <= |p.accepted| && seqno == Wrap(p.iss + 1 + off)
    requires data == p.accepted[off..off + |data|]
    ensures Good(SegOut(p, false, false, true, seqno, data))
    ensures Quiet(p, SegOut(p, false, false, true, seqno, data))
  {
    hide NewEdge, Window, AllHonest, PhaseInv, Queue, EdgeInv;
    var q := SegOut(p, false, false, true, seqno, data);
    if EdgeOf(p) {
      EdgeKept(p, false, false, true, seqno, data);
    }
    assert DataAt(q.out[|p.out|], p.iss, p.accepted, off);
    HonestMore(p.out, q.out[|p.out|], p.iss, p.accepted, FinSent(p.phase));
  }

  lemma EmitFrame(p: Pcb, syn: bool, fin: bool, ack: bool, seqno: u32, data: seq<u8>)
    requires Sized(p)
    ensures var q := SegOut(p, syn, fin, ack, seqno, data);
            q.phase == p.phase && q.tx == p.tx && q.rx == p.rx.(adv := q.rx.adv)
  {
    hide NewEdge, Window;
  }

  /** A segment without data; a FIN flag needs the phase that has sent it. */
  lemma EmitBare(p: Pcb, syn: bool, fin: bool, ack: bool, seqno: u32)
    requires Good(p)
    requires fin ==> FinSent(p.phase) && !syn && seqno == Wrap(p.iss + 1 + |p.accepted|)
    requires syn ==> seqno == p.iss
    ensures Good(SegOut(p, syn, fin, ack, seqno, []))
    ensures Quiet(p, SegOut(p, syn, fin, ack, seqno, []))
  {
    hide NewEdge, Window, AllHonest, PhaseInv, Queue, EdgeInv;
    var q := SegOut(p, syn, fin, ack, seqno, []);
    if EdgeOf(p) {
      EdgeKept(p, syn, fin, ack, seqno, []);
    }
    HonestMore(p.out, q.out[|p.out|], p.iss, p.accepted, FinSent(p.phase));
  }

  /** Changing only congestion and window fields of the sender. */
  lemma CongestionFields(p: Pcb, t: Tx)
    requires Good(p) && SizedTx(t)
    requires t == p.tx.(cwnd := t.cwnd, ssthresh := t.ssthresh, dupacks := t.dupacks,
                        wnd := t.wnd, maxWnd := t.maxWnd, wl1 := t.wl1, wl2 := t.wl2)
    ensures Good(p.(tx := t)) && Quiet(p, p.(tx := t))
  {
    hide AllHonest, Wrap, Diff;
  }

  // ----- tcp_try_fin, tcp_output, tcp_write, tcp_close -----

  /** tcp_try_fin sends the FIN only behind the last accepted byte. */
  lemma TryFinKeeps(p: Pcb)
    requires Good(p) && Sending(p)
    ensures Good(TryFin(p)) && Quiet(p, TryFin(p))
    ensures TryFin(p) == p || (FinSent(TryFin(p).phase) && p.tx.finPending)
  {
    hide NewEdge, Window, AllHonest;
    if p.tx.finPending && p.tx.nxt == Wrap(p.tx.una + |p.tx.buf|) {
      var q := SegOut(p, false, true, true, p.tx.nxt, []);
      if EdgeOf(p) {
        EdgeKept(p, false, true, true, p.tx.nxt, []);
      }
      WrapShift(p.iss + 1 + Acked(p.tx, p.accepted), |p.tx.buf|);
      FinHonest(p.out, q.out[|p.out|], p.iss, p.accepted);
    }
  }

  /** The unsent bytes are the stream bytes from snd_nxt on. */
  lemma UnsentBytes(t: Tx, iss: u32, stream: seq<u8>, n: nat)
    requires Queue(t, stream) && Open(t, iss, stream) && Diff(t.nxt, t.una) + n <= |t.buf|
    ensures var d := Diff(t.nxt, t.una);
            var a := Acked(t, stream) + d;
            a >= 0 && a + n <= |stream| && t.nxt == Wrap(iss + 1 + a) && t.buf[d..d + n] == stream[a..a + n]
  {
    WrapShift(iss + 1 + Acked(t, stream), Diff(t.nxt, t.una));
  }

  lemma SendChunkKeeps(p: Pcb, n: nat)
    requires Good(p) && Sending(p) && n <= Unsent(p)
    ensures Good(SendChunk(p, n)) && Quiet(p, SendChunk(p, n))
    ensures SendChunk(p, n).phase == p.phase
  {
    hide AllHonest, Queue, Wrap, Diff, SegOut;
    var d := Diff(p.tx.nxt, p.tx.una);
    UnsentBytes(p.tx, p.iss, p.accepted, n);
    var q := SegOut(p, false, false, true, p.tx.nxt, p.tx.buf[d..d + n]);
    EmitData(p, p.tx.nxt, p.tx.buf[d..d + n], Acked(p.tx, p.accepted) + d);
    EmitFrame(p, false, false, true, p.tx.nxt, p.tx.buf[d..d + n]);
    SentAdvances(p, n);
    NxtMoves(q, Wrap(p.tx.nxt + n));
  }

  /** Sending more of the queue moves only snd_nxt. */
  lemma NxtMoves(p: Pcb, nxt: u32)
    requires Good(p) && Sending(p) && Diff(nxt, p.tx.una) <= |p.tx.buf|
    ensures Good(p.(tx := p.tx.(nxt := nxt))) && Quiet(p, p.(tx := p.tx.(nxt := nxt)))
  {
    hide AllHonest, Wrap, Diff;
  }

  lemma {:induction false} OutputLoopKeeps(p: Pcb, unsent: nat, usable: nat, mss: nat)
    requires Good(p) && Sending(p) && unsent <= Unsent(p)
    ensures Good(OutputLoop(p, unsent, usable, mss))
    ensures Quiet(p, OutputLoop(p, unsent, usable, mss))
    ensures OutputLoop(p, unsent, usable, mss).phase == p.phase
    decreases unsent
  {
    hide AllHonest, PhaseInv, SendChunk, Unsent;
    var n := NextChunk(p, unsent, usable, mss);
    if n != 0 {
      SendChunkKeeps(p, n);
      SentAdvances(p, n);
      OutputLoopKeeps(SendChunk(p, n), unsent - n, usable - n, mss);
    }
  }

  lemma OutputKeeps(p: Pcb)
    requires Good(p)
    ensures Good(Output(p)) && Quiet(p, Output(p))
  {
    hide AllHonest, PhaseInv, Queue, OutputLoop, TryFin, Unsent, Usable;
    if Sending(p) && Unsent(p) >= 0 {
      OutputLoopKeeps(p, Unsent(p), Usable(p), EffMss(p));
      TryFinKeeps(OutputLoop(p, Unsent(p), Usable(p), EffMss(p)));
    }
  }

  lemma EnqueueKeeps(p: Pcb, bytes: seq<u8>)
    requires Good(p) && Sending(p) && |p.tx.buf| + |bytes| <= SNDBUF
    ensures Good(Enqueue(p, bytes)) && SendOnly(p, Enqueue(p, bytes))
  {
    HonestGrows(p.out, p.iss, p.accepted, bytes);
    hide AllHonest;
  }

  lemma WriteKeeps(p: Pcb, data: seq<u8>)
    requires Good(p)
    ensures Good(Write(p, data).0) && SendOnly(p, Write(p, data).0)
  {
    hide AllHonest, PhaseInv, Output, Queue;
    var n := if |p.tx.buf| + |data| > SNDBUF then SNDBUF - |p.tx.buf| else |data|;
    if Sending(p) && n > 0 {
      EnqueueKeeps(p, data[..n]);
      OutputKeeps(Enqueue(p, data[..n]));
    }
  }

  lemma RequestFin(p: Pcb)
    requires Good(p) && p.phase.Established?
    ensures Good(p.(tx := p.tx.(finPending := true))) && Quiet(p, p.(tx := p.tx.(finPending := true)))
  {
    hide AllHonest, Wrap, Diff, EdgeInv;
  }

  lemma CloseKeeps(p: Pcb)
    requires Good(p)
    ensures Good(Close(p)) && Quiet(p, Close(p))
  {
    hide AllHonest, Queue, PhaseInv, TryFin, EdgeInv;
    if p.used && p.phase.Established? {
      RequestFin(p);
      TryFinKeeps(p.(tx := p.tx.(finPending := true)));
    }
  }

  // ----- Acknowledgements -----

  /** A cumulative ACK inside (una, nxt] drops exactly the acknowledged bytes. */
  lemma CumAckQueue(p: Pcb, ackno: u32)
    requires Good(p) && NewAck(p.tx, ackno)
    ensures Queue(CumAck(p, ackno).tx, p.accepted) && Quiet(p, CumAck(p, ackno))
    ensures CumAck(p, ackno).phase == p.phase && OutInv(CumAck(p, ackno))
  {
    hide AllHonest, PhaseInv, GrownCwnd, NewAck;
    var adv := Diff(ackno, p.tx.una);
    var drop := Min(adv, |p.tx.buf|);
    assert p.tx.buf[drop..] == p.accepted[Acked(p.tx, p.accepted) + drop..];
  }

  lemma CumAckPhase(p: Pcb, ackno: u32)
    requires Good(p) && NewAck(p.tx, ackno) && !p.phase.SynSent?
    ensures AckedPhaseInv(p.phase, p.used, CumAck(p, ackno).tx, p.iss, p.accepted)
  {
    hide AllHonest, GrownCwnd, Queue, Wrap, Diff;
    FlightSize(p.phase, p.used, p.tx, p.iss, p.accepted);
    AckWithinFlight(p.tx.una, p.tx.nxt, ackno);
    var adv := Diff(ackno, p.tx.una);
    WrapShift(p.iss + 1 + Acked(p.tx, p.accepted), adv);
    if p.phase.SynRcvd? {
      SynAckedArith(p.iss, ackno);
    }
  }

  lemma SynAckedArith(iss: u32, ackno: u32)
    requires SeqGt(ackno, iss) && SeqLeq(ackno, Wrap(iss + 1))
    ensures ackno == Wrap(iss + 1) && Diff(ackno, ackno) == 0
  {
  }

  lemma ResendHonest(p: Pcb, n: nat)
    requires Good(p) && AtAcked(p.tx, p.iss, p.accepted) && n <= |p.tx.buf|
    ensures Good(SegOut(p, false, false, true, p.tx.una, p.tx.buf[..n]))
    ensures Quiet(p, SegOut(p, false, false, true, p.tx.una, p.tx.buf[..n]))
  {
    var a := Acked(p.tx, p.accepted);
    assert p.tx.buf[..n] == p.accepted[a..a + n];
    hide AllHonest, PhaseInv, Queue, SegOut;
    EmitData(p, p.tx.una, p.tx.buf[..n], a);
  }

  /** Halving the window on loss touches nothing else. */
  lemma HalvedKeeps(p: Pcb)
    requires Good(p)
    ensures Good(Halved(p)) && Quiet(p, Halved(p)) && Halved(p).phase == p.phase
  {
    hide AllHonest, PhaseInv, Queue, EdgeInv, LossThreshold;
    AtLeastTwo(p.tx);
    CongestionFields(p, Halved(p).tx);
  }

  lemma AtLeastTwo(t: Tx)
    requires SizedTx(t)
    ensures SizedTx(t.(ssthresh := LossThreshold(t)))
  {
    hide Diff;
  }

  lemma ResendKeeps(p: Pcb, n: nat)
    requires Good(p) && Sending(p) && n <= |p.tx.buf|
    ensures Good(Resend(p, n)) && Quiet(p, Resend(p, n)) && Resend(p, n).phase == p.phase
  {
    assert AtAcked(p.tx, p.iss, p.accepted);
    hide AllHonest, PhaseInv, Queue, EdgeInv, SegOut, AtAcked;
    if n > 0 {
      ResendHonest(p, n);
      EmitFrame(p, false, false, true, p.tx.una, p.tx.buf[..n]);
    }
  }

  lemma FastRetransmitKeeps(p: Pcb)
    requires Good(p) && Sending(p)
    ensures Good(FastRetransmit(p)) && Quiet(p, FastRetransmit(p))
    ensures FastRetransmit(p).phase == p.phase
  {
    hide AllHonest, PhaseInv, Queue, EdgeInv, Wrap, ResendLen, Halved, Resend;
    HalvedKeeps(p);
    SameQueueLength(p);
    var p1 := Resend(Halved(p), ResendLen(p));
    ResendKeeps(Halved(p), ResendLen(p));
    CongestionFields(p1, p1.tx.(cwnd := Wrap(p1.tx.ssthresh + 3 * MSS)));
  }

  lemma SameQueueLength(p: Pcb)
    requires Sized(p)
    ensures |Halved(p).tx.buf| == |p.tx.buf|
  {
  }

  lemma OnDupAckKeeps(p: Pcb)
    requires Good(p) && Sending(p)
    ensures Good(OnDupAck(p)) && Quiet(p, OnDupAck(p))
    ensures OnDupAck(p).phase == p.phase
  {
    hide AllHonest, PhaseInv, Queue, Wrap, FastRetransmit, EdgeInv;
    var dups := (p.tx.dupacks + 1) % 0x100;
    var p1 := p.(tx := p.tx.(dupacks := dups));
    CongestionFields(p, p1.tx);
    if dups == 3 {
      FastRetransmitKeeps(p1);
    } else if dups > 3 {
      CongestionFields(p1, p1.tx.(cwnd := Wrap(p.tx.cwnd + MSS)));
    }
  }

  /** The two clamps bring any 32-bit edge into the queue. */
  lemma ClipEdgeInRange(e: u32, una: u32, len: nat)
    requires len <= SNDBUF
    ensures 0 <= ClipEdge(e, una, len) <= len
    ensures Diff(e, una) <= len ==> ClipEdge(e, una, len) == Diff(e, una)
  {
  }

  lemma {:induction false} MarkBlocksStay(t: Tx, blocks: seq<(u32, u32)>)
    requires SizedTx(t)
    requires forall i :: |t.buf| <= i < SNDBUF ==> !t.sacked[i]
    ensures forall i :: |t.buf| <= i < SNDBUF ==> !MarkBlocks(t, blocks).sacked[i]
    decreases |blocks|
  {
    hide ClipEdge;
    if blocks != [] {
      ClipEdgeInRange(blocks[0].1, t.una, |t.buf|);
      MarkBlocksStay(MarkBlock(t, blocks[0]), blocks[1..]);
    }
  }

  /** What ACK processing leaves before the phase has followed. */
  ghost predicate Acknowledging(p: Pcb, q: Pcb) {
    && Sized(q) && Queue(q.tx, q.accepted) && OutInv(q) && Quiet(p, q) && q.phase == p.phase
    && AckedPhaseInv(q.phase, q.used, q.tx, q.iss, q.accepted)
  }

  lemma PhaseIsAcked(phase: Phase, used: bool, t: Tx, iss: u32, stream: seq<u8>)
    requires PhaseInv(phase, used, t, iss, stream)
    ensures AckedPhaseInv(phase, used, t, iss, stream)
  {
    hide Wrap, Diff;
  }

  lemma CumOrDupKeeps(p: Pcb, s: Seg)
    requires Good(p) && !p.phase.SynSent?
    ensures Acknowledging(p, CumOrDup(p, s))
  {
    hide AllHonest, AckedPhaseInv, PhaseInv, Queue, CumAck, OnDupAck, NewAck, Wrap, Diff;
    if NewAck(p.tx, s.ackno) {
      CumAckQueue(p, s.ackno);
      CumAckPhase(p, s.ackno);
    } else if DupAck(p, s) {
      OnDupAckKeeps(p);
      var q := OnDupAck(p);
      PhaseIsAcked(q.phase, q.used, q.tx, q.iss, q.accepted);
    } else {
      PhaseIsAcked(p.phase, p.used, p.tx, p.iss, p.accepted);
    }
  }

  lemma SackedPhase(phase: Phase, used: bool, t: Tx, iss: u32, stream: seq<u8>, sacked: seq<bool>)
    requires AckedPhaseInv(phase, used, t, iss, stream)
    ensures AckedPhaseInv(phase, used, t.(sacked := sacked), iss, stream)
  {
    hide Wrap, Diff;
  }

  lemma AckNumbersKeep(p: Pcb, s: Seg, sacks: seq<(u32, u32)>)
    requires Good(p) && !p.phase.SynSent?
    ensures Acknowledging(p, AckNumbers(p, s, sacks))
  {
    hide AllHonest, AckedPhaseInv, PhaseInv, CumOrDup, MarkBlocks;
    CumOrDupKeeps(p, s);
    var q := CumOrDup(p, s);
    SackKeeps(p, q, sacks);
  }

  lemma SackedQueue(t: Tx, stream: seq<u8>, sacks: seq<(u32, u32)>)
    requires Queue(t, stream)
    ensures Queue(MarkBlocks(t, sacks), stream)
  {
    MarkBlocksStay(t, sacks);
    hide MarkBlocks;
  }

  lemma SackKeeps(p: Pcb, q: Pcb, sacks: seq<(u32, u32)>)
    requires Acknowledging(p, q)
    ensures Acknowledging(p, q.(tx := MarkBlocks(q.tx, sacks)))
  {
    hide Queue, AllHonest, AckedPhaseInv, PhaseInv, MarkBlocks;
    var t := MarkBlocks(q.tx, sacks);
    SackedQueue(q.tx, q.accepted, sacks);
    assert t == q.tx.(sacked := t.sacked);
    SackedPhase(q.phase, q.used, q.tx, q.iss, q.accepted, t.sacked);
  }

  /** snd_una has passed the SYN exactly when the SYN is acknowledged. */
  lemma SynAckSeen(t: Tx, iss: u32, stream: seq<u8>)
    requires SynFlying(t, iss, stream) || (stream == [] == t.buf && Open(t, iss, stream))
    ensures SeqGeq(t.una, Wrap(iss + 1)) <==> !SynFlying(t, iss, stream)
  {
  }

  /** snd_una has passed the FIN exactly when the FIN is acknowledged. */
  lemma FinAckSeen(t: Tx, iss: u32, stream: seq<u8>)
    requires |t.buf| <= SNDBUF && (FinFlying(t, iss, stream) || FinAcked(t, iss, stream))
    ensures SeqGeq(t.una, Wrap(t.finSeq + 1)) <==> FinAcked(t, iss, stream)
  {
    SeqOrder(iss + 1 + Acked(t, stream), iss + 2 + |stream|);
    WrapShift(iss + 1 + |stream|, 1);
  }

  lemma PhaseFollows(p: Pcb)
    requires Sized(p)
    requires AckedPhaseInv(p.phase, p.used, p.tx, p.iss, p.accepted)
    ensures PhaseInv(AckPhase(p).phase, AckPhase(p).used, p.tx, p.iss, p.accepted)
  {
    hide Wrap, Diff, SeqGeq, AtAcked;
    match p.phase {
      case SynRcvd => SynAckSeen(p.tx, p.iss, p.accepted);
      case LastAck => FinAckSeen(p.tx, p.iss, p.accepted);
      case FinWait1 => FinAckSeen(p.tx, p.iss, p.accepted);
      case _ =>
    }
  }

  lemma AckPhaseChanges(p: Pcb)
    requires Sized(p)
    ensures AckPhase(p) == p.(phase := AckPhase(p).phase, used := AckPhase(p).used)
    ensures FinSent(AckPhase(p).phase) == FinSent(p.phase)
    ensures FinTaken(AckPhase(p).phase) == FinTaken(p.phase)
    ensures AckPhase(p).phase.SynSent? == p.phase.SynSent?
  {
    hide SeqGeq, Wrap;
  }

  lemma AckPhaseKeeps(p: Pcb)
    requires Sized(p) && Queue(p.tx, p.accepted) && OutInv(p)
    requires AckedPhaseInv(p.phase, p.used, p.tx, p.iss, p.accepted)
    ensures Good(AckPhase(p)) && SendOnly(p, AckPhase(p)) && Calm(p, AckPhase(p))
  {
    hide AllHonest, Queue, PhaseInv, AckedPhaseInv, AckPhase;
    PhaseFollows(p);
    AckPhaseChanges(p);
  }

  lemma OnAckKeeps(p: Pcb, s: Seg, sacks: seq<(u32, u32)>)
    requires Good(p) && !p.phase.SynSent?
    ensures Good(OnAck(p, s, sacks)) && SendOnly(p, OnAck(p, s, sacks)) && Calm(p, OnAck(p, s, sacks))
  {
    hide AllHonest, Queue, PhaseInv, AckedPhaseInv, AckNumbers, AckPhase, Output, Wrap;
    AckNumbersKeep(p, s, sacks);
    AckPhaseKeeps(AckNumbers(p, s, sacks));
    var p1 := AckPhase(AckNumbers(p, s, sacks));
    if p1.used && Sending(p1) {
      var p2 := if s.syn then p1
                else p1.(tx := UpdateWnd(p1.tx, s.seqno, s.ackno, Wrap(s.win * p1.scale)));
      CongestionFields(p1, p2.tx);
      OutputKeeps(p2);
    }
  }

  // ----- Retransmission timer -----

  lemma RtxDataKeeps(p: Pcb)
    requires Good(p) && (Sending(p) || p.phase.LastAck?) && p.used && |p.tx.buf| > 0
    ensures Good(RtxData(p)) && SendOnly(p, RtxData(p)) && Calm(p, RtxData(p))
  {
    assert AtAcked(p.tx, p.iss, p.accepted);
    var persisting := p.tx.wnd == 0 && !p.phase.LastAck?;
    if Diff(p.tx.nxt, p.tx.una) > 0 {
      RtxResend(p);
    } else if persisting {
      ProbeKeeps(p);
    } else {
      hide AllHonest, Queue, PhaseInv, Output, Wrap;
      OutputKeeps(p);
    }
  }

  lemma RtxResend(p: Pcb)
    requires Good(p) && AtAcked(p.tx, p.iss, p.accepted) && |p.tx.buf| > 0
    requires Diff(p.tx.nxt, p.tx.una) > 0
    ensures Good(RtxData(p)) && SendOnly(p, RtxData(p)) && Calm(p, RtxData(p))
  {
    var n := ResendLen(p);
    var q := SegOut(p, false, false, true, p.tx.una, p.tx.buf[..n]);
    ResendHonest(p, n);
    CongestionFields(q, q.tx.(ssthresh := LossThreshold(p.tx), cwnd := MSS, dupacks := 0));
    hide AllHonest, Queue, PhaseInv, ResendLen, SegOut, LossThreshold, Wrap;
  }

  /** The one-byte persist probe is the next stream byte and counts as sent. */
  lemma ProbeKeeps(p: Pcb)
    requires Good(p) && Sending(p) && |p.tx.buf| > 0 && Diff(p.tx.nxt, p.tx.una) == 0 && p.tx.wnd == 0
    ensures Good(RtxData(p)) && SendOnly(p, RtxData(p)) && Calm(p, RtxData(p))
  {
    hide AllHonest, Queue, PhaseInv, SegOut, NewEdge, Window;
    SendChunkKeeps(p, 1);
    assert RtxData(p) == SendChunk(p, 1);
  }

  lemma RtxKeeps(p: Pcb)
    requires Good(p)
    ensures Good(Rtx(p)) && SendOnly(p, Rtx(p)) && Calm(p, Rtx(p))
  {
    if !p.used {
    } else if p.phase.SynSent? {
      hide AllHonest, Queue, SegOut;
      EmitBare(p, true, false, false, p.iss);
    } else if p.phase.SynRcvd? {
      hide AllHonest, Queue, SegOut;
      EmitBare(p, true, false, true, p.iss);
    } else if (Sending(p) || p.phase.LastAck?) && |p.tx.buf| > 0 {
      hide AllHonest, Queue, PhaseInv, RtxData;
      RtxDataKeeps(p);
    } else if p.phase.LastAck? {
      hide AllHonest, Queue, SegOut;
      EmitBare(p, false, true, true, p.tx.finSeq);
    } else if p.phase.FinWait1? {
      hide AllHonest, Queue, SegOut;
      if |p.tx.buf| > 0 {
        ResendHonest(p, Min(|p.tx.buf|, EffMss(p)));
      } else {
        EmitBare(p, false, true, true, p.tx.finSeq);
      }
    }
  }

  lemma NudgeKeeps(p: Pcb, keepalive: bool)
    requires Good(p)
    ensures Good(Nudge(p, keepalive)) && SendOnly(p, Nudge(p, keepalive)) && Calm(p, Nudge(p, keepalive))
  {
    hide AllHonest, Queue, PhaseInv, SegOut, Wrap;
    EmitBare(p, false, false, true, Wrap(p.tx.una - 1));
    EmitBare(p, false, false, true, p.tx.nxt);
  }

  // ----- The receiving half leaves the sending invariants alone -----

  lemma {:induction false} ReactKeeps(p: Pcb, calls: seq<AppCall>)
    requires Good(p)
    ensures Good(React(p, calls)) && SendOnly(p, React(p, calls))
    decreases |calls|
  {
    hide AllHonest, Queue, PhaseInv, Write, Close;
    if calls != [] {
      match calls[0] {
        case WriteCall(d) =>
          WriteKeeps(p, d);
          ReactKeeps(Write(p, d).0, calls[1..]);
        case CloseCall =>
          CloseKeeps(p);
          ReactKeeps(Close(p), calls[1..]);
      }
    }
  }
}
