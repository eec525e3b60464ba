/** What reassembly keeps: the handler only ever gets the peer's stream, in
    order and without a gap, however segments are lost, repeated or reordered. */
module TcpReceive {
  import opened Words
  import opened TcpModel
  import opened TcpSend

  // ----- Counting marks -----

  lemma {:induction false} CountAppend(a: seq<bool>, b: seq<bool>)
    ensures Count(a + b) == Count(a) + Count(b)
  {
    if a == [] {
      assert a + b == b;
    } else {
      assert (a + b)[1..] == a[1..] + b;
      CountAppend(a[1..], b);
    }
  }

  lemma {:induction false} CountAll(a: seq<bool>, v: bool)
    requires forall i :: 0 <= i < |a| ==> a[i] == v
    ensures Count(a) == if v then |a| else 0
  {
    if a != [] {
      CountAll(a[1..], v);
    }
  }

  /** Shifting out a fully marked prefix removes exactly its marks. */
  lemma CountShift(mark: seq<bool>, n: nat)
    requires n <= |mark| && forall i :: 0 <= i < n ==> mark[i]
    ensures Count(mark[n..] + Falses(n)) == Count(mark) - n
  {
    assert mark == mark[..n] + mark[n..];
    CountAppend(mark[..n], mark[n..]);
    CountAll(mark[..n], true);
    CountAppend(mark[n..], Falses(n));
    CountAll(Falses(n), false);
  }

  // ----- The receiving invariant -----

  /** Every marked byte is the peer's stream byte for its position, where the
      byte for window offset `o` is kept at index `o + lag`. */
  ghost predicate MarkedRight(r: Rx, at: nat, stream: seq<u8>, lag: nat) {
    SizedRx(r)
    && forall o :: 0 <= o < RCVBUF && r.mark[o] ==>
         at + o < |stream| && o + lag < RCVBUF && r.buf[o + lag] == stream[at + o]
  }

  /** Position and marks of the receiving half: `at` bytes have been handed over. */
  ghost predicate RxInv(r: Rx, phase: Phase, at: nat, irs: u32, stream: seq<u8>, lag: nat) {
    && MarkedRight(r, at, stream, lag)
    && r.buffered == Count(r.mark)
    && (phase.SynSent? ==> Count(r.mark) == 0 && forall o :: 0 <= o < RCVBUF ==> !r.mark[o])
    && (!phase.SynSent? ==> r.nxt == Wrap(irs + 1 + at + if FinTaken(phase) then 1 else 0))
  }

  ghost predicate Received(delivered: seq<u8>, phase: Phase, stream: seq<u8>, peerFin: bool) {
    && delivered <= stream
    && (phase.SynSent? ==> delivered == [])
    && (FinTaken(phase) ==> delivered == stream && peerFin)
  }

  ghost predicate RecvInv(p: Pcb, irs: u32, stream: seq<u8>, peerFin: bool, lag: nat) {
    Received(p.delivered, p.phase, stream, peerFin) && RxInv(p.rx, p.phase, |p.delivered|, irs, stream, lag)
  }

  lemma SendOnlyRecv(p: Pcb, q: Pcb, irs: u32, stream: seq<u8>, peerFin: bool, lag: nat)
    requires RecvInv(p, irs, stream, peerFin, lag) && SendOnly(p, q)
    ensures RecvInv(q, irs, stream, peerFin, lag)
  {
    hide Count, Wrap;
  }

  /** The peer accepting more bytes, or sending its FIN, changes nothing here. */
  lemma StreamGrows(p: Pcb, irs: u32, stream: seq<u8>, peerFin: bool, more: seq<u8>, fin: bool)
    requires RecvInv(p, irs, stream, peerFin, 0)
    requires stream <= more && (peerFin ==> fin && more == stream)
    ensures RecvInv(p, irs, more, fin, 0)
  {
    hide Count, Wrap;
    assert |stream| <= |more| && stream == more[..|stream|];
  }

  // ----- reasm_insert -----

  /** Window offset `o` and segment byte `i` meet only at the same stream position. */
  lemma SamePosition(irs: u32, at: nat, off: nat, len: nat, o: nat)
    requires at < 0x8000_0000 && off + len < 0x8000_0000 && o < RCVBUF
    ensures var d := Diff(Wrap(irs + 1 + at) + o, Wrap(irs + 1 + off));
            d < len ==> d == at + o - off
  {
    assert Diff(Wrap(irs + 1 + at) + o, Wrap(irs + 1 + off)) == (at + o - off) % 0x1_0000_0000;
  }

  lemma StoredRight(r: Rx, at: nat, irs: u32, stream: seq<u8>, s: Seg, off: nat)
    requires MarkedRight(r, at, stream, 0) && r.nxt == Wrap(irs + 1 + at)
    requires at <= |stream| < 0x8000_0000 && DataAt(s, irs, stream, off)
    ensures MarkedRight(Stored(r, s.seqno, s.data), at, stream, 0)
  {
    hide Count, Wrap, Diff;
    var q := Stored(r, s.seqno, s.data);
    forall o | 0 <= o < RCVBUF && q.mark[o]
      ensures at + o < |stream| && q.buf[o] == stream[at + o]
    {
      SamePosition(irs, at, off, |s.data|, o);
    }
  }

  lemma StoredKeeps(p: Pcb, s: Seg, irs: u32, stream: seq<u8>, peerFin: bool)
    requires RecvInv(p, irs, stream, peerFin, 0) && |stream| < 0x8000_0000
    requires Honest(s, irs, stream, peerFin) && s.data != []
    requires !p.phase.SynSent? && !FinTaken(p.phase)
    ensures RecvInv(p.(rx := Stored(p.rx, s.seqno, s.data)), irs, stream, peerFin, 0)
  {
    var off :| DataAt(s, irs, stream, off);
    StoredRight(p.rx, |p.delivered|, irs, stream, s, off);
    hide Count, Wrap, Diff, MarkedRight, Covers;
  }

  /** A marked prefix of the window holds the next bytes of the stream. */
  lemma NextBytes(r: Rx, at: nat, stream: seq<u8>, n: nat)
    requires MarkedRight(r, at, stream, 0) && at <= |stream|
    requires n <= RCVBUF && forall i :: 0 <= i < n ==> r.mark[i]
    ensures at + n <= |stream| && stream[..at] + r.buf[..n] == stream[..at + n]
  {
    if n > 0 {
      assert r.mark[n - 1];
    }
    forall i | 0 <= i < n
      ensures r.buf[i] == stream[at + i]
    {
      assert r.mark[i];
    }
    assert r.buf[..n] == stream[at..at + n];
  }

  lemma DeliverKeeps(p: Pcb, n: nat, irs: u32, stream: seq<u8>, peerFin: bool)
    requires Sized(p) && RecvInv(p, irs, stream, peerFin, 0)
    requires !p.phase.SynSent? && !FinTaken(p.phase)
    requires n <= RCVBUF && forall i :: 0 <= i < n ==> p.rx.mark[i]
    ensures RecvInv(Deliver(p, n), irs, stream, peerFin, n)
  {
    hide Count, Wrap;
    var q := Deliver(p, n);
    var at := |p.delivered|;
    NextBytes(p.rx, at, stream, n);
    CountShift(p.rx.mark, n);
    WrapShift(irs + 1 + at, n);
    forall o | 0 <= o < RCVBUF && q.rx.mark[o]
      ensures at + n + o < |stream| && o + n < RCVBUF && q.rx.buf[o + n] == stream[at + n + o]
    {
      assert o < RCVBUF - n && p.rx.mark[o + n];
    }
  }

  lemma ShiftKeeps(p: Pcb, n: nat, irs: u32, stream: seq<u8>, peerFin: bool)
    requires Sized(p) && n <= RCVBUF && RecvInv(p, irs, stream, peerFin, n)
    ensures RecvInv(ShiftBytes(p, n), irs, stream, peerFin, 0)
  {
    hide Count, Wrap;
  }

  /** reasm_insert keeps both halves of the endpoint. */
  lemma ReasmKeeps(p: Pcb, s: Seg, h: Handler, irs: u32, stream: seq<u8>, peerFin: bool)
    requires Good(p) && RecvInv(p, irs, stream, peerFin, 0) && |stream| < 0x8000_0000
    requires Honest(s, irs, stream, peerFin) && s.data != []
    requires !p.phase.SynSent? && !FinTaken(p.phase)
    ensures var q := Reasm(p, s.seqno, s.data, h).0;
            && Good(q) && RecvInv(q, irs, stream, peerFin, 0) && Grows(p, q)
            && !q.phase.SynSent? && !FinTaken(q.phase)
  {
    hide AllHonest, Queue, PhaseInv, RxInv, Received, React, Stored, Honest, Deliver, ShiftBytes;
    StoredKeeps(p, s, irs, stream, peerFin);
    var p1 := p.(rx := Stored(p.rx, s.seqno, s.data));
    assert Good(p1) by { StoredFrame(p, s); }
    var n := Prefix(p1.rx.mark, 0);
    if n > 0 {
      var p2 := Deliver(p1, n);
      DeliverKeeps(p1, n, irs, stream, peerFin);
      DeliverFrame(p1, n);
      var calls := h(p1.rx.buf[..n]);
      var p3 := React(p2, calls);
      ReactKeeps(p2, calls);
      SendOnlyRecv(p2, p3, irs, stream, peerFin, n);
      ShiftKeeps(p3, n, irs, stream, peerFin);
      ShiftFrame(p3, n);
    }
  }

  lemma StoredFrame(p: Pcb, s: Seg)
    requires Good(p)
    ensures Good(p.(rx := Stored(p.rx, s.seqno, s.data)))
  {
    hide AllHonest, Queue, PhaseInv, Covers, Count;
  }

  /** The histories of `q` extend those of `p`. */
  ghost predicate Grows(p: Pcb, q: Pcb) {
    && q.iss == p.iss
    && p.accepted <= q.accepted && p.delivered <= q.delivered && p.out <= q.out
    && (FinSent(p.phase) ==> FinSent(q.phase) && q.accepted == p.accepted)
  }

  lemma DeliverFrame(p: Pcb, n: nat)
    requires Good(p) && n <= RCVBUF
    ensures Good(Deliver(p, n)) && Grows(p, Deliver(p, n)) && Deliver(p, n).phase == p.phase
  {
    hide AllHonest, Queue, PhaseInv;
  }

  lemma ShiftFrame(p: Pcb, n: nat)
    requires Good(p) && n <= RCVBUF
    ensures Good(ShiftBytes(p, n)) && Grows(p, ShiftBytes(p, n)) && ShiftBytes(p, n).phase == p.phase
  {
    hide AllHonest, Queue, PhaseInv;
  }

  // ----- tcp_input -----

  lemma PureAckKeeps(p: Pcb, irs: u32, stream: seq<u8>, peerFin: bool)
    requires Good(p) && RecvInv(p, irs, stream, peerFin, 0)
    ensures var q := PureAck(p);
            Good(q) && RecvInv(q, irs, stream, peerFin, 0) && Grows(p, q) && q.phase == p.phase && q.tx == p.tx
            && q.rx.nxt == p.rx.nxt && q.delivered == p.delivered && q.used == p.used
  {
    hide AllHonest, Queue, PhaseInv, RxInv, Received;
    EmitBare(p, false, false, true, p.tx.nxt);
    EmitFrame(p, false, false, true, p.tx.nxt, []);
    SendOnlyRecv(p, PureAck(p), irs, stream, peerFin, 0);
    hide SegOut;
  }

  /** With an honest peer the FIN is reached exactly when the whole stream has
      been handed over. */
  lemma FinMeansAll(irs: u32, at: nat, len: nat)
    requires at <= len < 0x8000_0000
    ensures Diff(Wrap(irs + 1 + at), Wrap(irs + 1 + len)) <= RCVBUF <==> at == len
    ensures Wrap(irs + 1 + at) == Wrap(irs + 1 + len) <==> at == len
  {
    assert Diff(Wrap(irs + 1 + at), Wrap(irs + 1 + len)) == (at - len) % 0x1_0000_0000;
  }

  lemma FinIsLast(p: Pcb, s: Seg, irs: u32, stream: seq<u8>, peerFin: bool)
    requires RecvInv(p, irs, stream, peerFin, 0) && |stream| < 0x8000_0000
    requires Honest(s, irs, stream, peerFin) && FinReached(p, s)
    requires !p.phase.SynSent? && !FinTaken(p.phase)
    ensures p.delivered == stream && peerFin && Wrap(s.seqno + |s.data|) == p.rx.nxt
  {
    hide MarkedRight, Count;
    FinMeansAll(irs, |p.delivered|, |stream|);
  }

  lemma PastFin(p: Pcb, phase: Phase, irs: u32, stream: seq<u8>, peerFin: bool)
    requires RecvInv(p, irs, stream, peerFin, 0) && p.delivered == stream && peerFin
    requires !p.phase.SynSent? && !FinTaken(p.phase) && FinTaken(phase)
    ensures RecvInv(p.(phase := phase, rx := p.rx.(nxt := Wrap(p.rx.nxt + 1))), irs, stream, peerFin, 0)
  {
    hide Count;
    WrapShift(irs + 1 + |stream|, 1);
    hide Wrap;
  }

  /** Taking the FIN moves rcv_nxt over it; `phase` is the phase entered. */
  lemma TakeFinKeeps(p: Pcb, s: Seg, phase: Phase, irs: u32, stream: seq<u8>, peerFin: bool)
    requires Good(p) && RecvInv(p, irs, stream, peerFin, 0) && |stream| < 0x8000_0000
    requires Honest(s, irs, stream, peerFin) && FinReached(p, s)
    requires !p.phase.SynSent? && !FinTaken(p.phase) && FinTaken(phase)
    ensures var q := TakeFin(p, s);
            && RecvInv(q.(phase := phase), irs, stream, peerFin, 0)
            && Good(q) && Grows(p, q) && q.phase == p.phase && q.tx == p.tx && q.used == p.used
    ensures p.delivered == stream
  {
    hide AllHonest, Queue, PhaseInv, RxInv, Received, Wrap, SegOut, FinReached, Honest;
    FinIsLast(p, s, irs, stream, peerFin);
    PastFin(p, phase, irs, stream, peerFin);
    var p1 := p.(rx := p.rx.(nxt := Wrap(p.rx.nxt + 1)));
    EmitBare(p1, false, false, true, p1.tx.nxt);
    EmitFrame(p1, false, false, true, p1.tx.nxt, []);
    SendOnlyRecv(p1.(phase := phase), TakeFin(p, s).(phase := phase), irs, stream, peerFin, 0);
  }

  lemma DataEstablishedKeeps(p: Pcb, s: Seg, h: Handler, irs: u32, stream: seq<u8>, peerFin: bool)
    requires Good(p) && RecvInv(p, irs, stream, peerFin, 0) && |stream| < 0x8000_0000
    requires Honest(s, irs, stream, peerFin) && p.phase.Established?
    ensures var q := DataEstablished(p, s, h);
            Good(q) && RecvInv(q, irs, stream, peerFin, 0) && Grows(p, q)
  {
    hide AllHonest, Queue, PhaseInv, RxInv, Received, Reasm, PureAck, TakeFin, FinReached, TryFin, Honest;
    var p1 := if |s.data| > 0 then
                var r := Reasm(p, s.seqno, s.data, h);
                if r.1 > 0 then r.0 else PureAck(r.0)
              else p;
    if |s.data| > 0 {
      var r := Reasm(p, s.seqno, s.data, h).0;
      ReasmKeeps(p, s, h, irs, stream, peerFin);
      PureAckKeeps(r, irs, stream, peerFin);
    }
    if p1.used && p1.phase.Established? && !p1.tx.finPending && FinReached(p1, s) {
      TakeFinKeeps(p1, s, CloseWait, irs, stream, peerFin);
      var p2 := TakeFin(p1, s);
      var p3 := p2.(phase := CloseWait, tx := p2.tx.(finPending := true));
      PassiveClose(p2);
      TryFinKeeps(p3);
      SendOnlyRecv(p3, TryFin(p3), irs, stream, peerFin, 0);
    }
  }

  lemma PassiveClose(p: Pcb)
    requires Good(p) && p.phase.Established?
    ensures Good(p.(phase := CloseWait, tx := p.tx.(finPending := true)))
  {
    hide AllHonest, Wrap, Diff;
  }

  lemma DataFinWaitKeeps(p: Pcb, s: Seg, h: Handler, irs: u32, stream: seq<u8>, peerFin: bool)
    requires Good(p) && RecvInv(p, irs, stream, peerFin, 0) && |stream| < 0x8000_0000
    requires Honest(s, irs, stream, peerFin) && (p.phase.FinWait1? || p.phase.FinWait2?)
    ensures var q := DataFinWait(p, s, h);
            Good(q) && RecvInv(q, irs, stream, peerFin, 0) && Grows(p, q)
  {
    hide AllHonest, Queue, PhaseInv, RxInv, Received, Reasm, PureAck, TakeFin, FinReached, Honest;
    var p1 := if |s.data| > 0 then PureAck(Reasm(p, s.seqno, s.data, h).0) else p;
    if |s.data| > 0 {
      ReasmKeeps(p, s, h, irs, stream, peerFin);
      PureAckKeeps(Reasm(p, s.seqno, s.data, h).0, irs, stream, peerFin);
    }
    if FinReached(p1, s) {
      TakeFinKeeps(p1, s, TimeWait, irs, stream, peerFin);
      ToTimeWait(TakeFin(p1, s));
    }
  }

  lemma ToTimeWait(p: Pcb)
    requires Good(p) && FinSent(p.phase) && !FinTaken(p.phase)
    ensures Good(p.(phase := TimeWait))
  {
    hide AllHonest, Queue, Wrap, Diff;
  }

  lemma OnDataKeeps(p: Pcb, s: Seg, h: Handler, irs: u32, stream: seq<u8>, peerFin: bool)
    requires Good(p) && RecvInv(p, irs, stream, peerFin, 0) && |stream| < 0x8000_0000
    requires Honest(s, irs, stream, peerFin)
    ensures var q := OnData(p, s, h);
            Good(q) && RecvInv(q, irs, stream, peerFin, 0) && Grows(p, q)
  {
    hide AllHonest, Queue, PhaseInv, RxInv, Received, PureAck, DataEstablished, DataFinWait, Honest;
    PureAckKeeps(p, irs, stream, peerFin);
    match p.phase {
      case Established => DataEstablishedKeeps(p, s, h, irs, stream, peerFin);
      case FinWait1 => DataFinWaitKeeps(p, s, h, irs, stream, peerFin);
      case FinWait2 => DataFinWaitKeeps(p, s, h, irs, stream, peerFin);
      case _ =>
    }
  }

  lemma AnsweredOpen(t: Tx, q: Tx, iss: u32, stream: seq<u8>)
    requires SynFlying(t, iss, stream) && q.una == q.nxt == t.nxt && q.buf == t.buf
    ensures Open(q, iss, stream)
  {
  }

  lemma AnsweredGood(p: Pcb, s: Seg, o: Options)
    requires Good(p) && p.phase.SynSent? && s.ackno == Wrap(p.iss + 1)
    ensures Good(Synchronised(p, s, o))
  {
    hide AllHonest, Wrap, Open, Queue;
    AnsweredOpen(p.tx, Synchronised(p, s, o).tx, p.iss, p.accepted);
    SameQueue(p.tx, Synchronised(p, s, o).tx, p.accepted);
  }

  lemma SameQueue(t: Tx, q: Tx, stream: seq<u8>)
    requires Queue(t, stream) && q.buf == t.buf && q.sacked == t.sacked && q.ssthresh == t.ssthresh
    ensures Queue(q, stream)
  {
  }

  lemma AnsweredRecv(p: Pcb, s: Seg, o: Options, irs: u32, stream: seq<u8>, peerFin: bool)
    requires Sized(p) && RecvInv(p, irs, stream, peerFin, 0) && p.phase.SynSent? && s.seqno == irs
    ensures RecvInv(Synchronised(p, s, o), irs, stream, peerFin, 0)
  {
    hide Count, Wrap;
  }

  lemma OnSynAckKeeps(p: Pcb, s: Seg, o: Options, irs: u32, stream: seq<u8>, peerFin: bool)
    requires Good(p) && RecvInv(p, irs, stream, peerFin, 0) && p.phase.SynSent?
    requires Honest(s, irs, stream, peerFin)
    ensures var q := OnSynAck(p, s, o);
            Good(q) && RecvInv(q, irs, stream, peerFin, 0) && Grows(p, q)
  {
    if s.syn && s.ack && s.ackno == Wrap(p.iss + 1) {
      hide AllHonest, Queue, PhaseInv, RxInv, Received, PureAck, Wrap;
      AnsweredGood(p, s, o);
      AnsweredRecv(p, s, o, irs, stream, peerFin);
      PureAckKeeps(Synchronised(p, s, o), irs, stream, peerFin);
    } else {
      hide AllHonest, Queue, PhaseInv, RxInv, Received, Wrap, SegOut;
      RefusedGood(p);
    }
  }

  lemma RefusedGood(p: Pcb)
    requires Good(p) && p.phase.SynSent?
    ensures Good(p.(used := false))
  {
    hide AllHonest, Queue, Wrap;
  }

  /** One incoming segment of an honest peer: every invariant survives and both
      histories only grow, whatever it acknowledges and wherever it lies. */
  lemma InputKeeps(p: Pcb, s: Seg, o: Options, h: Handler, irs: u32, stream: seq<u8>, peerFin: bool)
    requires Good(p) && RecvInv(p, irs, stream, peerFin, 0) && |stream| < 0x8000_0000
    requires Honest(s, irs, stream, peerFin)
    ensures var q := Input(p, s, o, h);
            Good(q) && RecvInv(q, irs, stream, peerFin, 0) && Grows(p, q)
  {
    hide AllHonest, Queue, PhaseInv, RxInv, Received, PureAck, OnAck, OnData, OnSynAck, Honest;
    if !p.used {
    } else if p.phase.SynSent? {
      OnSynAckKeeps(p, s, o, irs, stream, peerFin);
    } else {
      var p1 := if s.ack then OnAck(p, s, o.sacks) else p;
      if s.ack {
        OnAckKeeps(p, s, o.sacks);
        SendOnlyRecv(p, p1, irs, stream, peerFin, 0);
      }
      if p1.used {
        PureAckKeeps(p1, irs, stream, peerFin);
        var p2 := if s.syn && s.ack && p1.phase.Established? then PureAck(p1) else p1;
        OnDataKeeps(p2, s, h, irs, stream, peerFin);
      }
    }
  }
}
