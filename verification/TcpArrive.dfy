/** What net/tcp.c does with what arrives: bytes in order are handed over at once, everything
    else is acknowledged at once, and the window offered is nearly all the free space. */
module TcpArrive {
  import opened Words
  import opened TcpModel
  import opened TcpFlow
  import opened TcpSend

  // ----- Bytes in order -----

  /** The bytes of a segment at rcv_nxt stand at the front of the reassembly buffer. */
  lemma StoredInFront(r: Rx, data: seq<u8>)
    requires SizedRx(r) && |data| <= RCVBUF
    ensures var w := Stored(r, r.nxt, data);
            forall o :: 0 <= o < |data| ==> w.mark[o] && w.buf[o] == data[o]
  {
    hide Count;
    forall o | 0 <= o < |data|
      ensures Covers(r, r.nxt, |data|, o) && Diff(r.nxt + o, r.nxt) == o
    {
      SmallDiff(r.nxt, o);
    }
    hide Diff;
  }

  /** Every byte of a segment that lies in the window is kept for later, whatever arrives
      around it, and none that was kept is lost. */
  lemma KeptInWindow(r: Rx, seqno: u32, data: seq<u8>, i: nat, o: nat)
    requires SizedRx(r) && i < |data| < 0x8000_0000 && o < RCVBUF && Wrap(seqno + i) == Wrap(r.nxt + o)
    ensures var w := Stored(r, seqno, data);
            w.mark[o] && w.buf[o] == data[i] && forall j :: 0 <= j < RCVBUF && r.mark[j] ==> w.mark[j]
  {
    hide Count;
    AtOffset(r.nxt + o, seqno, i);
    hide Diff;
  }

  lemma AtOffset(x: int, seqno: u32, i: nat)
    requires i < 0x8000_0000 && Wrap(seqno + i) == Wrap(x)
    ensures Diff(x, seqno) == i
  {
    assert (x - seqno - i) % 0x1_0000_0000 == 0;
  }

  lemma SmallDiff(a: u32, o: nat)
    requires o < 0x1_0000_0000
    ensures Diff(a + o, a) == o
  {
  }

  /** The calls of the receive handler hand nothing over and take nothing back. */
  lemma {:induction false} ReactArrives(p: Pcb, calls: seq<AppCall>)
    requires Sized(p)
    ensures React(p, calls).delivered == p.delivered && React(p, calls).rx == p.rx.(adv := React(p, calls).rx.adv)
    decreases |calls|
  {
    hide Output, TryFin, SentWithin;
    if calls != [] {
      match calls[0] {
        case WriteCall(d) =>
          var n := if |p.tx.buf| + |d| > SNDBUF then SNDBUF - |p.tx.buf| else |d|;
          if Sending(p) && n > 0 {
            OutputSends(Enqueue(p, d[..n]));
          }
          ReactArrives(Write(p, d).0, calls[1..]);
        case CloseCall =>
          FinSends(p.(tx := p.tx.(finPending := true)));
          ReactArrives(Close(p), calls[1..]);
      }
    }
  }

  /** `bytes` have been handed over since `p`, and rcv_nxt has moved on by as many. */
  ghost predicate HandedOver(p: Pcb, q: Pcb, bytes: seq<u8>) {
    q.delivered == p.delivered + bytes && q.rx.nxt == Wrap(p.rx.nxt + |bytes|)
  }

  /** A segment at rcv_nxt is handed over whole, and whatever it joins to. */
  lemma ReasmHandsOver(p: Pcb, data: seq<u8>, h: Handler) returns (more: seq<u8>)
    requires Sized(p) && 1 <= |data| <= RCVBUF
    ensures var r := Reasm(p, p.rx.nxt, data, h);
            r.1 == |data| + |more| && HandedOver(p, r.0, data + more)
  {
    hide Count, React, Covers, Prefix;
    StoredInFront(p.rx, data);
    var w := Stored(p.rx, p.rx.nxt, data);
    hide Stored;
    var n := Prefix(w.mark, 0);
    more := w.buf[|data|..n];
    assert w.buf[..n] == data + more;
    var p1 := p.(rx := w);
    StoredNext(p.rx, data);
    ReactArrives(Deliver(p1, n), h(w.buf[..n]));
  }

  lemma StoredNext(r: Rx, data: seq<u8>)
    requires SizedRx(r)
    ensures Stored(r, r.nxt, data).nxt == r.nxt
  {
    hide Count, Covers;
  }

  /** So is one that arrives while the connection is open or half closed by us. */
  lemma InOrderHandedOver(p: Pcb, s: Seg, h: Handler) returns (bytes: seq<u8>)
    requires Sized(p) && (p.phase.Established? || p.phase.FinWait1? || p.phase.FinWait2?)
    requires s.seqno == p.rx.nxt && 1 <= |s.data| <= RCVBUF
    ensures |bytes| >= |s.data| && bytes[..|s.data|] == s.data
    ensures OnData(p, s, h).delivered == p.delivered + bytes
  {
    hide Reasm, TryFin, NewEdge, Window, FinReached, Wrap, SentWithin;
    var more := ReasmHandsOver(p, s.data, h);
    bytes := s.data + more;
    var q := Reasm(p, s.seqno, s.data, h).0;
    var t := TakeFin(if p.phase.Established? then q else PureAck(q), s);
    FinSends(t.(phase := CloseWait, tx := t.tx.(finPending := true)));
  }

  // ----- Acknowledgements sent at once -----

  /** The last segment out is a pure ACK for everything received in order. */
  ghost predicate AckedNow(p: Pcb, q: Pcb) {
    && |q.out| > |p.out| && q.out[|q.out| - 1].ack && q.out[|q.out| - 1].data == []
    && q.out[|q.out| - 1].ackno == q.rx.nxt && q.out[|q.out| - 1].seqno == q.tx.nxt
  }

  /** A segment that leaves a gap is answered at once, and so is everything that arrives once
      a FIN has gone out or come in. */
  lemma AnsweredAtOnce(p: Pcb, s: Seg, h: Handler)
    requires Sized(p) && (s.data != [] || s.fin)
    requires match p.phase
             case Established => s.data != [] && !s.fin && Reasm(p, s.seqno, s.data, h).1 == 0
             case FinWait1 => s.data != [] && !s.fin && Reasm(p, s.seqno, s.data, h).1 == 0
             case FinWait2 => s.data != [] && !s.fin && Reasm(p, s.seqno, s.data, h).1 == 0
             case TimeWait => s.fin
             case CloseWait => true
             case LastAck => true
             case _ => false
    ensures AckedNow(p, OnData(p, s, h))
  {
    hide NewEdge, Window, Stored, Prefix, React;
  }

  /** The peer's FIN behind the last byte is taken and acknowledged; an open connection then
      waits for us to close, a closed one ends. */
  lemma FinTaken(p: Pcb, s: Seg, h: Handler)
    requires Sized(p) && p.used && s.fin && s.data == [] && s.seqno == p.rx.nxt && !p.tx.finPending
    requires p.phase.Established? || p.phase.FinWait1? || p.phase.FinWait2?
    ensures var q := OnData(p, s, h);
            && q.rx.nxt == Wrap(p.rx.nxt + 1) && |q.out| > |p.out|
            && q.out[|p.out|].ack && q.out[|p.out|].ackno == Wrap(p.rx.nxt + 1)
            && (p.phase.Established? ==> q.phase.CloseWait? || q.phase.LastAck?)
            && (!p.phase.Established? ==> q.phase.TimeWait?)
  {
    hide NewEdge, Window, Reasm, TryFin, SentWithin;
    FinHere(p, s);
    hide FinReached;
    var t := TakeFin(p, s);
    FinSends(t.(phase := CloseWait, tx := t.tx.(finPending := true)));
    FinPhase(t.(phase := CloseWait, tx := t.tx.(finPending := true)));
  }

  lemma FinHere(p: Pcb, s: Seg)
    requires s.fin && s.data == [] && s.seqno == p.rx.nxt
    ensures FinReached(p, s) && Wrap(s.seqno + |s.data|) == p.rx.nxt
  {
  }

  lemma FinPhase(p: Pcb)
    requires Sized(p) && p.phase.CloseWait?
    ensures TryFin(p).phase.CloseWait? || TryFin(p).phase.LastAck?
  {
    hide NewEdge, Window, Wrap;
  }

  /** The timer's segments: a delayed ACK of everything received, or the same one before
      snd_una to make an idle peer answer. */
  lemma NudgeAnswers(p: Pcb, keepalive: bool)
    requires Sized(p) && p.used
    ensures var q := Nudge(p, keepalive);
            && |q.out| == |p.out| + 1 && q.tx == p.tx && q.phase == p.phase
            && q.out[|p.out|].ack && q.out[|p.out|].ackno == p.rx.nxt && q.out[|p.out|].data == []
            && (keepalive && p.phase.Established? && p.tx.buf == [] ==> q.out[|p.out|].seqno == Wrap(p.tx.una - 1))
            && (!keepalive ==> AckedNow(p, q))
  {
    hide NewEdge, Window, Wrap;
  }

  // ----- The window offered -----

  /** The space for bytes that are not there yet, in both buffers. */
  function Space(p: Pcb): nat {
    var r := if p.rx.buffered < 2048 then 2048 - p.rx.buffered else 0;
    var q := if |p.tx.buf| < 2048 then 2048 - |p.tx.buf| else 0;
    if r < q then r else q
  }

  /** Every segment offers all the space there is; or, if that is hardly more, what had been
      offered before (RFC 1122, section 4.2.3.3). */
  lemma WindowOffered(p: Pcb, syn: bool, fin: bool, ack: bool, seqno: u32, data: seq<u8>)
    requires Sized(p) && p.rx.buffered >= 0 && -3072 <= SDiff(p.rx.adv, p.rx.nxt) <= 2048
    ensures var q, g := SegOut(p, syn, fin, ack, seqno, data), SegOut(p, syn, fin, ack, seqno, data).out[|p.out|];
            && |q.out| == |p.out| + 1 && g.ackno == p.rx.nxt
            && if 0 < Space(p) - SDiff(p.rx.adv, p.rx.nxt) < 1024
               then g.win == Max(SDiff(p.rx.adv, p.rx.nxt), 0) && q.rx.adv == p.rx.adv
               else g.win == Space(p) && q.rx.adv == Wrap(p.rx.nxt + Space(p))
  {
    EdgeArith(p.rx.nxt, p.rx.adv, Space(p));
    DiffIsDistance(Wrap(p.rx.nxt + Space(p)), p.rx.adv);
    WindowIsDistance(Wrap(p.rx.nxt + Space(p)), p.rx.nxt);
    WindowIsDistance(p.rx.adv, p.rx.nxt);
    hide Diff, SDiff, Window, Wrap, SeqGt;
  }

  // ----- The handshake -----

  /** The answer to our SYN, acknowledging it: the connection is open at the peer's position
      and window, and the answer is acknowledged; one that acknowledges anything else ends it. */
  lemma SynAnswered(p: Pcb, s: Seg, o: Options, h: Handler)
    requires Sized(p) && p.used && p.phase.SynSent? && s.syn && s.ack
    ensures var q := Input(p, s, o, h);
            if s.ackno == Wrap(p.iss + 1)
            then && q.used && q.phase.Established? && q.tx.una == s.ackno && q.tx.wnd == s.win && q.tx.maxWnd == s.win
                 && q.rx.nxt == Wrap(s.seqno + 1) && q.scale == o.scale && AckedNow(p, q)
            else !q.used && q.out == p.out
  {
    hide NewEdge, Window, Wrap;
  }

  /** The answer to a peer's SYN: a SYN of our own that acknowledges it. */
  lemma SynTaken(iss: u32, s: Seg, o: Options)
    ensures var q := Accept(iss, s, o);
            && q.used && q.phase.SynRcvd? && q.tx.una == iss && q.tx.nxt == Wrap(iss + 1) && q.tx.wnd == s.win
            && q.rx.nxt == Wrap(s.seqno + 1) && q.scale == o.scale
            && |q.out| == 1 && q.out[0].syn && q.out[0].ack && q.out[0].seqno == iss
            && q.out[0].ackno == Wrap(s.seqno + 1) && q.out[0].data == []
  {
    hide NewEdge, Window, Wrap;
  }
}
