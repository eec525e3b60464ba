/** What net/tcp.c gets done: data that may go out go out, what arrives in order is handed
    over, what is lost is sent again, and a close ends in a FIN. */
module TcpProgress {
  import opened Words
  import opened TcpModel
  import opened TcpFlow
  import opened TcpSend

  // ----- Sending goes on as far as it may -----

  /** No further segment is due: everything has been sent, the window or the congestion window
      is used up, or only a small piece is left while something is in flight (RFC 1122,
      section 4.2.3.4). */
  predicate Exhausted(p: Pcb, mss: int) {
    var flight, limit := Diff(p.tx.nxt, p.tx.una), if p.tx.cwnd < p.tx.wnd then p.tx.cwnd else p.tx.wnd;
    || flight >= |p.tx.buf| || flight >= limit
    || (flight > 0 && !p.tx.finPending
        && (|p.tx.buf| - flight < mss || limit - flight < mss)
        && (|p.tx.buf| - flight < p.tx.maxWnd / 2 || limit - flight < p.tx.maxWnd / 2))
  }

  lemma {:induction false} LoopExhausts(p: Pcb, unsent: nat, usable: nat, mss: nat)
    requires Sized(p) && unsent == Unsent(p) && 0 < mss
    requires usable == if Min(p.tx.cwnd, p.tx.wnd) > Diff(p.tx.nxt, p.tx.una)
                       then Min(p.tx.cwnd, p.tx.wnd) - Diff(p.tx.nxt, p.tx.una) else 0
    ensures Exhausted(OutputLoop(p, unsent, usable, mss), mss)
    decreases unsent
  {
    hide SendChunk, Diff;
    var n := NextChunk(p, unsent, usable, mss);
    if n > 0 {
      SentAdvances(p, n);
      ChunkSends(p, n);
      LoopExhausts(SendChunk(p, n), unsent - n, usable - n, mss);
    }
  }

  /** tcp_output stops only when nothing more may go out; if it has sent everything and a
      close is pending, the FIN goes out as well. */
  lemma OutputGoesOn(p: Pcb)
    requires Sized(p) && (p.phase.Established? || p.phase.CloseWait?) && Diff(p.tx.nxt, p.tx.una) <= |p.tx.buf|
    ensures var q := Output(p);
            || (p.tx.finPending && FinOut(p, q))
            || (q.phase == p.phase && q.tx.finPending == p.tx.finPending && Exhausted(q, EffMss(p))
                && (p.tx.finPending ==> q.tx.nxt != Wrap(q.tx.una + |q.tx.buf|)))
  {
    hide OutputLoop, TryFin, Exhausted, Diff, Wrap, FinOut, EffMss;
    var q := OutputLoop(p, Unsent(p), Usable(p), EffMss(p));
    LoopExhausts(p, Unsent(p), Usable(p), EffMss(p));
    LoopSends(p, Unsent(p), Usable(p), EffMss(p));
    FinGoes(q);
    SameFin(p, q);
  }

  /** The FIN has gone out behind the last byte queued, and the close has begun. */
  ghost predicate FinOut(p: Pcb, q: Pcb) {
    && |q.out| > 0 && q.out[|q.out| - 1].fin && q.out[|q.out| - 1].seqno == Wrap(q.tx.una + |q.tx.buf|)
    && q.tx.finSeq == Wrap(q.tx.una + |q.tx.buf|) && q.tx.nxt == Wrap(q.tx.una + |q.tx.buf| + 1) && !q.tx.finPending
    && (if p.phase.CloseWait? then q.phase.LastAck? else q.phase.FinWait1?)
  }

  /** tcp_try_fin: the FIN goes out exactly if it is pending and everything has been sent. */
  lemma FinGoes(p: Pcb)
    requires Sized(p)
    ensures if p.tx.finPending && p.tx.nxt == Wrap(p.tx.una + |p.tx.buf|) then FinOut(p, TryFin(p)) else TryFin(p) == p
  {
    hide NewEdge, Window;
  }

  /** tcp_close on an open connection: the FIN is out, or it waits for data to be sent. */
  lemma CloseBegins(p: Pcb)
    requires Sized(p) && p.used && p.phase.Established?
    ensures if p.tx.nxt == Wrap(p.tx.una + |p.tx.buf|) then FinOut(p, Close(p))
            else Close(p) == p.(tx := p.tx.(finPending := true))
  {
    hide TryFin, FinOut, Wrap;
    var q := p.(tx := p.tx.(finPending := true));
    FinGoes(q);
    SameFin(p, q);
  }

  lemma SameFin(p: Pcb, q: Pcb)
    requires q.phase == p.phase
    ensures forall r :: FinOut(q, r) <==> FinOut(p, r)
  {
  }

  // ----- What is lost is sent again -----

  /** The last segment out carries `data` at `seqno`. */
  ghost predicate SentLast(p: Pcb, q: Pcb, seqno: u32, data: seq<u8>) {
    |q.out| == |p.out| + 1 && q.out[|p.out|].seqno == seqno && q.out[|p.out|].data == data && q.out[|p.out|].ack
  }

  /** The retransmission timer with data in flight: one segment from the first byte not
      acknowledged on, of at least one byte; the congestion window is one segment and the
      threshold half the flight, unless the peer's window is closed (RFC 5681, section 3.1). */
  lemma TimeoutResends(p: Pcb)
    requires Sized(p) && p.used && (p.phase.Established? || p.phase.CloseWait? || p.phase.LastAck?)
    requires |p.tx.buf| > 0 && Diff(p.tx.nxt, p.tx.una) > 0
    ensures var q, n := Rtx(p), ResendLen(p);
            && 1 <= n <= |p.tx.buf| && n <= 1460 && SentLast(p, q, p.tx.una, p.tx.buf[..n])
            && (p.tx.wnd > 0 || p.phase.LastAck? ==>
                  q.tx.cwnd == 1460 && q.tx.dupacks == 0
                  && q.tx.ssthresh == Max(Diff(p.tx.nxt, p.tx.una) / 2, 2920))
            && (p.tx.wnd == 0 && !p.phase.LastAck? ==> q.tx == p.tx)
  {
    hide NewEdge, Window, Diff, UnsackedFrom;
    GapFirst(p);
  }

  lemma GapFirst(p: Pcb)
    requires Sized(p) && |p.tx.buf| > 0 && Diff(p.tx.nxt, p.tx.una) > 0
    ensures 1 <= ResendLen(p) <= 1460
    ensures !p.tx.sacked[0] ==> FirstGap(p, ResendLen(p))
  {
    hide Diff, UnsackedFrom;
  }

  /** The first `n` bytes are not reported as received, and `n` is a segment, all there is in
      flight, or ends at a byte that is. */
  ghost predicate FirstGap(p: Pcb, n: nat)
    requires Sized(p) && n <= |p.tx.buf|
  {
    && (forall i :: 0 <= i < n ==> !p.tx.sacked[i])
    && (n == EffMss(p) || n == |p.tx.buf| || n == Diff(p.tx.nxt, p.tx.una) || p.tx.sacked[n])
  }

  /** A closed window and nothing in flight: one byte behind the window is sent as a probe. */
  lemma TimeoutProbes(p: Pcb)
    requires Sized(p) && p.used && (p.phase.Established? || p.phase.CloseWait?)
    requires |p.tx.buf| > 0 && p.tx.nxt == p.tx.una && p.tx.wnd == 0
    ensures var q := Rtx(p);
            SentLast(p, q, p.tx.nxt, [p.tx.buf[0]]) && q.tx == p.tx.(nxt := Wrap(p.tx.nxt + 1))
  {
    hide NewEdge, Window, Wrap;
  }

  /** SYN, SYN-ACK and FIN are sent again at their place. */
  lemma TimeoutRepeats(p: Pcb)
    requires Sized(p) && p.used
    requires p.phase.SynSent? || p.phase.SynRcvd? || ((p.phase.LastAck? || p.phase.FinWait1?) && p.tx.buf == [])
    ensures var q := Rtx(p);
            && |q.out| == |p.out| + 1 && q.tx == p.tx
            && var g := q.out[|p.out|];
               && g.data == [] && (g.syn <==> p.phase.SynSent? || p.phase.SynRcvd?)
               && (g.fin <==> p.phase.LastAck? || p.phase.FinWait1?) && (g.ack <==> !p.phase.SynSent?)
               && g.seqno == if g.syn then p.iss else p.tx.finSeq
  {
    hide NewEdge, Window;
  }

  /** A segment that acknowledges nothing new, without data, SYN, FIN or a new window, while
      data are in flight. */
  predicate Duplicate(p: Pcb, s: Seg) {
    && (p.phase.Established? || p.phase.CloseWait?) && s.ackno == p.tx.una && p.tx.una != p.tx.nxt
    && s.data == [] && !s.syn && !s.fin && p.tx.wnd != 0 && Wrap(s.win * p.scale) == p.tx.wnd
  }

  /** The third of them sends the first gap again at once and inflates the window by three
      segments, each further one by one; the first two only count (RFC 5681, section 3.2). */
  lemma DuplicatesCount(p: Pcb, s: Seg)
    requires Sized(p) && Duplicate(p, s) && p.tx.dupacks < 255 && |p.tx.buf| > 0 && Diff(p.tx.nxt, p.tx.una) > 0
    ensures var q := CumOrDup(p, s);
            && q.tx.dupacks == p.tx.dupacks + 1
            && (p.tx.dupacks == 2 ==>
                  && SentLast(p, q, p.tx.una, p.tx.buf[..ResendLen(p)])
                  && q.tx.ssthresh == Max(Diff(p.tx.nxt, p.tx.una) / 2, 2920)
                  && q.tx.cwnd == Wrap(q.tx.ssthresh + 4380))
            && (p.tx.dupacks != 2 ==> q.out == p.out && q.tx.ssthresh == p.tx.ssthresh)
            && (p.tx.dupacks > 2 ==> q.tx.cwnd == Wrap(p.tx.cwnd + 1460))
            && (p.tx.dupacks < 2 ==> q.tx.cwnd == p.tx.cwnd)
  {
    hide FastRetransmit, Wrap, Diff, NewAck, ResendLen;
    OldAck(p.tx);
    if p.tx.dupacks == 2 {
      ThirdResends(p.(tx := p.tx.(dupacks := 3)));
      SameGap(p);
    }
  }

  lemma ThirdResends(p: Pcb)
    requires Sized(p) && |p.tx.buf| > 0 && Diff(p.tx.nxt, p.tx.una) > 0
    ensures var q := FastRetransmit(p);
            && SentLast(p, q, p.tx.una, p.tx.buf[..ResendLen(p)]) && q.tx.dupacks == p.tx.dupacks
            && q.tx.ssthresh == Max(Diff(p.tx.nxt, p.tx.una) / 2, 2920) && q.tx.cwnd == Wrap(q.tx.ssthresh + 4380)
  {
    GapFirst(p);
    hide NewEdge, Window, Wrap, UnsackedFrom, Diff, FirstGap;
  }

  lemma SameGap(p: Pcb)
    requires Sized(p)
    ensures ResendLen(p.(tx := p.tx.(dupacks := 3))) == ResendLen(p)
  {
    hide Diff, UnsackedFrom;
  }

  lemma OldAck(t: Tx)
    ensures !NewAck(t, t.una)
  {
  }

  /** A new ACK takes the acknowledged bytes off the queue and ends a recovery; below the
      threshold the congestion window grows by what was acknowledged, at most a segment, above
      it by at most a segment per window (RFC 5681, section 3.1). */
  lemma NewAckGrows(p: Pcb, s: Seg)
    requires Sized(p) && NewAck(p.tx, s.ackno) && (p.phase.Established? || p.phase.CloseWait?)
    ensures var q, adv := CumOrDup(p, s), Diff(s.ackno, p.tx.una);
            && q.tx.una == s.ackno && q.tx.dupacks == 0 && q.out == p.out
            && q.tx.buf == p.tx.buf[if adv < |p.tx.buf| then adv else |p.tx.buf|..]
            && (p.tx.dupacks >= 3 ==> q.tx.cwnd == p.tx.ssthresh)
            && (p.tx.dupacks < 3 && p.tx.cwnd < p.tx.ssthresh ==>
                  q.tx.cwnd == Wrap(p.tx.cwnd + if adv < 1460 then adv else 1460))
            && (p.tx.dupacks < 3 && p.tx.cwnd >= p.tx.ssthresh ==>
                  exists d :: Share(d, p.tx.cwnd) && q.tx.cwnd == Wrap(p.tx.cwnd + d))
  {
    hide Wrap, Diff, NewAck;
    if p.tx.dupacks < 3 && p.tx.cwnd >= p.tx.ssthresh {
      PerWindow(p.tx.cwnd);
    }
  }

  /** A segment's part of the window, rounded down, but at least one byte. */
  predicate Share(d: int, cwnd: u32) {
    d >= 1 && ((d * cwnd <= 1460 * 1460 < (d + 1) * cwnd) || (d == 1 && cwnd > 1460 * 1460))
  }

  lemma PerWindow(cwnd: u32)
    requires cwnd >= 2920
    ensures var inc := 1460 * 1460 / cwnd; Share(if inc != 0 then inc else 1, cwnd)
  {
    var inc := 1460 * 1460 / cwnd;
    assert 1460 * 1460 == inc * cwnd + 1460 * 1460 % cwnd;
    assert (inc + 1) * cwnd == inc * cwnd + cwnd;
  }

  // ----- The phases of a connection -----

  /** An ACK of our SYN opens the connection, one of our FIN takes the close a step further. */
  lemma AckedPhases(p: Pcb, s: Seg, sacks: seq<(u32, u32)>)
    requires Sized(p) && p.used && NewAck(p.tx, s.ackno)
    ensures var q := AckPhase(AckNumbers(p, s, sacks));
            && (p.phase.SynRcvd? && SeqGeq(s.ackno, Wrap(p.iss + 1)) ==> q.phase.Established? && q.used)
            && (p.phase.FinWait1? && SeqGeq(s.ackno, Wrap(p.tx.finSeq + 1)) ==> q.phase.FinWait2? && q.used)
            && (p.phase.LastAck? && SeqGeq(s.ackno, Wrap(p.tx.finSeq + 1)) ==> !q.used)
            && (!p.phase.SynRcvd? && !p.phase.FinWait1? && !p.phase.LastAck? ==> q.phase == p.phase && q.used)
  {
    hide NewAck, Wrap, SeqGeq, Diff, GrownCwnd, Falses;
  }

  // ----- Selective acknowledgements -----

  /** An edge of a SACK block is cut to the bytes in the queue. */
  lemma EdgeCut(e: u32, una: u32, len: nat)
    requires len <= SNDBUF
    ensures ClipEdge(e, una, len) == if SDiff(e, una) < 0 then 0 else if SDiff(e, una) > len then len else SDiff(e, una)
  {
    var hi := Wrap(una + len);
    NoDistance(una);
    if SDiff(e, una) < 0 {
      Nearer(una, una, len);
    } else {
      Nearer(e, una, len);
      DiffIsDistance(e, una);
    }
    DiffIsDistance(hi, una);
    hide Diff, SDiff, Wrap;
  }

  lemma NoDistance(a: u32)
    ensures SDiff(a, a) == 0 && Diff(a, a) == 0
  {
  }

  /** Distances from `una + len` are shorter by `len`. */
  lemma Nearer(e: u32, una: u32, len: nat)
    requires len <= SNDBUF && SDiff(e, una) >= 0
    ensures SDiff(e, Wrap(una + len)) == SDiff(e, una) - len && SDiff(Wrap(una + len), una) == len
    ensures Diff(Wrap(una + len), una) == len
  {
  }

  /** A block marks exactly the queued bytes from its left edge up to its right one. */
  lemma BlockMarks(t: Tx, block: (u32, u32), i: nat)
    requires SizedTx(t) && i < |t.sacked|
    ensures MarkBlock(t, block).sacked[i] <==>
              t.sacked[i] || (SDiff(block.0, t.una) <= i < SDiff(block.1, t.una) && i < |t.buf|)
  {
    EdgeCut(block.0, t.una, |t.buf|);
    EdgeCut(block.1, t.una, |t.buf|);
    hide ClipEdge, SDiff;
  }
}
