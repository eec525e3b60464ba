/** What the segments of net/tcp.c do to the sender, in terms of the segments: the window a
    peer grants, what is sent into it, and what is sent again. */
module TcpFlow {
  import opened Words
  import opened TcpModel

  // ----- What stays while segments go out -----

  /** Only segments, the position sent up to, the receiver's edge and the phase change. */
  ghost predicate SendsOn(p: Pcb, q: Pcb) {
    && q.tx.una == p.tx.una && q.tx.wnd == p.tx.wnd && q.tx.maxWnd == p.tx.maxWnd
    && q.tx.wl1 == p.tx.wl1 && q.tx.wl2 == p.tx.wl2
    && q.tx.buf == p.tx.buf && q.tx.cwnd == p.tx.cwnd && q.tx.ssthresh == p.tx.ssthresh && q.tx.dupacks == p.tx.dupacks
    && q.used == p.used && q.scale == p.scale && Extends(p, q)
    && q.delivered == p.delivered && q.rx == p.rx.(adv := q.rx.adv)
  }

  /** The segments of before are still first. */
  ghost predicate Extends(p: Pcb, q: Pcb) {
    |p.out| <= |q.out| && forall j :: 0 <= j < |p.out| ==> q.out[j] == p.out[j]
  }

  /** The data of a segment end at most `w` behind `una`. */
  predicate EndsWithin(g: Seg, una: u32, w: int) {
    g.data != [] ==> Diff(g.seqno, una) + |g.data| <= w
  }

  /** What has gone out since `p` ends at most `w` behind `una`. */
  ghost predicate SentWithin(p: Pcb, q: Pcb, una: u32, w: int) {
    forall j :: |p.out| <= j < |q.out| ==> EndsWithin(q.out[j], una, w)
  }

  lemma ChunkSends(p: Pcb, n: nat)
    requires Sized(p) && n <= Unsent(p)
    ensures var q := SendChunk(p, n);
            && SendsOn(p, q) && SentWithin(p, q, p.tx.una, Diff(p.tx.nxt, p.tx.una) + n)
            && q.phase == p.phase && q.tx.finPending == p.tx.finPending
  {
    hide NewEdge, Window, Diff, Wrap;
  }

  lemma {:induction false} LoopSends(p: Pcb, unsent: nat, usable: nat, mss: nat)
    requires Sized(p) && unsent <= Unsent(p)
    ensures var q := OutputLoop(p, unsent, usable, mss);
            && SendsOn(p, q) && SentWithin(p, q, p.tx.una, Diff(p.tx.nxt, p.tx.una) + usable)
            && q.phase == p.phase && q.tx.finPending == p.tx.finPending
    decreases unsent
  {
    hide SendChunk, NextChunk, Diff, Unsent;
    var n := NextChunk(p, unsent, usable, mss);
    if n > 0 {
      SentAdvances(p, n);
      ChunkSends(p, n);
      LoopSends(SendChunk(p, n), unsent - n, usable - n, mss);
    }
  }

  lemma FinSends(p: Pcb)
    requires Sized(p)
    ensures SendsOn(p, TryFin(p)) && SentWithin(p, TryFin(p), p.tx.una, 0)
  {
    hide NewEdge, Window, Diff, Wrap;
  }

  lemma Farther(p: Pcb, q: Pcb, r: Pcb, una: u32, w: int)
    requires SendsOn(p, q) && SendsOn(q, r) && SentWithin(p, q, una, w) && SentWithin(q, r, una, w)
    ensures SendsOn(p, r) && SentWithin(p, r, una, w)
  {
    hide EndsWithin;
  }

  lemma Wider(p: Pcb, q: Pcb, una: u32, v: int, w: int)
    requires SentWithin(p, q, una, v) && v <= w
    ensures SentWithin(p, q, una, w)
  {
    hide Diff;
  }

  /** What tcp_output sends ends within the window, unless more was in flight already. */
  lemma OutputSends(p: Pcb)
    requires Sized(p)
    ensures SendsOn(p, Output(p)) && SentWithin(p, Output(p), p.tx.una, p.tx.wnd)
  {
    hide OutputLoop, TryFin, Diff, Unsent, EndsWithin, NextChunk, EffMss, SendsOn, Extends, SentWithin;
    NothingSent(p);
    if Sending(p) && Unsent(p) >= 0 {
      var q := OutputLoop(p, Unsent(p), Usable(p), EffMss(p));
      LoopWithin(p);
      FinSends(q);
      SameUna(p, q);
      Wider(q, TryFin(q), p.tx.una, 0, p.tx.wnd);
      Farther(p, q, TryFin(q), p.tx.una, p.tx.wnd);
    }
  }

  lemma NothingSent(p: Pcb)
    ensures SendsOn(p, p) && forall una: u32, w: int :: SentWithin(p, p, una, w)
  {
    hide EndsWithin;
  }

  lemma SameUna(p: Pcb, q: Pcb)
    requires SendsOn(p, q)
    ensures q.tx.una == p.tx.una && q.tx.wnd == p.tx.wnd
  {
  }

  /** With nothing usable the loop sends nothing. */
  lemma LoopWithin(p: Pcb)
    requires Sized(p) && Unsent(p) >= 0
    ensures var q := OutputLoop(p, Unsent(p), Usable(p), EffMss(p));
            SendsOn(p, q) && SentWithin(p, q, p.tx.una, p.tx.wnd)
  {
    hide OutputLoop, Diff, Unsent, EndsWithin, SendsOn, SentWithin, EffMss;
    NothingSent(p);
    LoopSends(p, Unsent(p), Usable(p), EffMss(p));
    if Usable(p) == 0 {
      NothingUsable(p, Unsent(p), EffMss(p));
    } else {
      Wider(p, OutputLoop(p, Unsent(p), Usable(p), EffMss(p)), p.tx.una, Diff(p.tx.nxt, p.tx.una) + Usable(p),
            p.tx.wnd);
    }
  }

  lemma NothingUsable(p: Pcb, unsent: nat, mss: nat)
    requires Sized(p) && unsent <= Unsent(p)
    ensures OutputLoop(p, unsent, 0, mss) == p
  {
    hide Diff, Unsent;
  }

  // ----- The window a segment grants -----

  /** A segment newer than the one the window is from (RFC 793, section 3.7). */
  predicate Newer(t: Tx, s: Seg) {
    SeqGt(s.seqno, t.wl1) || (s.seqno == t.wl1 && SeqGeq(s.ackno, t.wl2))
  }

  /** The block may send data once this segment is taken: it may already, or its SYN is
      acknowledged now. */
  predicate MaySend(p: Pcb, s: Seg) {
    || p.phase.Established? || p.phase.CloseWait?
    || (p.phase.SynRcvd? && SeqGeq(if NewAck(p.tx, s.ackno) then s.ackno else p.tx.una, Wrap(p.iss + 1)))
  }

  /** The send window after the ACK of segment `s`. */
  function Granted(p: Pcb, s: Seg): u32 {
    if !s.syn && Newer(p.tx, s) then Wrap(s.win * p.scale) else p.tx.wnd
  }

  /** Acknowledging sends old data again or nothing, and leaves the window alone. */
  ghost predicate Settles(p: Pcb, q: Pcb) {
    && q.tx.wnd == p.tx.wnd && q.tx.maxWnd == p.tx.maxWnd && q.tx.wl1 == p.tx.wl1 && q.tx.wl2 == p.tx.wl2
    && q.tx.nxt == p.tx.nxt && q.scale == p.scale && q.iss == p.iss && Extends(p, q)
    && SentWithin(p, q, p.tx.una, Diff(p.tx.nxt, p.tx.una))
  }

  lemma CumAckSettles(p: Pcb, ackno: u32)
    requires Sized(p)
    ensures Settles(p, CumAck(p, ackno)) && CumAck(p, ackno).phase == p.phase && CumAck(p, ackno).used == p.used
    ensures CumAck(p, ackno).tx.una == ackno
  {
    hide Diff, GrownCwnd, Wrap;
  }

  lemma ResendSettles(p: Pcb)
    requires Sized(p)
    ensures Settles(p, FastRetransmit(p)) && FastRetransmit(p).phase == p.phase && FastRetransmit(p).used == p.used
    ensures FastRetransmit(p).tx.una == p.tx.una
  {
    hide NewEdge, Window, LossThreshold, UnsackedRun, EffMss, Wrap;
  }

  lemma DupSettles(p: Pcb)
    requires Sized(p)
    ensures Settles(p, OnDupAck(p)) && OnDupAck(p).phase == p.phase && OnDupAck(p).used == p.used
    ensures OnDupAck(p).tx.una == p.tx.una
  {
    hide FastRetransmit, Diff, Wrap;
    var dups := (p.tx.dupacks + 1) % 0x100;
    ResendSettles(p.(tx := p.tx.(dupacks := dups)));
  }

  lemma SelfSettles(p: Pcb)
    ensures Settles(p, p)
  {
    hide Diff;
  }

  lemma NumbersSettle(p: Pcb, s: Seg, sacks: seq<(u32, u32)>)
    requires Sized(p)
    ensures var q := AckNumbers(p, s, sacks);
            && Settles(p, q) && q.phase == p.phase && q.used == p.used
            && q.tx.una == if NewAck(p.tx, s.ackno) then s.ackno else p.tx.una
  {
    hide CumAck, OnDupAck, MarkBlocks, NewAck, DupAck, Diff;
    CumAckSettles(p, s.ackno);
    DupSettles(p);
    SelfSettles(p);
  }

  lemma PhaseSettles(p: Pcb, q: Pcb)
    requires Sized(q) && Settles(p, q)
    ensures Settles(p, AckPhase(q)) && AckPhase(q).tx == q.tx
    ensures q.used && q.phase == p.phase ==>
              (AckPhase(q).used && Sending(AckPhase(q)) <==>
                 p.phase.Established? || p.phase.CloseWait? || (p.phase.SynRcvd? && SeqGeq(q.tx.una, Wrap(p.iss + 1))))
  {
    hide SeqGeq, Diff, Wrap;
  }

  /** After a segment with a new window the window is that of the segment, scaled; after an
      older one, or one with SYN, it is what it was. */
  lemma WindowFollows(p: Pcb, s: Seg, sacks: seq<(u32, u32)>)
    requires Sized(p) && p.used
    ensures var q := OnAck(p, s, sacks);
            if MaySend(p, s) && !s.syn && Newer(p.tx, s)
            then q.tx.wnd == Wrap(s.win * p.scale) && q.tx.wl1 == s.seqno && q.tx.wl2 == s.ackno
                 && q.tx.maxWnd == Max(Wrap(s.win * p.scale), p.tx.maxWnd)
            else q.tx.wnd == p.tx.wnd && q.tx.wl1 == p.tx.wl1 && q.tx.wl2 == p.tx.wl2 && q.tx.maxWnd == p.tx.maxWnd
  {
    hide AckNumbers, AckPhase, Output, NewAck, SeqGt, SeqGeq, Wrap, Diff, SentWithin, Extends;
    NumbersSettle(p, s, sacks);
    PhaseSettles(p, AckNumbers(p, s, sacks));
    var q := AckPhase(AckNumbers(p, s, sacks));
    OutputSends(q);
    OutputSends(q.(tx := UpdateWnd(q.tx, s.seqno, s.ackno, Wrap(s.win * q.scale))));
  }

  /** Whatever an ACK lets go out is old data again, or ends within the window it grants
      behind the position it acknowledges. */
  lemma SentIntoWindow(p: Pcb, s: Seg, sacks: seq<(u32, u32)>)
    requires Sized(p) && p.used
    ensures var q := OnAck(p, s, sacks);
            && |p.out| <= |q.out|
            && forall j :: |p.out| <= j < |q.out| ==>
                 EndsWithin(q.out[j], p.tx.una, Diff(p.tx.nxt, p.tx.una))
                 || EndsWithin(q.out[j], q.tx.una, Granted(p, s))
  {
    hide AckNumbers, AckPhase, Output, NewAck, SeqGt, SeqGeq, Wrap, Diff, EndsWithin;
    NumbersSettle(p, s, sacks);
    PhaseSettles(p, AckNumbers(p, s, sacks));
    var q := AckPhase(AckNumbers(p, s, sacks));
    OutputSends(q);
    OutputSends(q.(tx := UpdateWnd(q.tx, s.seqno, s.ackno, Wrap(s.win * q.scale))));
  }

  /** A segment that closes the window lets no new data out. */
  lemma ClosedWindow(p: Pcb, s: Seg, sacks: seq<(u32, u32)>)
    requires Sized(p) && p.used && s.win == 0 && !s.syn && Newer(p.tx, s)
    ensures var q := OnAck(p, s, sacks);
            forall j :: |p.out| <= j < |q.out| ==> EndsWithin(q.out[j], p.tx.una, Diff(p.tx.nxt, p.tx.una))
  {
    hide OnAck, Diff, Newer;
    SentIntoWindow(p, s, sacks);
  }
}
