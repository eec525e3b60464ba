/** The control block of net/tcp.c as the object it is: scalar fields, four
    fixed arrays shifted in place, loops.  Each method is proved to compute the
    function of TcpModel it carries in its postcondition, so everything proved
    about runs of that model holds of this code. */
module TcpBlock {
  import opened Words
  import opened TcpModel

  predicate MaximalRun(mark: seq<bool>, lo: nat, hi: nat) {
    && lo < hi <= |mark| && (forall o :: lo <= o < hi ==> mark[o])
    && (lo > 0 ==> !mark[lo - 1]) && (hi < |mark| ==> !mark[hi])
  }

  /** Maximal runs in ascending order, all ending at or below `end`. */
  predicate Runs(blk: seq<(nat, nat)>, mark: seq<bool>, end: nat) {
    && (forall b :: b in blk ==> b.1 <= end && MaximalRun(mark, b.0, b.1))
    && (forall j, k :: 0 <= j < k < |blk| ==> blk[j].1 < blk[k].0)
  }

  predicate Reported(blk: seq<(nat, nat)>, o: nat) {
    exists k :: 0 <= k < |blk| && blk[k].0 <= o < blk[k].1
  }

  lemma ReportMore(blk: seq<(nat, nat)>, s: nat, i: nat)
    ensures forall o: nat :: Reported(blk, o) || s <= o < i ==> Reported(blk + [(s, i)], o)
  {
    var more := blk + [(s, i)];
    assert more[|blk|] == (s, i);
    forall o: nat | Reported(blk, o)
      ensures Reported(more, o)
    {
      var k :| 0 <= k < |blk| && blk[k].0 <= o < blk[k].1;
      assert more[k] == blk[k];
    }
  }

  // ----- Storing a segment byte by byte -----

  function ByteStored(rx: Rx, off: nat, b: u8): Rx
    requires |rx.buf| == |rx.mark| == RCVBUF && off < RCVBUF
  {
    rx.(buf := rx.buf[off := b], mark := rx.mark[off := true],
        buffered := rx.buffered + if rx.mark[off] then 0 else 1)
  }

  lemma {:induction false} CountSet(s: seq<bool>, k: nat)
    requires k < |s|
    ensures Count(s[k := true]) == Count(s) + if s[k] then 0 else 1
  {
    if k == 0 {
      assert s[k := true][1..] == s[1..];
    } else {
      assert s[k := true][1..] == s[1..][k - 1 := true];
      CountSet(s[1..], k - 1);
    }
  }

  lemma StoredNone(rx: Rx, seqno: u32)
    requires |rx.buf| == |rx.mark| == RCVBUF
    ensures Stored(rx, seqno, []) == rx
  {
    hide Count, Diff;
    assert Stored(rx, seqno, []).mark == rx.mark;
    assert Stored(rx, seqno, []).buf == rx.buf;
  }

  /** Segment byte `i` meets window offset `o` exactly when the loop's two
      comparisons let it through and compute that offset. */
  lemma Landing(nxt: u32, seqno: u32, i: nat, o: nat)
    requires i < 0x1_0000 && o < RCVBUF
    ensures Diff(nxt + o, seqno) == i <==>
            SeqGeq(Wrap(seqno + i), nxt) && SeqLt(Wrap(seqno + i), Wrap(nxt + RCVBUF))
            && Diff(Wrap(seqno + i), nxt) == o
  {
    var s := Wrap(seqno + i);
    BetweenEdges(nxt, s);
    Mirrored(nxt, seqno, i, o);
    hide Diff, Wrap, SeqGeq, SeqLt;
  }

  /** The two comparisons of the loop together are a distance below the window size. */
  lemma BetweenEdges(nxt: u32, s: u32)
    ensures SeqGeq(s, nxt) && SeqLt(s, Wrap(nxt + RCVBUF)) <==> Diff(s, nxt) < RCVBUF
  {
  }

  lemma Mirrored(nxt: u32, seqno: u32, i: nat, o: nat)
    requires i < 0x1_0000 && o < RCVBUF
    ensures Diff(nxt + o, seqno) == i <==> Diff(Wrap(seqno + i), nxt) == o
  {
  }

  lemma InWindow(nxt: u32, s: u32)
    requires SeqGeq(s, nxt) && SeqLt(s, Wrap(nxt + RCVBUF))
    ensures Diff(s, nxt) < RCVBUF
  {
  }

  /** What one round of the storing loop does. */
  lemma StoredNext(rx: Rx, seqno: u32, data: seq<u8>, i: nat)
    requires |rx.buf| == |rx.mark| == RCVBUF && i < |data| < 0x1_0000
    ensures var s := Wrap(seqno + i);
            var before, after := Stored(rx, seqno, data[..i]), Stored(rx, seqno, data[..i + 1]);
            if SeqGeq(s, rx.nxt) && SeqLt(s, Wrap(rx.nxt + RCVBUF)) then
              Diff(s, rx.nxt) < RCVBUF && after == ByteStored(before, Diff(s, rx.nxt), data[i])
            else after == before
  {
    hide Count, Diff, Wrap, SeqGeq, SeqLt;
    var s := Wrap(seqno + i);
    var before, after := Stored(rx, seqno, data[..i]), Stored(rx, seqno, data[..i + 1]);
    var inside := SeqGeq(s, rx.nxt) && SeqLt(s, Wrap(rx.nxt + RCVBUF));
    var off := Diff(s, rx.nxt);
    if inside {
      InWindow(rx.nxt, s);
    }
    forall o | 0 <= o < RCVBUF
      ensures after.mark[o] == (before.mark[o] || (inside && o == off))
      ensures after.buf[o] == if inside && o == off then data[i] else before.buf[o]
    {
      Landing(rx.nxt, seqno, i, o);
      assert Covers(rx, seqno, i + 1, o) <==> Covers(rx, seqno, i, o) || Diff(rx.nxt + o, seqno) == i;
    }
    if inside {
      assert after.mark == before.mark[off := true];
      assert after.buf == before.buf[off := data[i]];
      CountSet(before.mark, off);
    } else {
      assert after.mark == before.mark;
      assert after.buf == before.buf;
    }
  }

  /** The first byte beyond the window ends the loop: no later one comes back in. */
  lemma BeyondWindow(rx: Rx, seqno: u32, data: seq<u8>, i: nat)
    requires |rx.buf| == |rx.mark| == RCVBUF && i < |data| < 0x1_0000
    requires SeqGeq(Wrap(seqno + i), rx.nxt) && SeqGeq(Wrap(seqno + i), Wrap(rx.nxt + RCVBUF))
    ensures Stored(rx, seqno, data) == Stored(rx, seqno, data[..i])
  {
    hide Count, Diff, Wrap, SeqGeq, SeqLt;
    var a, b := Stored(rx, seqno, data), Stored(rx, seqno, data[..i]);
    forall o | 0 <= o < RCVBUF
      ensures a.mark[o] == b.mark[o] && a.buf[o] == b.buf[o]
    {
      NoReturn(rx.nxt, seqno, i, |data|, o);
    }
    assert a.mark == b.mark;
    assert a.buf == b.buf;
  }

  lemma NoReturn(nxt: u32, seqno: u32, i: nat, len: nat, o: nat)
    requires i < len < 0x1_0000 && o < RCVBUF
    requires SeqGeq(Wrap(seqno + i), nxt) && SeqGeq(Wrap(seqno + i), Wrap(nxt + RCVBUF))
    ensures Diff(nxt + o, seqno) < len ==> Diff(nxt + o, seqno) < i
  {
    PastWindow(nxt, Wrap(seqno + i));
    hide SeqGeq;
    var d := Diff(Wrap(seqno + i), nxt);
    SameDistance(nxt, seqno, i, o);
    assert -0x8000_0000 < i - d + o < i;
  }

  /** Not before the left edge and not before the right one is beyond the window. */
  lemma PastWindow(nxt: u32, s: u32)
    requires SeqGeq(s, nxt) && SeqGeq(s, Wrap(nxt + RCVBUF))
    ensures RCVBUF <= Diff(s, nxt) < 0x8000_0000
  {
    assert Diff(s, Wrap(nxt + RCVBUF)) == (Diff(s, nxt) - RCVBUF) % 0x1_0000_0000;
  }

  lemma SameDistance(nxt: u32, seqno: u32, i: nat, o: nat)
    ensures Diff(nxt + o, seqno) == (i - Diff(Wrap(seqno + i), nxt) + o) % 0x1_0000_0000
  {
    var d, q := Diff(Wrap(seqno + i), nxt), (Wrap(seqno + i) - nxt) / 0x1_0000_0000;
    var r := (seqno + i) / 0x1_0000_0000;
    assert nxt + o - seqno == (i - d + o) + (0 - q - r) * 0x1_0000_0000;
  }

  class ControlBlock {
    var used: bool
    var phase: Phase
    var iss: u32
    var sackOk: bool
    var tsOk: bool
    var scale: nat
    var una: u32
    var nxt: u32
    var wnd: u32
    var maxWnd: u32
    var wl1: u32
    var wl2: u32
    const sndbuf: array<u8>
    const sndsack: array<bool>
    var sndlen: nat
    var cwnd: u32
    var ssthresh: u32
    var dupacks: u8
    var finSeq: u32
    var finPending: bool
    var rcvNxt: u32
    var rcvAdv: u32
    const rcvbuf: array<u8>
    const rcvmark: array<bool>
    var buffered: int
    var wire: seq<Seg>
    ghost var accepted: seq<u8>
    ghost var delivered: seq<u8>
    ghost var edge: int

    ghost predicate Valid()
      reads `sndlen, `ssthresh
    {
      && sndbuf.Length == SNDBUF == sndsack.Length
      && rcvbuf.Length == RCVBUF == rcvmark.Length
      && sndbuf != rcvbuf && sndsack != rcvmark
      && sndlen <= SNDBUF && ssthresh >= 2 * MSS
    }

    /** The unacknowledged bytes. */
    ghost function Queued(): (q: seq<u8>)
      requires sndlen <= sndbuf.Length
      reads `sndlen, sndbuf
      ensures |q| == sndlen
    {
      sndbuf[..sndlen]
    }

    ghost function Board(): (q: seq<bool>)
      reads sndsack
      ensures |q| == sndsack.Length
    {
      sndsack[..]
    }

    ghost function Held(): (q: seq<u8>)
      reads rcvbuf
      ensures |q| == rcvbuf.Length
    {
      rcvbuf[..]
    }

    ghost function Marks(): (q: seq<bool>)
      reads rcvmark
      ensures |q| == rcvmark.Length
    {
      rcvmark[..]
    }

    ghost function SendHalf(): Tx
      requires sndlen <= sndbuf.Length
      reads `una, `nxt, `wnd, `maxWnd, `wl1, `wl2, `sndlen, `cwnd, `ssthresh, `dupacks, `finSeq, `finPending
      reads sndbuf, sndsack
    {
      Tx(una, nxt, wnd, maxWnd, wl1, wl2, Queued(), Board(), cwnd, ssthresh, dupacks, finSeq, finPending)
    }

    ghost function RecvHalf(): Rx
      reads `rcvNxt, `rcvAdv, `buffered
      reads rcvbuf, rcvmark
    {
      Rx(rcvNxt, rcvAdv, Held(), Marks(), buffered)
    }

    ghost function State(): (p: Pcb)
      requires Valid()
      reads this, sndbuf, sndsack, rcvbuf, rcvmark
      ensures Sized(p)
    {
      Pcb(used, phase, iss, sackOk, tsOk, scale, SendHalf(), RecvHalf(), wire, accepted, delivered, edge)
    }

    lemma QueueLength()
      requires Valid()
      ensures |SendHalf().buf| == sndlen
    {
    }

    /** The right edge seg_out advertises. */
    method ChooseEdge() returns (adv: u32)
      requires Valid()
      ensures adv == NewEdge(RecvHalf(), sndlen)
    {
      var rwin := if buffered < RCVBUF then RCVBUF - buffered else 0;
      var swin := if sndlen < SNDBUF then SNDBUF - sndlen else 0;
      var avail := if rwin < swin then rwin else swin;
      var newEdge := Wrap(rcvNxt + avail);
      adv := newEdge;
      if SeqGt(newEdge, rcvAdv) && Diff(newEdge, rcvAdv) < SWS_MIN {
        adv := rcvAdv;
      }
    }

    method SegOut(syn: bool, fin: bool, ack: bool, seqno: u32, data: seq<u8>)
      requires Valid()
      modifies this`rcvAdv, this`wire, this`edge
      ensures Valid() && State() == TcpModel.SegOut(old(State()), syn, fin, ack, seqno, data)
    {
      hide NewEdge, Window, Wrap, Diff, Held, Marks, SendHalf;
      assert |SendHalf().buf| == sndlen by { QueueLength(); }
      rcvAdv := ChooseEdge();
      var win := Window(rcvAdv, rcvNxt);
      wire := wire + [Seg(syn, fin, ack, seqno, rcvNxt, win, data)];
      edge := Max(edge, |delivered| + win);
    }

    /** seg_out leaves the sending half alone. */
    lemma SegOutTouches(p: Pcb, syn: bool, fin: bool, ack: bool, seqno: u32, data: seq<u8>)
      requires Sized(p)
      ensures var q := TcpModel.SegOut(p, syn, fin, ack, seqno, data);
              q == p.(rx := q.rx, out := q.out, edge := q.edge)
    {
    }

    method TryFin()
      requires Valid()
      modifies this`rcvAdv, this`wire, this`edge, this`finSeq, this`nxt, this`finPending, this`phase
      ensures Valid() && State() == TcpModel.TryFin(old(State()))
    {
      hide Wrap, TcpModel.SendFin, RecvHalf, Queued, Board;
      if !finPending { return; }
      if nxt != Wrap(una + sndlen) { return; }
      SendFin();
    }

    method SendFin()
      requires Valid()
      modifies this`rcvAdv, this`wire, this`edge, this`finSeq, this`nxt, this`finPending, this`phase
      ensures Valid() && State() == TcpModel.SendFin(old(State()))
    {
      hide Wrap, TcpModel.SegOut, State;
      Fields();
      SegOutTouches(State(), false, true, true, nxt, []);
      SegOut(false, true, true, nxt, []);
      TakeSequence();
      EnterClosing();
    }

    lemma Fields()
      requires Valid()
      ensures State().tx.nxt == nxt && State().phase == phase
    {
    }

    method EnterClosing()
      requires Valid()
      modifies this`phase
      ensures Valid() && State() == old(State()).(phase := if old(State()).phase.CloseWait? then LastAck else FinWait1)
    {
      hide SendHalf, RecvHalf;
      phase := if phase.CloseWait? then LastAck else FinWait1;
    }

    /** The FIN takes one sequence number. */
    method TakeSequence()
      requires Valid()
      modifies this`finSeq, this`nxt, this`finPending
      ensures Valid()
      ensures var t := old(State()).tx;
              State() == old(State()).(tx := t.(finSeq := t.nxt, nxt := Wrap(t.nxt + 1), finPending := false))
    {
      hide Wrap, Queued, Board, RecvHalf;
      finSeq := nxt;
      nxt := Wrap(nxt + 1);
      finPending := false;
    }

    /** Data MSS: room is left for timestamps and SACK blocks. */
    method EffectiveMss() returns (mss: nat)
      requires Valid()
      ensures mss == EffMss(State())
    {
      var opt := 0;
      if tsOk { opt := opt + 12; }
      if sackOk && buffered > 0 { opt := opt + 28; }
      mss := MSS - opt;
    }

    /** One segment of `n` unsent bytes. */
    method SendChunk(n: nat)
      requires Valid() && n <= Unsent(State())
      modifies this`rcvAdv, this`wire, this`edge, this`nxt
      ensures Valid() && State() == TcpModel.SendChunk(old(State()), n)
    {
      hide NewEdge, Window, Wrap, Diff, RecvHalf;
      ghost var m := TcpModel.SendChunk(old(State()), n);
      var off := Diff(nxt, una);
      assert sndbuf[off..off + n] == SendHalf().buf[off..off + n];
      SegOut(false, false, true, nxt, sndbuf[off..off + n]);
      nxt := Wrap(nxt + n);
      assert SendHalf() == m.tx && RecvHalf() == m.rx;
    }

    /** Size of the next segment; 0 when a small one has to wait. */
    method ChunkSize(unsent: nat, usable: nat, mss: nat) returns (chunk: nat)
      requires Valid() && unsent > 0 && usable > 0 && mss > 0
      ensures chunk == NextChunk(State(), unsent, usable, mss)
    {
      chunk := unsent;
      if chunk > mss { chunk := mss; }
      if chunk > usable { chunk := usable; }
      var sws := if mss < maxWnd / 2 then mss else maxWnd / 2;
      if chunk < sws && Diff(nxt, una) > 0 && !finPending {
        chunk := 0;
      }
    }

    method SendLoop(unsentBytes: nat, usableBytes: nat, mss: nat)
      requires Valid() && unsentBytes <= Unsent(State()) && mss > 0
      modifies this`rcvAdv, this`wire, this`edge, this`nxt
      ensures Valid() && State() == OutputLoop(old(State()), unsentBytes, usableBytes, mss)
    {
      hide TcpModel.SendChunk, NextChunk, Unsent, SendHalf, RecvHalf;
      var unsent: nat, usable: nat := unsentBytes, usableBytes;
      while unsent > 0 && usable > 0
        invariant Valid() && unsent <= Unsent(State())
        invariant OutputLoop(State(), unsent, usable, mss) == OutputLoop(old(State()), unsentBytes, usableBytes, mss)
        decreases unsent
      {
        var chunk := ChunkSize(unsent, usable, mss);
        if chunk == 0 { break; }
        SentAdvances(State(), chunk);
        SendChunk(chunk);
        unsent := unsent - chunk;
        usable := usable - chunk;
      }
    }

    method Output()
      requires Valid()
      modifies this`rcvAdv, this`wire, this`edge, this`nxt, this`finSeq, this`finPending, this`phase
      ensures Valid() && State() == TcpModel.Output(old(State()))
    {
      hide OutputLoop, TcpModel.TryFin, Diff, RecvHalf, EffMss;
      if !phase.Established? && !phase.CloseWait? { return; }
      var inflight := Diff(nxt, una);
      if inflight > sndlen { return; }
      var cwin := if cwnd < wnd then cwnd else wnd;
      var usable := if cwin > inflight then cwin - inflight else 0;
      var mss := EffectiveMss();
      SendLoop(sndlen - inflight, usable, mss);
      TryFin();
    }

    method Write(data: seq<u8>) returns (n: int)
      requires Valid()
      modifies this`rcvAdv, this`wire, this`edge, this`nxt, this`finSeq, this`finPending, this`phase
      modifies this`sndlen, this`accepted, sndbuf
      ensures Valid() && (State(), n) == TcpModel.Write(old(State()), data)
    {
      hide TcpModel.Output, RecvHalf;
      if !phase.Established? && !phase.CloseWait? { return -1; }
      if |data| == 0 { return 0; }
      n := |data|;
      if sndlen + n > SNDBUF {
        n := SNDBUF - sndlen;
      }
      if n == 0 { return; }
      Append(data[..n]);
      Output();
    }

    method Append(bytes: seq<u8>)
      requires Valid() && sndlen + |bytes| <= SNDBUF
      modifies this`sndlen, this`accepted, sndbuf
      ensures Valid() && State() == Enqueue(old(State()), bytes)
    {
      hide RecvHalf;
      ghost var was := sndbuf[..sndlen];
      forall i | 0 <= i < |bytes| {
        sndbuf[sndlen + i] := bytes[i];
      }
      assert sndbuf[..sndlen + |bytes|] == was + bytes;
      sndlen := sndlen + |bytes|;
      accepted := accepted + bytes;
      assert SendHalf() == Enqueue(old(State()), bytes).tx;
      assert RecvHalf() == old(RecvHalf());
    }

    method Close()
      requires Valid()
      modifies this`rcvAdv, this`wire, this`edge, this`nxt, this`finSeq, this`finPending, this`phase
      ensures Valid() && State() == TcpModel.Close(old(State()))
    {
      hide TcpModel.TryFin, RecvHalf, Queued, Board;
      if !used { return; }
      if phase.Established? {
        finPending := true;
        TryFin();
      }
    }

    // ----- Acknowledgements -----

    /** Congestion control sees `adv` newly acknowledged bytes. */
    method Grow(adv: nat)
      requires Valid()
      modifies this`cwnd, this`dupacks
      ensures Valid() && State() == Grown(old(State()), adv)
    {
      hide RecvHalf, Queued, Board;
      if phase.Established? || phase.CloseWait? {
        if dupacks >= 3 {
          cwnd := ssthresh;
        } else if cwnd < ssthresh {
          cwnd := Wrap(cwnd + if adv < MSS then adv else MSS);
        } else {
          var inc := MSS * MSS / cwnd;
          cwnd := Wrap(cwnd + if inc != 0 then inc else 1);
        }
      }
      dupacks := 0;
      assert SendHalf() == Grown(old(State()), adv).tx;
    }

    /** memmove of the queue and its scoreboard by `drop`, clearing the tail marks. */
    method Shift(drop: nat)
      requires Valid() && drop <= sndlen
      modifies this`sndlen, sndbuf, sndsack
      ensures Valid() && SendHalf() == Dropped(old(SendHalf()), drop)
    {
      forall i | 0 <= i < sndlen - drop {
        sndbuf[i] := sndbuf[i + drop];
      }
      forall i | 0 <= i < SNDBUF - drop {
        sndsack[i] := sndsack[i + drop];
      }
      forall i | SNDBUF - drop <= i < SNDBUF {
        sndsack[i] := false;
      }
      sndlen := sndlen - drop;
    }

    method CumAck(ackno: u32)
      requires Valid()
      modifies this`sndlen, sndbuf, sndsack, this`una, this`cwnd, this`dupacks
      ensures Valid() && State() == TcpModel.CumAck(old(State()), ackno)
    {
      hide RecvHalf, Grown, Diff, Queued, Board, Dropped;
      var adv := Diff(ackno, una);
      Shift(if adv < sndlen then adv else sndlen);
      una := ackno;
      Grow(adv);
    }

    /** Bytes of the first gap of the scoreboard, at most one segment. */
    method ResendLength() returns (n: nat)
      requires Valid()
      ensures n == ResendLen(State())
    {
      var inflight := Diff(nxt, una);
      var lim: nat := if inflight < sndlen then inflight else sndlen;
      var run: nat := 0;
      while run < lim && !sndsack[run]
        invariant run <= lim
        invariant UnsackedRun(sndsack[..], lim) == UnsackedFrom(sndsack[..], lim, run)
      {
        run := run + 1;
      }
      if run == 0 { run := lim; }
      var emss := EffectiveMss();
      n := if run > emss then emss else run;
    }

    /** ssthresh after a loss: half the flight, at least two segments. */
    method Halve()
      requires Valid()
      modifies this`ssthresh
      ensures Valid() && State() == Halved(old(State()))
    {
      hide RecvHalf, Diff, Queued, Board;
      var half := Diff(nxt, una) / 2;
      ssthresh := if half > 2 * MSS then half else 2 * MSS;
      assert SendHalf() == Halved(old(State())).tx;
    }

    lemma ResendIgnoresThreshold(p: Pcb)
      requires Sized(p)
      ensures ResendLen(Halved(p)) == ResendLen(p)
    {
    }

    /** The third duplicate ACK: resend the first gap at once, enter fast recovery. */
    method FastRetransmit()
      requires Valid()
      modifies this`rcvAdv, this`wire, this`edge, this`ssthresh, this`cwnd
      ensures Valid() && State() == TcpModel.FastRetransmit(old(State()))
    {
      hide RecvHalf, Wrap, ResendLen, Queued, Board, TcpModel.Resend, Halved;
      ResendIgnoresThreshold(State());
      Halve();
      var n := ResendLength();
      Resend(n);
      cwnd := Wrap(ssthresh + 3 * MSS);
    }

    method Resend(n: nat)
      requires Valid() && n <= sndlen
      modifies this`rcvAdv, this`wire, this`edge
      ensures Valid() && State() == TcpModel.Resend(old(State()), n)
    {
      hide RecvHalf, TcpModel.SegOut;
      if n > 0 {
        assert sndbuf[..n] == SendHalf().buf[..n];
        SegOut(false, false, true, una, sndbuf[..n]);
      }
    }

    method OnDupAck()
      requires Valid()
      modifies this`rcvAdv, this`wire, this`edge, this`dupacks, this`ssthresh, this`cwnd
      ensures Valid() && State() == TcpModel.OnDupAck(old(State()))
    {
      hide RecvHalf, Diff, Wrap, TcpModel.FastRetransmit, Queued, Board;
      dupacks := (dupacks + 1) % 0x100;
      if dupacks == 3 {
        FastRetransmit();
      } else if dupacks > 3 {
        cwnd := Wrap(cwnd + MSS);
      }
    }

    /** One edge clipped into [snd_una, snd_una + sndlen], as an offset. */
    method Clip(edgeSeq: u32) returns (off: int)
      requires Valid()
      ensures off == ClipEdge(edgeSeq, una, sndlen)
    {
      var hi := Wrap(una + sndlen);
      var e := edgeSeq;
      if SeqLt(e, una) { e := una; }
      if SeqGt(e, hi) { e := hi; }
      off := Diff(e, una);
    }

    method MarkSack(block: (u32, u32))
      requires Valid()
      modifies sndsack
      ensures Valid() && State() == old(State()).(tx := MarkBlock(old(State()).tx, block))
    {
      hide ClipEdge, RecvHalf;
      var lo := Clip(block.0);
      var hi := Clip(block.1);
      ghost var was := sndsack[..];
      ClipInQueue(block.0, una, sndlen);
      ClipInQueue(block.1, una, sndlen);
      var off: int := lo;
      while off < hi
        invariant lo <= off && off <= Max(lo, hi)
        invariant forall i :: 0 <= i < SNDBUF ==> sndsack[i] == (was[i] || lo <= i < off)
        modifies sndsack
      {
        sndsack[off] := true;
        off := off + 1;
      }
      ghost var t := old(State()).tx;
      ghost var m := MarkBlock(t, block).sacked;
      assert t.sacked == was && |t.buf| == sndlen && t.una == una;
      assert lo == ClipEdge(block.0, t.una, |t.buf|) && hi == ClipEdge(block.1, t.una, |t.buf|);
      forall i | 0 <= i < SNDBUF
        ensures sndsack[..][i] == m[i]
      {
      }
      assert SendHalf() == MarkBlock(old(State()).tx, block);
    }

    /** Any 32-bit edge lands in the queue, so the marking loop stays short and inside. */
    lemma ClipInQueue(e: u32, a: u32, len: nat)
      requires len <= SNDBUF
      ensures 0 <= ClipEdge(e, a, len) <= len
    {
    }

    method MarkSacks(blocks: seq<(u32, u32)>)
      requires Valid()
      modifies sndsack
      ensures Valid() && State() == old(State()).(tx := MarkBlocks(old(State()).tx, blocks))
    {
      hide MarkBlock, RecvHalf;
      var b := 0;
      while b < |blocks|
        invariant 0 <= b <= |blocks| && Valid()
        invariant State() == old(State()).(tx := State().tx)
        invariant MarkBlocks(State().tx, blocks[b..]) == MarkBlocks(old(State()).tx, blocks)
        modifies sndsack
      {
        assert blocks[b..][1..] == blocks[b + 1..];
        MarkSack(blocks[b]);
        b := b + 1;
      }
    }

    method UpdateWindow(s: Seg)
      requires Valid()
      modifies this`wnd, this`maxWnd, this`wl1, this`wl2
      ensures Valid() && SendHalf() == UpdateWnd(old(SendHalf()), s.seqno, s.ackno, Wrap(s.win * scale))
    {
      hide RecvHalf, Queued, Board, Wrap, SeqGt, SeqGeq;
      var win := Wrap(s.win * scale);
      if SeqGt(s.seqno, wl1) || (s.seqno == wl1 && SeqGeq(s.ackno, wl2)) {
        wnd := win;
        wl1 := s.seqno;
        wl2 := s.ackno;
        if win > maxWnd { maxWnd := win; }
      }
    }

    method CumOrDup(s: Seg)
      requires Valid()
      modifies this`sndlen, sndbuf, sndsack, this`una, this`cwnd, this`dupacks
      modifies this`rcvAdv, this`wire, this`edge, this`ssthresh
      ensures Valid() && State() == TcpModel.CumOrDup(old(State()), s)
    {
      hide RecvHalf, TcpModel.CumAck, TcpModel.OnDupAck, Wrap, SeqGt, SeqLeq, Queued, Board;
      if SeqGt(s.ackno, una) && SeqLeq(s.ackno, nxt) {
        CumAck(s.ackno);
      } else if (phase.Established? || phase.CloseWait?) && s.ackno == una && una != nxt
             && |s.data| == 0 && !s.syn && !s.fin && wnd != 0 && Wrap(s.win * scale) == wnd {
        OnDupAck();
      }
    }

    method AckNumbers(s: Seg, sacks: seq<(u32, u32)>)
      requires Valid()
      modifies this`sndlen, sndbuf, sndsack, this`una, this`cwnd, this`dupacks
      modifies this`rcvAdv, this`wire, this`edge, this`ssthresh
      ensures Valid() && State() == TcpModel.AckNumbers(old(State()), s, sacks)
    {
      hide RecvHalf, SendHalf, TcpModel.CumOrDup, MarkBlocks;
      CumOrDup(s);
      if sackOk {
        MarkSacks(sacks);
      }
    }

    method AckPhase()
      requires Valid()
      modifies this`phase, this`used
      ensures Valid() && State() == TcpModel.AckPhase(old(State()))
    {
      hide RecvHalf, SendHalf, SeqGeq, Wrap;
      assert una == SendHalf().una && finSeq == SendHalf().finSeq by { SendFields(); }
      if phase.SynRcvd? && SeqGeq(una, Wrap(iss + 1)) {
        phase := Established;
      }
      if phase.LastAck? && SeqGeq(una, Wrap(finSeq + 1)) {
        used := false;
        return;
      }
      if phase.FinWait1? && SeqGeq(una, Wrap(finSeq + 1)) {
        phase := FinWait2;
      }
    }

    lemma SendFields()
      requires Valid()
      ensures SendHalf().una == una && SendHalf().finSeq == finSeq
    {
    }

    method OnAck(s: Seg, sacks: seq<(u32, u32)>)
      requires Valid()
      modifies this, sndbuf, sndsack
      ensures Valid() && State() == TcpModel.OnAck(old(State()), s, sacks)
    {
      hide RecvHalf, SendHalf, TcpModel.AckNumbers, TcpModel.AckPhase, TcpModel.SendMore;
      AckNumbers(s, sacks);
      AckPhase();
      if used && (phase.Established? || phase.CloseWait?) {
        SendMore(s);
      }
    }

    method SendMore(s: Seg)
      requires Valid()
      modifies this`wnd, this`maxWnd, this`wl1, this`wl2
      modifies this`rcvAdv, this`wire, this`edge, this`nxt, this`finSeq, this`finPending, this`phase
      ensures Valid() && State() == TcpModel.SendMore(old(State()), s)
    {
      hide RecvHalf, SendHalf, TcpModel.Output, UpdateWnd, Wrap;
      ghost var p := State();
      if !s.syn {
        UpdateWindow(s);
        assert State() == p.(tx := UpdateWnd(p.tx, s.seqno, s.ackno, Wrap(s.win * p.scale)));
      }
      Output();
    }

    // ----- Receiving -----

    /** What the handler does: its writes and closes, in order. */
    method React(calls: seq<AppCall>)
      requires Valid()
      modifies this`rcvAdv, this`wire, this`edge, this`nxt, this`finSeq, this`finPending, this`phase
      modifies this`sndlen, this`accepted, sndbuf
      ensures Valid() && State() == TcpModel.React(old(State()), calls)
    {
      hide RecvHalf, SendHalf, TcpModel.Write, TcpModel.Close;
      var k := 0;
      while k < |calls|
        invariant 0 <= k <= |calls| && Valid()
        invariant TcpModel.React(State(), calls[k..]) == TcpModel.React(old(State()), calls)
      {
        assert calls[k..][1..] == calls[k + 1..];
        match calls[k] {
          case WriteCall(d) => var _ := Write(d);
          case CloseCall => Close();
        }
        k := k + 1;
      }
    }

    /** The bytes of a segment that fall into the window go to their offsets. */
    method Store(seqno: u32, data: seq<u8>)
      requires Valid() && |data| < 0x1_0000
      modifies this`buffered, rcvbuf, rcvmark
      ensures Valid() && State() == old(State()).(rx := Stored(old(State()).rx, seqno, data))
    {
      hide SendHalf, Stored, Wrap, Diff, Count, SDiff;
      ghost var rx := RecvHalf();
      StoredNone(rx, seqno);
      var i := 0;
      while i < |data|
        invariant 0 <= i <= |data| && Valid()
        invariant rcvNxt == rx.nxt && RecvHalf() == Stored(rx, seqno, data[..i])
        modifies this`buffered, rcvbuf, rcvmark
      {
        StoredNext(rx, seqno, data, i);
        var s := Wrap(seqno + i);
        if SeqLt(s, rcvNxt) {
          i := i + 1;
          continue;
        }
        if SeqGeq(s, Wrap(rcvNxt + RCVBUF)) {
          BeyondWindow(rx, seqno, data, i);
          break;
        }
        var off := Diff(s, rcvNxt);
        StoreByte(off, data[i]);
        i := i + 1;
      }
      assert i == |data| ==> data[..i] == data;
    }

    method StoreByte(off: nat, b: u8)
      requires Valid() && off < RCVBUF
      modifies this`buffered, rcvbuf, rcvmark
      ensures RecvHalf() == ByteStored(old(RecvHalf()), off, b)
    {
      if !rcvmark[off] {
        rcvmark[off] := true;
        buffered := buffered + 1;
      }
      rcvbuf[off] := b;
      assert rcvmark[..] == old(rcvmark[..])[off := true];
      assert rcvbuf[..] == old(rcvbuf[..])[off := b];
    }

    /** The marked bytes at the start of the window. */
    method Contiguous() returns (run: nat)
      requires Valid()
      ensures run == Prefix(Marks(), 0)
    {
      run := 0;
      while run < RCVBUF && rcvmark[run]
        invariant run <= RCVBUF && Prefix(Marks(), run) == Prefix(Marks(), 0)
      {
        run := run + 1;
      }
    }

    /** rcv_nxt and the marks move on by `run` before the handler is called. */
    method Deliver(run: nat)
      requires Valid() && run <= RCVBUF
      modifies this`rcvNxt, this`buffered, this`delivered, rcvmark
      ensures Valid() && State() == TcpModel.Deliver(old(State()), run)
    {
      hide SendHalf, RecvHalf, Wrap;
      assert RecvHalf().buf == rcvbuf[..] by { HeldBytes(); }
      AdvanceWindow(run);
      ShiftMarks(run);
      delivered := delivered + rcvbuf[..run];
    }

    lemma HeldBytes()
      requires Valid()
      ensures RecvHalf().buf == rcvbuf[..]
    {
    }

    method AdvanceWindow(run: nat)
      requires Valid() && run <= RCVBUF
      modifies this`rcvNxt, this`buffered
      ensures Valid()
      ensures RecvHalf() == old(RecvHalf()).(nxt := Wrap(old(RecvHalf()).nxt + run),
                                             buffered := old(RecvHalf()).buffered - run)
    {
      hide Wrap, Marks, Held;
      rcvNxt := Wrap(rcvNxt + run);
      buffered := buffered - run;
    }

    method ShiftMarks(run: nat)
      requires Valid() && run <= RCVBUF
      modifies rcvmark
      ensures RecvHalf() == old(RecvHalf()).(mark := old(RecvHalf()).mark[run..] + Falses(run))
    {
      forall i | 0 <= i < RCVBUF - run {
        rcvmark[i] := rcvmark[i + run];
      }
      forall i | RCVBUF - run <= i < RCVBUF {
        rcvmark[i] := false;
      }
    }

    /** memmove of the reassembly bytes. */
    method ShiftBytes(run: nat)
      requires Valid() && run <= RCVBUF
      modifies rcvbuf
      ensures Valid() && State() == TcpModel.ShiftBytes(old(State()), run)
    {
      hide SendHalf;
      forall i | 0 <= i < RCVBUF - run {
        rcvbuf[i] := rcvbuf[i + run];
      }
      assert rcvbuf[..] == old(rcvbuf[..])[run..] + old(rcvbuf[..])[RCVBUF - run..];
      assert RecvHalf() == TcpModel.ShiftBytes(old(State()), run).rx;
    }

    /** reasm_insert. */
    method Reassemble(seqno: u32, data: seq<u8>, h: Handler) returns (run: nat)
      requires Valid() && |data| < 0x1_0000
      modifies this, sndbuf, rcvbuf, rcvmark
      ensures Valid() && (State(), run) == Reasm(old(State()), seqno, data, h)
    {
      hide SendHalf, Stored, TcpModel.React, TcpModel.Deliver, TcpModel.ShiftBytes, Wrap;
      Store(seqno, data);
      run := Contiguous();
      if run == 0 { return; }
      assert rcvbuf[..run] == RecvHalf().buf[..run];
      var calls := h(rcvbuf[..run]);
      Deliver(run);
      React(calls);
      ShiftBytes(run);
    }

    /** build_sack_blocks: the first `maxblk` maximal runs of marked bytes, as
        window offsets in ascending order. */
    method SackBlocks(maxblk: nat) returns (blk: seq<(nat, nat)>)
      requires Valid()
      ensures |blk| <= maxblk && Runs(blk, Marks(), RCVBUF)
      ensures forall o :: 0 <= o < RCVBUF && Marks()[o] ==>
                Reported(blk, o) || (|blk| == maxblk && forall b :: b in blk ==> b.1 < o)
    {
      hide Reported;
      blk := [];
      var i: nat := 0;
      ghost var mark := Marks();
      while i < RCVBUF && |blk| < maxblk
        invariant i <= RCVBUF && |blk| <= maxblk
        invariant i == 0 || i == RCVBUF || !mark[i - 1] || !mark[i]
        invariant Runs(blk, mark, i)
        invariant forall o :: 0 <= o < i && mark[o] ==> Reported(blk, o)
      {
        if !rcvmark[i] {
          i := i + 1;
          continue;
        }
        var s := i;
        while i < RCVBUF && rcvmark[i]
          invariant s <= i <= RCVBUF && forall o :: s <= o < i ==> mark[o]
        {
          i := i + 1;
        }
        assert MaximalRun(mark, s, i);
        ReportMore(blk, s, i);
        blk := blk + [(s, i)];
      }
    }

    method Acknowledge()
      requires Valid()
      modifies this`rcvAdv, this`wire, this`edge
      ensures Valid() && State() == PureAck(old(State()))
    {
      hide TcpModel.SegOut, RecvHalf;
      SegOut(false, false, true, nxt, []);
    }

    /** The peer's FIN, once rcv_nxt has reached it. */
    method TakeFin(s: Seg)
      requires Valid()
      modifies this`rcvNxt, this`rcvAdv, this`wire, this`edge
      ensures Valid() && State() == TcpModel.TakeFin(old(State()), s)
    {
      hide PureAck, SendHalf, Wrap;
      if Wrap(s.seqno + |s.data|) == rcvNxt {
        rcvNxt := Wrap(rcvNxt + 1);
      }
      Acknowledge();
    }

    method DataEstablished(s: Seg, h: Handler)
      requires Valid() && |s.data| < 0x1_0000
      modifies this, sndbuf, rcvbuf, rcvmark
      ensures Valid() && State() == TcpModel.DataEstablished(old(State()), s, h)
    {
      hide PureAck, Reasm, TcpModel.TakeFin, TcpModel.TryFin, RecvHalf, FinReached, Queued, Board;
      if |s.data| > 0 {
        var n := Reassemble(s.seqno, s.data, h);
        if n == 0 {
          Acknowledge();
        }
      }
      if !used || !phase.Established? || finPending { return; }
      if s.fin {
        var reached := Reached(s);
        if reached {
          TakeFin(s);
          StartPassiveClose();
          TryFin();
        }
      } else {
        assert !FinReached(State(), s) by { NoFin(State(), s); }
      }
    }

    lemma NoFin(p: Pcb, s: Seg)
      ensures FinReached(p, s) ==> s.fin
    {
    }

    method Reached(s: Seg) returns (yes: bool)
      requires Valid()
      ensures yes <==> FinReached(State(), s)
    {
      hide SendHalf, Wrap;
      yes := s.fin && Diff(rcvNxt, Wrap(s.seqno + |s.data|)) <= RCVBUF;
    }

    method StartPassiveClose()
      requires Valid()
      modifies this`phase, this`finPending
      ensures Valid()
      ensures State() == old(State()).(phase := CloseWait, tx := old(State()).tx.(finPending := true))
    {
      hide RecvHalf, Queued, Board;
      phase := CloseWait;
      finPending := true;
    }

    method DataFinWait(s: Seg, h: Handler)
      requires Valid() && |s.data| < 0x1_0000
      modifies this, sndbuf, rcvbuf, rcvmark
      ensures Valid() && State() == TcpModel.DataFinWait(old(State()), s, h)
    {
      hide PureAck, Reasm, TcpModel.TakeFin, RecvHalf, SendHalf, FinReached;
      if |s.data| > 0 {
        var _ := Reassemble(s.seqno, s.data, h);
        Acknowledge();
      }
      var reached := Reached(s);
      if reached {
        TakeFin(s);
        phase := TimeWait;
      }
    }

    method OnData(s: Seg, h: Handler)
      requires Valid() && |s.data| < 0x1_0000
      modifies this, sndbuf, rcvbuf, rcvmark
      ensures Valid() && State() == TcpModel.OnData(old(State()), s, h)
    {
      hide PureAck, TcpModel.DataEstablished, TcpModel.DataFinWait, RecvHalf, SendHalf;
      if phase.Established? {
        DataEstablished(s, h);
      } else if phase.FinWait1? || phase.FinWait2? {
        DataFinWait(s, h);
      } else if phase.TimeWait? {
        if s.fin { Acknowledge(); }
      } else if phase.CloseWait? || phase.LastAck? {
        if |s.data| > 0 || s.fin { Acknowledge(); }
      }
    }

    method OnSynAck(s: Seg, o: Options)
      requires Valid()
      modifies this
      ensures Valid() && State() == TcpModel.OnSynAck(old(State()), s, o)
    {
      hide PureAck, Queued, Board, Held, Marks, Wrap;
      if !(s.syn && s.ack) { return; }
      if s.ackno != Wrap(iss + 1) {
        used := false;
        return;
      }
      Answer(s, o);
      Acknowledge();
    }

    method Answer(s: Seg, o: Options)
      requires Valid()
      modifies this`una, this`wnd, this`maxWnd, this`wl1, this`wl2, this`rcvNxt, this`rcvAdv
      modifies this`sackOk, this`tsOk, this`scale, this`phase
      ensures Valid() && State() == Synchronised(old(State()), s, o)
    {
      hide SendHalf, RecvHalf, Wrap;
      ghost var p := State();
      AdoptAck(s);
      AdoptSequence(s);
      AdoptOptions(o);
      assert State() == Synchronised(p, s, o);
    }

    method AdoptOptions(o: Options)
      requires Valid()
      modifies this`sackOk, this`tsOk, this`scale, this`phase
      ensures Valid()
      ensures State() == old(State()).(phase := Established, scale := o.scale,
                                       sackOk := old(sackOk) && o.sackPerm, tsOk := old(tsOk) && o.timestamps)
    {
      hide SendHalf, RecvHalf;
      sackOk := sackOk && o.sackPerm;
      tsOk := tsOk && o.timestamps;
      Settle(o.scale);
    }

    /** The window scale is fixed and the connection stands. */
    method Settle(factor: nat)
      requires Valid()
      modifies this`scale, this`phase
      ensures Valid() && State() == old(State()).(phase := Established, scale := factor)
    {
      hide SendHalf, RecvHalf;
      scale := factor;
      phase := Established;
    }

    method AdoptAck(s: Seg)
      requires Valid()
      modifies this`una, this`wnd, this`maxWnd, this`wl1, this`wl2
      ensures Valid() && SendHalf() == old(SendHalf()).(una := s.ackno, wnd := s.win, maxWnd := s.win,
                                                       wl1 := s.seqno, wl2 := s.ackno)
    {
      hide Queued, Board;
      una := s.ackno;
      wnd := s.win;
      maxWnd := wnd;
      wl1 := s.seqno;
      wl2 := s.ackno;
    }

    /** The peer's SYN takes one sequence number. */
    method AdoptSequence(s: Seg)
      requires Valid()
      modifies this`rcvNxt, this`rcvAdv
      ensures RecvHalf() == old(RecvHalf()).(nxt := Wrap(s.seqno + 1), adv := Wrap(s.seqno + 1))
    {
      hide Held, Marks, Wrap;
      rcvNxt := Wrap(s.seqno + 1);
      rcvAdv := rcvNxt;
    }

    /** tcp_input for a segment of this connection. */
    method Input(s: Seg, o: Options, h: Handler)
      requires Valid() && |s.data| < 0x1_0000
      modifies this, sndbuf, sndsack, rcvbuf, rcvmark
      ensures Valid() && State() == TcpModel.Input(old(State()), s, o, h)
    {
      hide PureAck, TcpModel.OnAck, TcpModel.OnData, TcpModel.OnSynAck, RecvHalf, SendHalf;
      if !used { return; }
      if phase.SynSent? {
        OnSynAck(s, o);
        return;
      }
      if s.ack {
        OnAck(s, o.sacks);
        if !used { return; }
      }
      if s.syn && s.ack && phase.Established? {
        Acknowledge();
      }
      OnData(s, h);
    }

    // ----- The retransmission branch of tcp_tick -----

    method Collapse()
      requires Valid()
      modifies this`ssthresh, this`cwnd, this`dupacks
      ensures Valid() && State() == Collapsed(old(State()))
    {
      hide SendHalf, RecvHalf, Halved;
      HalvedTouches(State());
      Halve();
      NarrowWindow();
    }

    /** One segment in flight from now on, and duplicates count anew. */
    method NarrowWindow()
      requires Valid()
      modifies this`cwnd, this`dupacks
      ensures Valid() && SendHalf() == old(SendHalf()).(cwnd := MSS, dupacks := 0)
    {
      hide Queued, Board;
      cwnd := MSS;
      dupacks := 0;
    }

    lemma HalvedTouches(p: Pcb)
      requires Sized(p)
      ensures Halved(p) == p.(tx := p.tx.(ssthresh := LossThreshold(p.tx)))
    {
    }

    method RtxData()
      requires Valid() && sndlen > 0
      modifies this`rcvAdv, this`wire, this`edge, this`nxt, this`finSeq, this`finPending, this`phase
      modifies this`ssthresh, this`cwnd, this`dupacks
      ensures Valid() && State() == TcpModel.RtxData(old(State()))
    {
      hide TcpModel.SegOut, RecvHalf, Collapsed, TcpModel.Output, ResendLen, Diff, Board;
      var persisting := wnd == 0 && !phase.LastAck?;
      var inflight := Diff(nxt, una);
      if inflight > 0 {
        var n := ResendLength();
        assert sndbuf[..n] == SendHalf().buf[..n];
        SegOut(false, false, true, una, sndbuf[..n]);
        if !persisting { Collapse(); }
      } else if persisting {
        Probe();
      } else {
        Output();
      }
    }

    /** One byte beyond the closed window. */
    method Probe()
      requires Valid() && sndlen > 0
      modifies this`rcvAdv, this`wire, this`edge, this`nxt
      ensures Valid() && State() == TcpModel.Probe(old(State()))
    {
      hide TcpModel.SegOut, RecvHalf, Wrap, Board;
      assert sndbuf[..1] == SendHalf().buf[..1];
      SegOutTouches(State(), false, false, true, nxt, sndbuf[..1]);
      ghost var m := TcpModel.Probe(State());
      SegOut(false, false, true, nxt, sndbuf[..1]);
      nxt := Wrap(nxt + 1);
      assert SendHalf() == m.tx && RecvHalf() == m.rx;
    }

    method Retransmit()
      requires Valid()
      modifies this`rcvAdv, this`wire, this`edge, this`nxt, this`finSeq, this`finPending, this`phase
      modifies this`ssthresh, this`cwnd, this`dupacks
      ensures Valid() && State() == Rtx(old(State()))
    {
      hide TcpModel.SegOut, RecvHalf, TcpModel.RtxData, Board;
      if !used { return; }
      if phase.SynSent? {
        SegOut(true, false, false, iss, []);
      } else if phase.SynRcvd? {
        SegOut(true, false, true, iss, []);
      } else if (phase.Established? || phase.CloseWait? || phase.LastAck?) && sndlen > 0 {
        RtxData();
      } else if phase.LastAck? {
        SegOut(false, true, true, finSeq, []);
      } else if phase.FinWait1? {
        if sndlen > 0 {
          var emss := EffectiveMss();
          var chunk := if sndlen > emss then emss else sndlen;
          assert sndbuf[..chunk] == SendHalf().buf[..chunk];
          SegOut(false, false, true, una, sndbuf[..chunk]);
        } else {
          SegOut(false, true, true, finSeq, []);
        }
      }
    }

    /** A delayed ACK or a keepalive probe. */
    method Nudge(keepalive: bool)
      requires Valid()
      modifies this`rcvAdv, this`wire, this`edge
      ensures Valid() && State() == TcpModel.Nudge(old(State()), keepalive)
    {
      hide TcpModel.SegOut, PureAck, RecvHalf, Wrap;
      if !used { return; }
      if keepalive && phase.Established? && sndlen == 0 {
        SegOut(false, false, true, Wrap(una - 1), []);
      } else {
        Acknowledge();
      }
    }
  }
}
