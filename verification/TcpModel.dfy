/** One TCP control block of net/tcp.c as a value: the state every operation
    of the data path maps to its successor.  Timers, RTT estimation and option
    bytes are not part of it: which timer branch runs is an input of the run.

    `accepted`, `delivered`, `edge` and `out` are history: the bytes tcp_write
    took, the bytes the receive handler was given, the largest right window
    edge ever advertised (as a position in the peer's stream) and every
    segment emitted so far. */
module TcpModel {
  import opened Words

  const SNDBUF := 2048
  const RCVBUF := 2048
  const MSS := 1460
  const SWS_MIN := 1024
  const IW := 2920
  const INIT_SSTHRESH := 65535

  datatype Phase = SynSent | SynRcvd | Established | CloseWait | LastAck | FinWait1 | FinWait2 | TimeWait

  datatype Seg = Seg(syn: bool, fin: bool, ack: bool, seqno: u32, ackno: u32, win: u16, data: seq<u8>)

  /** Sender half; `buf` is sndbuf[0..sndlen), `sacked` the whole scoreboard. */
  datatype Tx = Tx(una: u32, nxt: u32, wnd: u32, maxWnd: u32, wl1: u32, wl2: u32,
                   buf: seq<u8>, sacked: seq<bool>, cwnd: u32, ssthresh: u32, dupacks: u8,
                   finSeq: u32, finPending: bool)

  /** Receiver half: reassembly bytes and marks for [nxt, nxt + RCVBUF). */
  datatype Rx = Rx(nxt: u32, adv: u32, buf: seq<u8>, mark: seq<bool>, buffered: int)

  datatype Pcb = Pcb(used: bool, phase: Phase, iss: u32, sackOk: bool, tsOk: bool, scale: nat,
                     tx: Tx, rx: Rx,
                     out: seq<Seg>, accepted: seq<u8>, delivered: seq<u8>, edge: int)

  /** Queue, scoreboard and reassembly arrays have the C array sizes. */
  predicate Sized(p: Pcb) {
    SizedTx(p.tx) && SizedRx(p.rx)
  }

  predicate SizedTx(t: Tx) {
    |t.buf| <= SNDBUF && |t.sacked| == SNDBUF && t.ssthresh >= 2 * MSS
  }

  predicate SizedRx(r: Rx) {
    |r.buf| == RCVBUF && |r.mark| == RCVBUF
  }

  function Min(a: int, b: int): int {
    if a < b then a else b
  }

  function Max(a: int, b: int): int {
    if a < b then b else a
  }

  // ----- Emitting a segment (seg_out) -----

  /** The right window edge seg_out settles on: silly-window avoidance keeps
      the old edge when the new one lies only a little to the right. */
  function NewEdge(r: Rx, queued: nat): u32 {
    var rwin := if r.buffered < RCVBUF then RCVBUF - r.buffered else 0;
    var swin := if queued < SNDBUF then SNDBUF - queued else 0;
    var edge := Wrap(r.nxt + Min(rwin, swin));
    if SeqGt(edge, r.adv) && Diff(edge, r.adv) < SWS_MIN then r.adv else edge
  }

  function Window(adv: u32, nxt: u32): u16 {
    if SeqGt(adv, nxt) then Diff(adv, nxt) % 0x1_0000 else 0
  }

  function SegOut(p: Pcb, syn: bool, fin: bool, ack: bool, seqno: u32, data: seq<u8>): (r: Pcb)
    requires Sized(p)
    ensures Sized(r)
  {
    var adv := NewEdge(p.rx, |p.tx.buf|);
    var win := Window(adv, p.rx.nxt);
    p.(rx := p.rx.(adv := adv),
       out := p.out + [Seg(syn, fin, ack, seqno, p.rx.nxt, win, data)],
       edge := Max(p.edge, |p.delivered| + win))
  }

  function PureAck(p: Pcb): (r: Pcb)
    requires Sized(p)
    ensures Sized(r)
  {
    SegOut(p, false, false, true, p.tx.nxt, [])
  }

  // ----- Sending (tcp_eff_mss, tcp_try_fin, tcp_output, tcp_write, tcp_close) -----

  function EffMss(p: Pcb): (m: int)
    ensures 0 < MSS - 40 <= m <= MSS
  {
    MSS - (if p.tsOk then 12 else 0) - (if p.sackOk && p.rx.buffered > 0 then 28 else 0)
  }

  predicate Sending(p: Pcb) {
    p.phase.Established? || p.phase.CloseWait?
  }

  function TryFin(p: Pcb): (r: Pcb)
    requires Sized(p)
    ensures Sized(r)
  {
    if !p.tx.finPending || p.tx.nxt != Wrap(p.tx.una + |p.tx.buf|) then p else SendFin(p)
  }

  /** The FIN goes out at snd_nxt and takes one sequence number. */
  function SendFin(p: Pcb): (r: Pcb)
    requires Sized(p)
    ensures Sized(r)
  {
    var q := SegOut(p, false, true, true, p.tx.nxt, []);
    q.(phase := if p.phase.CloseWait? then LastAck else FinWait1,
       tx := q.tx.(finSeq := p.tx.nxt, nxt := Wrap(p.tx.nxt + 1), finPending := false))
  }

  function Unsent(p: Pcb): int {
    |p.tx.buf| - Diff(p.tx.nxt, p.tx.una)
  }

  /** One data segment of `n` unsent bytes. */
  function SendChunk(p: Pcb, n: nat): (r: Pcb)
    requires Sized(p) && n <= Unsent(p)
    ensures Sized(r)
  {
    var off := Diff(p.tx.nxt, p.tx.una);
    var q := SegOut(p, false, false, true, p.tx.nxt, p.tx.buf[off..off + n]);
    q.(tx := q.tx.(nxt := Wrap(p.tx.nxt + n)))
  }

  /** How much the sending loop puts into its next segment; 0 stops it
      (nothing to send, window closed, or sender silly-window avoidance). */
  function NextChunk(p: Pcb, unsent: nat, usable: nat, mss: nat): (n: nat)
    ensures n <= unsent && n <= usable
  {
    var chunk := Min(Min(unsent, mss), usable);
    var sws := if mss < p.tx.maxWnd / 2 then mss else p.tx.maxWnd / 2;
    if chunk < sws && Diff(p.tx.nxt, p.tx.una) > 0 && !p.tx.finPending then 0 else chunk
  }

  function OutputLoop(p: Pcb, unsent: nat, usable: nat, mss: nat): (r: Pcb)
    requires Sized(p) && unsent <= Unsent(p)
    ensures Sized(r)
    decreases unsent
  {
    var n := NextChunk(p, unsent, usable, mss);
    if n == 0 then p
    else
      SentAdvances(p, n);
      OutputLoop(SendChunk(p, n), unsent - n, usable - n, mss)
  }

  lemma SentAdvances(p: Pcb, n: nat)
    requires Sized(p) && n <= Unsent(p)
    ensures Diff(SendChunk(p, n).tx.nxt, p.tx.una) == Diff(p.tx.nxt, p.tx.una) + n
    ensures Unsent(SendChunk(p, n)) == Unsent(p) - n
  {
    hide NewEdge, Window;
    DiffAdds(p.tx.nxt, p.tx.una, n);
    hide Diff, Wrap;
  }

  function Usable(p: Pcb): nat {
    var cwin := Min(p.tx.cwnd, p.tx.wnd);
    var inflight := Diff(p.tx.nxt, p.tx.una);
    if cwin > inflight then cwin - inflight else 0
  }

  function Output(p: Pcb): (r: Pcb)
    requires Sized(p)
    ensures Sized(r)
  {
    if !Sending(p) || Unsent(p) < 0 then p
    else TryFin(OutputLoop(p, Unsent(p), Usable(p), EffMss(p)))
  }

  /** tcp_write: the successor state and the number of bytes taken (-1: refused). */
  function Write(p: Pcb, data: seq<u8>): (r: (Pcb, int))
    requires Sized(p)
    ensures Sized(r.0)
  {
    if !Sending(p) then (p, -1)
    else
      var n := if |p.tx.buf| + |data| > SNDBUF then SNDBUF - |p.tx.buf| else |data|;
      if n <= 0 then (p, 0)
      else (Output(Enqueue(p, data[..n])), n)
  }

  function Enqueue(p: Pcb, bytes: seq<u8>): Pcb {
    p.(tx := p.tx.(buf := p.tx.buf + bytes), accepted := p.accepted + bytes)
  }

  function Close(p: Pcb): (r: Pcb)
    requires Sized(p)
    ensures Sized(r)
  {
    if !p.used || !p.phase.Established? then p
    else TryFin(p.(tx := p.tx.(finPending := true)))
  }

  // ----- Acknowledgements -----

  function Falses(n: nat): (s: seq<bool>)
    ensures |s| == n && forall i :: 0 <= i < n ==> !s[i]
  {
    seq(n, i => false)
  }

  /** Congestion window after a cumulative ACK of `adv` bytes. */
  function GrownCwnd(t: Tx, adv: nat): u32
    requires t.ssthresh > 0
  {
    if t.dupacks >= 3 then t.ssthresh
    else if t.cwnd < t.ssthresh then Wrap(t.cwnd + Min(adv, MSS))
    else
      var inc := MSS * MSS / t.cwnd;
      Wrap(t.cwnd + if inc != 0 then inc else 1)
  }

  /** A cumulative ACK drops the acknowledged bytes and shifts the scoreboard. */
  function CumAck(p: Pcb, ackno: u32): (r: Pcb)
    requires Sized(p)
    ensures Sized(r)
  {
    var adv := Diff(ackno, p.tx.una);
    var drop := Min(adv, |p.tx.buf|);
    Grown(p.(tx := Dropped(p.tx, drop).(una := ackno)), adv)
  }

  /** Congestion control sees `adv` newly acknowledged bytes; duplicates count anew. */
  function Grown(p: Pcb, adv: nat): (r: Pcb)
    requires Sized(p)
    ensures Sized(r)
  {
    p.(tx := p.tx.(cwnd := if Sending(p) then GrownCwnd(p.tx, adv) else p.tx.cwnd, dupacks := 0))
  }

  /** The queue and its scoreboard moved down by `drop` bytes. */
  function Dropped(t: Tx, drop: nat): (r: Tx)
    requires SizedTx(t) && drop <= |t.buf|
    ensures SizedTx(r)
  {
    t.(buf := t.buf[drop..], sacked := t.sacked[drop..] + Falses(drop))
  }

  predicate NewAck(t: Tx, ackno: u32) {
    SeqGt(ackno, t.una) && SeqLeq(ackno, t.nxt)
  }

  predicate DupAck(p: Pcb, s: Seg) {
    && Sending(p)
    && s.ackno == p.tx.una && p.tx.una != p.tx.nxt
    && s.data == [] && !s.syn && !s.fin
    && p.tx.wnd != 0 && Wrap(s.win * p.scale) == p.tx.wnd
  }

  /** Length of the leading run of bytes not marked in the scoreboard. */
  function UnsackedRun(sacked: seq<bool>, lim: nat): (n: nat)
    requires lim <= |sacked|
    ensures n <= lim
    ensures forall i :: 0 <= i < n ==> !sacked[i]
    ensures n < lim ==> sacked[n]
  {
    UnsackedFrom(sacked, lim, 0)
  }

  function UnsackedFrom(sacked: seq<bool>, lim: nat, k: nat): (n: nat)
    requires k <= lim <= |sacked|
    ensures k <= n <= lim
    ensures forall i :: k <= i < n ==> !sacked[i]
    ensures n < lim ==> sacked[n]
    decreases lim - k
  {
    if k < lim && !sacked[k] then UnsackedFrom(sacked, lim, k + 1) else k
  }

  /** What a retransmission from snd_una carries: the first gap in the
      scoreboard, at most one segment, never beyond the buffered bytes. */
  function ResendLen(p: Pcb): (n: nat)
    requires |p.tx.buf| <= |p.tx.sacked|
    ensures n <= |p.tx.buf|
  {
    var lim := Min(Diff(p.tx.nxt, p.tx.una), |p.tx.buf|);
    var run := UnsackedRun(p.tx.sacked, lim);
    Min(if run == 0 then lim else run, EffMss(p))
  }

  function LossThreshold(t: Tx): u32 {
    Max(Diff(t.nxt, t.una) / 2, 2 * MSS)
  }

  function Halved(p: Pcb): (r: Pcb)
    requires Sized(p)
    ensures Sized(r)
  {
    p.(tx := p.tx.(ssthresh := LossThreshold(p.tx)))
  }

  /** The third duplicate ACK: resend the first gap at once, enter fast recovery. */
  function FastRetransmit(p: Pcb): (r: Pcb)
    requires Sized(p)
    ensures Sized(r)
  {
    var p1 := Resend(Halved(p), ResendLen(p));
    p1.(tx := p1.tx.(cwnd := Wrap(p1.tx.ssthresh + 3 * MSS)))
  }

  /** The first `n` queued bytes again, if any. */
  function Resend(p: Pcb, n: nat): (r: Pcb)
    requires Sized(p) && n <= |p.tx.buf|
    ensures Sized(r)
  {
    if n > 0 then SegOut(p, false, false, true, p.tx.una, p.tx.buf[..n]) else p
  }

  function OnDupAck(p: Pcb): (r: Pcb)
    requires Sized(p)
    ensures Sized(r)
  {
    var dups := (p.tx.dupacks + 1) % 0x100;
    var p1 := p.(tx := p.tx.(dupacks := dups));
    if dups == 3 then FastRetransmit(p1)
    else if dups > 3 then p1.(tx := p1.tx.(cwnd := Wrap(p.tx.cwnd + MSS)))
    else p1
  }

  /** An arbitrary 32-bit edge clipped into [una, una + len], as an offset. */
  function ClipEdge(e: u32, una: u32, len: nat): int {
    var hi := Wrap(una + len);
    var e1 := if SeqLt(e, una) then una else e;
    var e2 := if SeqGt(e1, hi) then hi else e1;
    Diff(e2, una)
  }

  /** The scoreboard after one SACK block with arbitrary edges. */
  function MarkBlock(t: Tx, block: (u32, u32)): (r: Tx)
    ensures r.(sacked := t.sacked) == t && |r.sacked| == |t.sacked|
  {
    var lo := ClipEdge(block.0, t.una, |t.buf|);
    var hi := ClipEdge(block.1, t.una, |t.buf|);
    t.(sacked := seq(|t.sacked|, i requires 0 <= i < |t.sacked| => t.sacked[i] || lo <= i < hi))
  }

  function MarkBlocks(t: Tx, blocks: seq<(u32, u32)>): (r: Tx)
    ensures r.(sacked := t.sacked) == t && |r.sacked| == |t.sacked|
    decreases |blocks|
  {
    if blocks == [] then t else MarkBlocks(MarkBlock(t, blocks[0]), blocks[1..])
  }

  function UpdateWnd(t: Tx, segSeq: u32, segAck: u32, win: u32): Tx {
    if SeqGt(segSeq, t.wl1) || (segSeq == t.wl1 && SeqGeq(segAck, t.wl2)) then
      t.(wnd := win, wl1 := segSeq, wl2 := segAck, maxWnd := Max(win, t.maxWnd))
    else t
  }

  function CumOrDup(p: Pcb, s: Seg): (r: Pcb)
    requires Sized(p)
    ensures Sized(r)
  {
    if NewAck(p.tx, s.ackno) then CumAck(p, s.ackno)
    else if DupAck(p, s) then OnDupAck(p) else p
  }

  /** First part of ACK processing: cumulative ACK, duplicate ACK, scoreboard. */
  function AckNumbers(p: Pcb, s: Seg, sacks: seq<(u32, u32)>): (r: Pcb)
    requires Sized(p)
    ensures Sized(r)
  {
    var p1 := CumOrDup(p, s);
    if p.sackOk then p1.(tx := MarkBlocks(p1.tx, sacks)) else p1
  }

  /** The phase changes a progressed snd_una causes. */
  function AckPhase(p: Pcb): (r: Pcb)
    requires Sized(p)
    ensures Sized(r)
  {
    if p.phase.SynRcvd? && SeqGeq(p.tx.una, Wrap(p.iss + 1)) then p.(phase := Established)
    else if p.phase.LastAck? && SeqGeq(p.tx.una, Wrap(p.tx.finSeq + 1)) then p.(used := false)
    else if p.phase.FinWait1? && SeqGeq(p.tx.una, Wrap(p.tx.finSeq + 1)) then p.(phase := FinWait2)
    else p
  }

  function OnAck(p: Pcb, s: Seg, sacks: seq<(u32, u32)>): (r: Pcb)
    requires Sized(p)
    ensures Sized(r)
  {
    var p1 := AckPhase(AckNumbers(p, s, sacks));
    if !p1.used || !Sending(p1) then p1 else SendMore(p1, s)
  }

  /** The peer's window from a segment without SYN, then whatever fits into it. */
  function SendMore(p: Pcb, s: Seg): (r: Pcb)
    requires Sized(p)
    ensures Sized(r)
  {
    Output(if s.syn then p else p.(tx := UpdateWnd(p.tx, s.seqno, s.ackno, Wrap(s.win * p.scale))))
  }

  // ----- Receiving -----

  /** What the receive handler does before it returns. */
  datatype AppCall = WriteCall(data: seq<u8>) | CloseCall

  /** The receive handler: its calls as a function of the bytes it is given. */
  type Handler = seq<u8> -> seq<AppCall>

  function React(p: Pcb, calls: seq<AppCall>): (r: Pcb)
    requires Sized(p)
    ensures Sized(r)
    decreases |calls|
  {
    if calls == [] then p
    else
      var q := match calls[0]
               case WriteCall(d) => Write(p, d).0
               case CloseCall => Close(p);
      React(q, calls[1..])
  }

  /** Is the window offset `o` covered by a segment of `len` bytes at `seqno`? */
  predicate Covers(rx: Rx, seqno: u32, len: nat, o: nat) {
    Diff(rx.nxt + o, seqno) < len
  }

  function Stored(rx: Rx, seqno: u32, data: seq<u8>): Rx
    requires |rx.buf| == RCVBUF && |rx.mark| == RCVBUF
  {
    var mark := seq(RCVBUF, o requires 0 <= o < RCVBUF => rx.mark[o] || Covers(rx, seqno, |data|, o));
    rx.(buf := seq(RCVBUF, o requires 0 <= o < RCVBUF =>
                 if Covers(rx, seqno, |data|, o) then data[Diff(rx.nxt + o, seqno)] else rx.buf[o]),
        mark := mark,
        buffered := rx.buffered + Count(mark) - Count(rx.mark))
  }

  function Count(s: seq<bool>): nat {
    if s == [] then 0 else (if s[0] then 1 else 0) + Count(s[1..])
  }

  /** Length of the contiguous marked prefix. */
  function Prefix(mark: seq<bool>, k: nat): (n: nat)
    requires k <= |mark|
    ensures k <= n <= |mark|
    ensures forall i :: k <= i < n ==> mark[i]
    ensures n < |mark| ==> !mark[n]
    decreases |mark| - k
  {
    if k < |mark| && mark[k] then Prefix(mark, k + 1) else k
  }

  /** The state the handler sees: rcv_nxt and the marks have moved on by `n`,
      and the handler has been given the first `n` buffered bytes. */
  function Deliver(p: Pcb, n: nat): (r: Pcb)
    requires Sized(p) && n <= RCVBUF
    ensures Sized(r)
  {
    p.(rx := p.rx.(nxt := Wrap(p.rx.nxt + n), buffered := p.rx.buffered - n,
                   mark := p.rx.mark[n..] + Falses(n)),
       delivered := p.delivered + p.rx.buf[..n])
  }

  /** memmove of the bytes after the handler returned: the tail keeps stale bytes. */
  function ShiftBytes(p: Pcb, n: nat): (r: Pcb)
    requires Sized(p) && n <= RCVBUF
    ensures Sized(r)
  {
    p.(rx := p.rx.(buf := p.rx.buf[n..] + p.rx.buf[RCVBUF - n..]))
  }

  /** reasm_insert: the new state and the number of bytes handed over. */
  function Reasm(p: Pcb, seqno: u32, data: seq<u8>, h: Handler): (r: (Pcb, nat))
    requires Sized(p)
    ensures Sized(r.0)
  {
    var p1 := p.(rx := Stored(p.rx, seqno, data));
    var n := Prefix(p1.rx.mark, 0);
    if n == 0 then (p1, 0)
    else
      var p2 := React(Deliver(p1, n), h(p1.rx.buf[..n]));
      (ShiftBytes(p2, n), n)
  }

  /** A FIN counts once rcv_nxt has reached its sequence number. */
  predicate FinReached(p: Pcb, s: Seg) {
    s.fin && Diff(p.rx.nxt, Wrap(s.seqno + |s.data|)) <= RCVBUF
  }

  function TakeFin(p: Pcb, s: Seg): (r: Pcb)
    requires Sized(p)
    ensures Sized(r)
  {
    var p1 := if Wrap(s.seqno + |s.data|) == p.rx.nxt
              then p.(rx := p.rx.(nxt := Wrap(p.rx.nxt + 1))) else p;
    PureAck(p1)
  }

  function DataEstablished(p: Pcb, s: Seg, h: Handler): (r: Pcb)
    requires Sized(p)
    ensures Sized(r)
  {
    var p1 := if |s.data| > 0 then
                var r := Reasm(p, s.seqno, s.data, h);
                if r.1 > 0 then r.0 else PureAck(r.0)
              else p;
    if !p1.used || !p1.phase.Established? || p1.tx.finPending || !FinReached(p1, s) then p1
    else
      var p2 := TakeFin(p1, s);
      TryFin(p2.(phase := CloseWait, tx := p2.tx.(finPending := true)))
  }

  function DataFinWait(p: Pcb, s: Seg, h: Handler): (r: Pcb)
    requires Sized(p)
    ensures Sized(r)
  {
    var p1 := if |s.data| > 0 then PureAck(Reasm(p, s.seqno, s.data, h).0) else p;
    if !FinReached(p1, s) then p1
    else TakeFin(p1, s).(phase := TimeWait)
  }

  function OnData(p: Pcb, s: Seg, h: Handler): (r: Pcb)
    requires Sized(p)
    ensures Sized(r)
  {
    match p.phase
    case Established => DataEstablished(p, s, h)
    case FinWait1 => DataFinWait(p, s, h)
    case FinWait2 => DataFinWait(p, s, h)
    case TimeWait => if s.fin then PureAck(p) else p
    case CloseWait => if |s.data| > 0 || s.fin then PureAck(p) else p
    case LastAck => if |s.data| > 0 || s.fin then PureAck(p) else p
    case _ => p
  }

  /** Option values of an incoming segment, as the option parsers report them. */
  datatype Options = Options(sacks: seq<(u32, u32)>, sackPerm: bool, timestamps: bool, scale: nat)

  /** The SYN-ACK that answers our SYN. */
  function OnSynAck(p: Pcb, s: Seg, o: Options): (r: Pcb)
    requires Sized(p)
    ensures Sized(r)
  {
    if !(s.syn && s.ack) then p
    else if s.ackno != Wrap(p.iss + 1) then p.(used := false)
    else
      PureAck(Synchronised(p, s, o))
  }

  /** The client block once its SYN is answered, before the handshake ACK. */
  function Synchronised(p: Pcb, s: Seg, o: Options): (r: Pcb)
    requires Sized(p)
    ensures Sized(r)
  {
    var nxt := Wrap(s.seqno + 1);
    p.(phase := Established,
       sackOk := p.sackOk && o.sackPerm, tsOk := p.tsOk && o.timestamps, scale := o.scale,
       tx := p.tx.(una := s.ackno, wnd := s.win, maxWnd := s.win, wl1 := s.seqno, wl2 := s.ackno),
       rx := p.rx.(nxt := nxt, adv := nxt))
  }

  /** tcp_input for a segment of this connection (checksum and PAWS passed). */
  function Input(p: Pcb, s: Seg, o: Options, h: Handler): (r: Pcb)
    requires Sized(p)
    ensures Sized(r)
  {
    if !p.used then p
    else if p.phase.SynSent? then OnSynAck(p, s, o)
    else
      var p1 := if s.ack then OnAck(p, s, o.sacks) else p;
      if !p1.used then p1
      else
        var p2 := if s.syn && s.ack && p1.phase.Established? then PureAck(p1) else p1;
        OnData(p2, s, h)
  }

  // ----- The retransmission branch of tcp_tick -----

  function RtxData(p: Pcb): (r: Pcb)
    requires Sized(p) && |p.tx.buf| > 0
    ensures Sized(r)
  {
    var persisting := p.tx.wnd == 0 && !p.phase.LastAck?;
    var inflight := Diff(p.tx.nxt, p.tx.una);
    if inflight > 0 then
      var q := SegOut(p, false, false, true, p.tx.una, p.tx.buf[..ResendLen(p)]);
      if persisting then q else Collapsed(q)
    else if persisting then Probe(p)
    else Output(p)
  }

  /** The persist probe: one byte beyond the closed window. */
  function Probe(p: Pcb): (r: Pcb)
    requires Sized(p) && |p.tx.buf| > 0
    ensures Sized(r)
  {
    var q := SegOut(p, false, false, true, p.tx.nxt, p.tx.buf[..1]);
    q.(tx := q.tx.(nxt := Wrap(p.tx.nxt + 1)))
  }

  /** A retransmission timeout: half the flight as threshold, one segment as window. */
  function Collapsed(p: Pcb): (r: Pcb)
    requires Sized(p)
    ensures Sized(r)
  {
    p.(tx := p.tx.(ssthresh := LossThreshold(p.tx), cwnd := MSS, dupacks := 0))
  }

  function Rtx(p: Pcb): (r: Pcb)
    requires Sized(p)
    ensures Sized(r)
  {
    if !p.used then p
    else if p.phase.SynSent? then SegOut(p, true, false, false, p.iss, [])
    else if p.phase.SynRcvd? then SegOut(p, true, false, true, p.iss, [])
    else if (Sending(p) || p.phase.LastAck?) && |p.tx.buf| > 0 then RtxData(p)
    else if p.phase.LastAck? then SegOut(p, false, true, true, p.tx.finSeq, [])
    else if p.phase.FinWait1? then
      if |p.tx.buf| > 0 then SegOut(p, false, false, true, p.tx.una, p.tx.buf[..Min(|p.tx.buf|, EffMss(p))])
      else SegOut(p, false, true, true, p.tx.finSeq, [])
    else p
  }

  /** The segments tcp_tick sends without a retransmission being due: a delayed
      ACK, or a keepalive probe one before snd_una. */
  function Nudge(p: Pcb, keepalive: bool): (r: Pcb)
    requires Sized(p)
    ensures Sized(r)
  {
    if !p.used then p
    else if keepalive && p.phase.Established? && p.tx.buf == [] then
      SegOut(p, false, false, true, Wrap(p.tx.una - 1), [])
    else PureAck(p)
  }

  // ----- Opening -----

  function Blank(iss: u32, phase: Phase, sackOk: bool, tsOk: bool, scale: nat): Pcb {
    Pcb(true, phase, iss, sackOk, tsOk, scale,
        Tx(iss, 0, 0, 0, 0, 0, [], Falses(SNDBUF), IW, INIT_SSTHRESH, 0, 0, false),
        Rx(0, 0, seq(RCVBUF, i => 0), Falses(RCVBUF), 0),
        [], [], [], 0)
  }

  /** tcp_connect: the client's block after its SYN. */
  function Connect(iss: u32): (r: Pcb)
    ensures Sized(r)
  {
    var q := SegOut(Blank(iss, SynSent, true, true, 1), true, false, false, iss, []);
    q.(tx := q.tx.(nxt := Wrap(iss + 1)))
  }

  /** The server's block after answering the SYN `s` with its SYN-ACK. */
  function Accept(iss: u32, s: Seg, o: Options): (r: Pcb)
    ensures Sized(r)
  {
    var b := Blank(iss, SynRcvd, o.sackPerm, o.timestamps, o.scale);
    var nxt := Wrap(s.seqno + 1);
    var b1 := b.(tx := b.tx.(wnd := s.win, maxWnd := s.win, wl1 := s.seqno, wl2 := s.ackno),
                 rx := b.rx.(nxt := nxt, adv := nxt));
    var q := SegOut(b1, true, false, true, iss, []);
    q.(tx := q.tx.(nxt := Wrap(iss + 1)))
  }
}
