/** The hand-off of tcp_endpoint between the socket's reader thread and the reactor, one atomic
    step at a time, while one client stays open. */
module TcpHandoff {
  import opened Bytes
  import Arq = ArqSpec
  import T = TcpStreamClass

  const RECV_MAX: nat := 16384

  /** Where the reader thread stands in rx_loop. */
  datatype Reader = Top | Checked(qn: nat) | Recv | Have(data: seq<byte>) | Inserted | Waking

  /** What the reactor does after sync_rx_accept returns; a kick may be followed by the second
      look of on_rx_wake. */
  datatype After = Done | Again | Kick(again: bool)

  /** Where the reactor stands. */
  datatype Reactor =
    | Idle
    | WakeBegin
    | WakeCheck
    | Peeled(chunk: seq<byte>)
    | Kicking(again: bool)
    | Sync(after: After)
    | SyncQ(after: After)
    | SyncX(after: After, has: bool)
    | SyncWake(after: After)
    | AgainQ
    | AgainX(has: bool)
    | AgainWake

  /** `received` are the bytes read from the socket, `given` those handed to the stream; `stale`
      bounds the wake closures left over from an earlier client. A `server` keeps its client when
      the peer ends the connection. */
  datatype Hand = Hand(server: bool, s: Arq.Stream, rxq: seq<byte>, accept: bool, pending: bool, queued: nat,
                       rx: Reader, re: Reactor, received: seq<byte>, given: seq<byte>, stale: nat)

  datatype Step =
    | RxCheck
    | RxGo
    | RxRecv(data: seq<byte>)
    | RxInsert
    | RxFlag
    | RxWakeUp
    | Radio(data: seq<byte>, now: int)
    | Tick(now: int)
    | PullAir(max: nat, now: int)
    | WakeTake
    | WakeClear
    | WakePeel
    | Deliver(now: int)
    | KickTick(now: int)
    | KickDone
    | SyncStart
    | SyncRead
    | SyncFlag
    | SyncWakeUp
    | AgainRead
    | AgainFlag
    | AgainWakeUp

  function Start(server: bool, s: Arq.Stream, stale: nat): Hand {
    Hand(server, s, [], true, false, stale, Top, Idle, [], [], stale)
  }

  predicate Enabled(h: Hand, st: Step) {
    match st
    case RxCheck => h.rx.Top?
    case RxGo => h.rx.Checked?
    case RxRecv(data) => h.rx.Recv? && 1 <= |data| <= RECV_MAX
    case RxInsert => h.rx.Have?
    case RxFlag => h.rx.Inserted?
    case RxWakeUp => h.rx.Waking?
    case Radio(_, _) => h.re.Idle?
    case Tick(_) => h.re.Idle?
    case PullAir(_, _) => h.re.Idle? || h.re.Kicking?
    case WakeTake => h.re.Idle? && h.queued > 0
    case WakeClear => h.re.WakeBegin?
    case WakePeel => h.re.WakeCheck?
    case Deliver(_) => h.re.Peeled?
    case KickTick(_) => h.re.Kicking?
    case KickDone => h.re.Kicking?
    case SyncStart => h.re.Sync?
    case SyncRead => h.re.SyncQ?
    case SyncFlag => h.re.SyncX?
    case SyncWakeUp => h.re.SyncWake?
    case AgainRead => h.re.AgainQ?
    case AgainFlag => h.re.AgainX?
    case AgainWakeUp => h.re.AgainWake?
  }

  function Return(a: After): Reactor {
    match a
    case Done => Idle
    case Again => AgainQ
    case Kick(again) => Kicking(again)
  }

  function Apply(h: Hand, st: Step): Hand
    requires Enabled(h, st)
  {
    match st
    case RxCheck => h.(rx := Checked(|h.rxq|))
    case RxGo => h.(rx := if !h.accept || h.rx.qn >= Arq.TCP_IN_MAX then Top else Recv)
    case RxRecv(data) => h.(rx := Have(data), received := h.received + data)
    case RxInsert => h.(rxq := h.rxq + h.rx.data, rx := Inserted)
    case RxFlag => h.(pending := true, rx := if h.pending then Top else Waking)
    case RxWakeUp => h.(queued := h.queued + 1, rx := Top)
    case Radio(data, now) =>
      var s := Arq.OnRadioRx(h.s, data, now);
      if !s.peerClose then h.(s := s, re := Sync(Done))
      else if h.server then h.(s := Arq.LocalUp(Arq.Cleared(s), now), re := Kicking(false))
      else h.(s := s, re := Idle)
    case Tick(now) => h.(s := Arq.OnTick(h.s, now), re := Sync(Done))
    case PullAir(max, now) => h.(s := Arq.PullTx(h.s, max, now).st)
    case WakeTake => h.(queued := h.queued - 1, re := WakeBegin)
    case WakeClear => h.(pending := false, re := WakeCheck)
    case WakePeel =>
      var n := Min(h.s.Room(), |h.rxq|);
      if !h.s.AcceptsTcp() || n == 0 then h.(re := Sync(Done))
      else h.(rxq := h.rxq[n..], re := Peeled(h.rxq[..n]))
    case Deliver(now) =>
      h.(s := Arq.OnTcpBytes(h.s, h.re.chunk, now), given := h.given + h.re.chunk, re := Kicking(true))
    case KickTick(now) => h.(s := Arq.OnTick(h.s, now), re := Sync(Kick(h.re.again)))
    case KickDone => h.(re := Sync(if h.re.again then Again else Done))
    case SyncStart =>
      h.(accept := h.s.AcceptsTcp(), re := if h.s.AcceptsTcp() then SyncQ(h.re.after) else Return(h.re.after))
    case SyncRead => h.(re := SyncX(h.re.after, h.rxq != []))
    case SyncFlag =>
      if h.re.has && !h.pending then h.(pending := true, re := SyncWake(h.re.after)) else h.(re := Return(h.re.after))
    case SyncWakeUp => h.(queued := h.queued + 1, re := Return(h.re.after))
    case AgainRead => h.(re := AgainX(h.rxq != []))
    case AgainFlag =>
      if h.re.has && h.s.AcceptsTcp() && !h.pending then h.(pending := true, re := AgainWake) else h.(re := Idle)
    case AgainWakeUp => h.(queued := h.queued + 1, re := Idle)
  }

  // ---- Invariant -------------------------------------------------------

  function Chunk(re: Reactor): seq<byte> { if re.Peeled? then re.chunk else [] }

  function InHand(rx: Reader): seq<byte> { if rx.Have? then rx.data else [] }

  /** Nothing read from the socket is lost, repeated or reordered on its way to the stream. */
  ghost predicate Conserved(h: Hand) { h.received == h.given + Chunk(h.re) + h.rxq + InHand(h.rx) }

  /** The stream's input buffer and the shared queue stay within their caps. */
  ghost predicate Bounded(h: Hand) {
    && |h.s.tcpIn| <= Arq.TCP_IN_MAX
    && (h.re.Peeled? ==> h.s.Established() && 1 <= |h.re.chunk| <= h.s.Room())
    && (h.rx.Checked? ==> |h.rxq| <= h.rx.qn || |h.rxq| < Arq.TCP_IN_MAX)
    && (h.rx.Recv? || h.rx.Have? ==> |h.rxq| < Arq.TCP_IN_MAX)
    && (h.rx.Have? ==> |h.rx.data| <= RECV_MAX)
    && |h.rxq| < Arq.TCP_IN_MAX + RECV_MAX
  }

  /** Wake closures queued, about to be queued, or begun. */
  function Tokens(h: Hand): nat {
    h.queued + (if h.rx.Waking? then 1 else 0) + (if h.re.WakeBegin? || h.re.SyncWake? || h.re.AgainWake? then 1 else 0)
  }

  /** The pending flag stands for a closure that exists, and there is never more than one beyond
      the stale ones. */
  ghost predicate Flagged(h: Hand) {
    && (h.pending ==> Tokens(h) >= 1) && Tokens(h) <= h.stale + (if h.pending then 1 else 0)
  }

  /** The reactor is on its way to looking at the queue. */
  predicate WillLook(re: Reactor) {
    match re
    case Idle => false
    case WakeBegin => true
    case WakeCheck => true
    case Peeled(_) => true
    case Kicking(_) => true
    case Sync(_) => true
    case SyncQ(_) => true
    case SyncX(_, has) => has
    case SyncWake(_) => false
    case AgainQ => true
    case AgainX(has) => has
    case AgainWake => false
  }

  ghost predicate NotForgotten(h: Hand) {
    h.rxq != [] && h.s.AcceptsTcp() ==> h.pending || h.rx.Inserted? || WillLook(h.re)
  }

  /** The reader is not left paused while the stream can take bytes. */
  ghost predicate Resumed(h: Hand) { h.re.Sync? || (h.s.AcceptsTcp() ==> h.accept) }

  ghost predicate Inv(h: Hand) { Conserved(h) && Bounded(h) && Flagged(h) && NotForgotten(h) && Resumed(h) }

  lemma StartInv(server: bool, s: Arq.Stream, stale: nat)
    requires |s.tcpIn| <= Arq.TCP_IN_MAX
    ensures Inv(Start(server, s, stale))
  {
  }

  // ---- The stream's side -----------------------------------------------

  lemma QueueShrinks(s: Arq.Stream, now: int)
    ensures |Arq.QueueData(s, now).tcpIn| <= |s.tcpIn|
  {
  }

  lemma {:induction false} DrainInput(s: Arq.Stream)
    ensures Arq.Drain(s).tcpIn == s.tcpIn
    decreases |s.reorder|
  {
    if s.rxSeq in s.reorder { DrainInput(Arq.DrainOne(s)); }
  }

  lemma FrameInput(s: Arq.Stream, f: Arq.Frame, now: int)
    ensures |Arq.OnFrame(s, f, now).tcpIn| <= |s.tcpIn|
  {
    var t := Arq.Acknowledge(s, f, now);
    AckInput(s, f, now);
    hide Arq.Acknowledge;
    DrainInput(t.(tcpOut := t.tcpOut + f.payload, rxSeq := (t.rxSeq + 1) % 65536));
    hide Arq.Drain;
  }

  lemma AckInput(s: Arq.Stream, f: Arq.Frame, now: int)
    ensures Arq.Acknowledge(s, f, now).tcpIn == s.tcpIn
  {
    SackInput(Arq.ApplyAck(s, f.ack, now), f.payload);
    hide Arq.ApplySack;
  }

  lemma SackInput(s: Arq.Stream, blocks: seq<byte>)
    ensures Arq.ApplySack(s, blocks).tcpIn == s.tcpIn
  {
  }

  lemma RadioShrinks(s: Arq.Stream, data: seq<byte>, now: int)
    ensures |Arq.OnRadioRx(s, data, now).tcpIn| <= |s.tcpIn|
  {
    hide Arq.OnFrame;
    hide Arq.QueueData;
    hide Arq.Decode;
    var f := Arq.Decode(data);
    if f.Some? { FrameInput(s, f.value, now); }
    QueueShrinks(if f.None? then s else Arq.OnFrame(s, f.value, now), now);
  }

  lemma TickShrinks(s: Arq.Stream, now: int)
    ensures |Arq.OnTick(s, now).tcpIn| <= |s.tcpIn|
  {
    var t := s.(unacked := Arq.ExpireAll(s.unacked, now));
    QueueShrinks(Arq.RetryConnect(t, now), now);
    hide Arq.QueueData;
    hide Arq.ExpireAll;
  }

  lemma BytesBound(s: Arq.Stream, data: seq<byte>, now: int)
    ensures |Arq.OnTcpBytes(s, data, now).tcpIn| <= |s.tcpIn| + |data|
  {
    QueueShrinks(s.(tcpIn := s.tcpIn + data), now);
    hide Arq.QueueData;
  }

  lemma PullInput(s: Arq.Stream, max: nat, now: int)
    ensures var t := Arq.PullTx(s, max, now).st;
            t.tcpIn == s.tcpIn && t.Established() == s.Established() && t.Room() == s.Room()
  {
    hide Arq.FirstReady;
    hide Arq.SackBlocks;
    hide Arq.Encode;
  }

  // ---- Steps -----------------------------------------------------------

  /** The queue gives its front to the reactor. */
  lemma PeelConserves(h: Hand)
    requires Enabled(h, WakePeel) && Conserved(h)
    ensures Conserved(Apply(h, WakePeel))
  {
    var a, c, d := h.given, h.rxq, InHand(h.rx);
    var n := Min(h.s.Room(), |c|);
    assert c == c[..n] + c[n..];
    assert a + [] + (c[..n] + c[n..]) + d == a + c[..n] + c[n..] + d;
  }

  /** The other steps that move bytes between two places. */
  lemma MoveConserves(h: Hand, st: Step)
    requires Enabled(h, st) && Conserved(h) && (st.RxRecv? || st.RxInsert? || st.Deliver?)
    ensures Conserved(Apply(h, st))
  {
    hide Arq.OnTcpBytes;
    var a, b, c, d := h.given, Chunk(h.re), h.rxq, InHand(h.rx);
    if st.RxRecv? {
      assert (a + b + c + []) + st.data == a + b + c + st.data;
    } else if st.RxInsert? {
      assert a + b + c + d == a + b + (c + d) + [];
    } else {
      assert a + b + c + d == (a + b) + [] + c + d;
    }
  }

  lemma StepConserves(h: Hand, st: Step)
    requires Enabled(h, st) && Conserved(h)
    ensures Conserved(Apply(h, st))
  {
    hide Arq.OnRadioRx;
    hide Arq.OnTick;
    hide Arq.PullTx;
    hide Arq.OnTcpBytes;
    if st.WakePeel? {
      PeelConserves(h);
    } else if st.RxRecv? || st.RxInsert? || st.Deliver? {
      MoveConserves(h, st);
    } else {
      var r := Apply(h, st);
      assert r.given == h.given && Chunk(r.re) == Chunk(h.re) && r.rxq == h.rxq && InHand(r.rx) == InHand(h.rx);
    }
  }

  lemma StepBounds(h: Hand, st: Step)
    requires Enabled(h, st) && Bounded(h)
    ensures Bounded(Apply(h, st))
  {
    hide Arq.OnRadioRx;
    hide Arq.OnTick;
    hide Arq.PullTx;
    hide Arq.OnTcpBytes;
    if st.Radio? { RadioShrinks(h.s, st.data, st.now); }
    if st.Tick? || st.KickTick? { TickShrinks(h.s, st.now); }
    if st.PullAir? { PullInput(h.s, st.max, st.now); }
    if st.Deliver? { BytesBound(h.s, h.re.chunk, st.now); }
  }

  lemma StepFlags(h: Hand, st: Step)
    requires Enabled(h, st) && Flagged(h)
    ensures Flagged(Apply(h, st))
  {
    hide Arq.OnRadioRx;
    hide Arq.OnTick;
    hide Arq.PullTx;
    hide Arq.OnTcpBytes;
  }

  lemma StepRemembers(h: Hand, st: Step)
    requires Enabled(h, st) && Bounded(h) && NotForgotten(h)
    ensures NotForgotten(Apply(h, st))
  {
    if st.PullAir? { PullInput(h.s, st.max, st.now); }
    hide Arq.OnRadioRx;
    hide Arq.OnTick;
    hide Arq.PullTx;
    hide Arq.OnTcpBytes;
  }

  lemma StepResumes(h: Hand, st: Step)
    requires Enabled(h, st) && Bounded(h) && Resumed(h)
    ensures Resumed(Apply(h, st))
  {
    if st.PullAir? { PullInput(h.s, st.max, st.now); }
    hide Arq.OnRadioRx;
    hide Arq.OnTick;
    hide Arq.PullTx;
    hide Arq.OnTcpBytes;
  }

  lemma StepKeeps(h: Hand, st: Step)
    requires Inv(h) && Enabled(h, st)
    ensures Inv(Apply(h, st))
  {
    StepConserves(h, st);
    StepBounds(h, st);
    StepFlags(h, st);
    StepRemembers(h, st);
    StepResumes(h, st);
    hide Apply;
  }

  // ---- Runs ------------------------------------------------------------

  predicate Runs(h: Hand, sts: seq<Step>)
    decreases |sts|
  {
    sts == [] || (Enabled(h, sts[0]) && Runs(Apply(h, sts[0]), sts[1..]))
  }

  function Exec(h: Hand, sts: seq<Step>): Hand
    requires Runs(h, sts)
    decreases |sts|
  {
    if sts == [] then h else Exec(Apply(h, sts[0]), sts[1..])
  }

  /** From the start of a client, under every interleaving of reader and reactor. */
  lemma {:induction false} RunKeeps(h: Hand, sts: seq<Step>)
    requires Inv(h) && Runs(h, sts)
    ensures Inv(Exec(h, sts))
    decreases |sts|
  {
    if sts != [] {
      StepKeeps(h, sts[0]);
      RunKeeps(Apply(h, sts[0]), sts[1..]);
    }
  }

  /** In every reachable state: bytes arrive at the stream complete and in order, both buffers
      keep their caps, and when the reactor is at rest with bytes waiting that the stream could
      take, a wake closure is queued or the reader is about to queue one. That stays so when a
      server's peer ends the connection: its stream starts over, its client and queue go on. */
  lemma HandoffSafe(server: bool, s: Arq.Stream, stale: nat, sts: seq<Step>)
    requires |s.tcpIn| <= Arq.TCP_IN_MAX && Runs(Start(server, s, stale), sts)
    ensures var h := Exec(Start(server, s, stale), sts);
            && h.received == h.given + Chunk(h.re) + h.rxq + InHand(h.rx)
            && |h.s.tcpIn| <= Arq.TCP_IN_MAX && |h.rxq| < Arq.TCP_IN_MAX + RECV_MAX
            && (h.re.Idle? && h.rxq != [] && h.s.AcceptsTcp() ==> h.queued > 0 || h.rx.Inserted? || h.rx.Waking?)
            && (h.re.Idle? && h.s.AcceptsTcp() ==> h.accept)
            && h.queued <= h.stale + 1
  {
    StartInv(server, s, stale);
    RunKeeps(Start(server, s, stale), sts);
    hide Exec;
  }

  /** A wake that finds bytes and room hands over at least one byte, whatever the reader does. */
  lemma WakeDelivers(h: Hand, now: int)
    requires Inv(h) && h.re.WakeCheck? && h.rxq != [] && h.s.AcceptsTcp()
    ensures var a := Apply(h, WakePeel);
            && Enabled(a, Deliver(now))
            && Apply(a, Deliver(now)).given == h.given + h.rxq[..Min(h.s.Room(), |h.rxq|)]
            && Min(h.s.Room(), |h.rxq|) >= 1
  {
    hide Arq.OnTcpBytes;
  }

  predicate ByReader(st: Step) {
    st.RxCheck? || st.RxGo? || st.RxRecv? || st.RxInsert? || st.RxFlag? || st.RxWakeUp?
  }

  lemma {:induction false} ReaderWaits(h: Hand, sts: seq<Step>)
    requires Runs(h, sts) && forall i :: 0 <= i < |sts| ==> !ByReader(sts[i])
    ensures Exec(h, sts).rx == h.rx && Exec(h, sts).received == h.received
    decreases |sts|
  {
    if sts != [] {
      OthersStep(h, sts[0]);
      ReaderWaits(Apply(h, sts[0]), sts[1..]);
      hide Apply;
    }
  }

  lemma OthersStep(h: Hand, st: Step)
    requires Enabled(h, st) && !ByReader(st)
    ensures Apply(h, st).rx == h.rx && Apply(h, st).received == h.received
  {
    hide Arq.OnRadioRx;
    hide Arq.OnTick;
    hide Arq.PullTx;
    hide Arq.OnTcpBytes;
  }

  /** A reader that looked at the queue goes on to recv if and only if there was room then and the
      reactor lets it now, whatever the reactor did in between; else it looks again. Nothing is
      taken from the socket meanwhile. */
  lemma ReaderResumes(h: Hand, between: seq<Step>)
    requires h.rx.Top? && Runs(Apply(h, RxCheck), between)
    requires forall i :: 0 <= i < |between| ==> !ByReader(between[i])
    ensures var g := Exec(Apply(h, RxCheck), between);
            && Enabled(g, RxGo) && Apply(g, RxGo).received == h.received
            && Apply(g, RxGo).rx == (if g.accept && |h.rxq| < Arq.TCP_IN_MAX then Recv else Top)
  {
    ReaderWaits(Apply(h, RxCheck), between);
    hide Runs;
    hide Exec;
  }

  // ---- From the stream to the socket -----------------------------------

  /** One answer of send(): so many bytes taken, no room now, or the connection is gone. */
  datatype SendResult = Wrote(n: nat) | WouldBlock | Failed

  datatype Flushed = Drained | Blocked | Closed

  lemma CutUnsent(written: seq<byte>, b: seq<byte>, off: nat, mid: nat, len: nat)
    requires off <= mid <= len <= |b|
    ensures (written + b[off..mid]) + b[mid..len] == written + b[off..len]
  {
    assert b[off..len] == b[off..mid] + b[mid..len];
  }

  /** The sending half of tcp_endpoint: what was pulled from the stream but not yet written stays
      in the buffer between `off` and `len`. */
  class Writer {
    const stream: T.TcpStream
    const buf: array<byte>
    var len: nat
    var off: nat
    ghost var written: seq<byte>

    ghost predicate Valid()
      reads this, stream
    {
      stream.Valid() && off <= len <= buf.Length == RECV_MAX
    }

    ghost function Unsent(): seq<byte>
      reads this, buf
      requires off <= len <= buf.Length
    {
      buf[off..len]
    }

    constructor (stream: T.TcpStream)
      requires stream.Valid()
      ensures Valid() && this.stream == stream && fresh(buf) && Unsent() == [] && written == []
    {
      this.stream := stream;
      buf := new byte[RECV_MAX];
      len, off, written := 0, 0, [];
    }

    /** Write the pending chunk until it is gone or the socket refuses. */
    method SendPending(send: nat -> SendResult, k: nat) returns (r: Flushed, k': nat)
      requires Valid() && forall i: nat :: send(i).Wrote? ==> send(i).n > 0
      modifies this`off, this`written
      ensures Valid() && written + Unsent() == old(written + Unsent()) && old(written) <= written
      ensures r == Drained ==> off == len
      ensures k' >= k && (r != Drained ==> k' > k)
      ensures (r == Blocked ==> send(k' - 1) == WouldBlock) && (r == Closed ==> send(k' - 1) == Failed)
    {
      k' := k;
      while off < len
        invariant Valid() && written + Unsent() == old(written + Unsent()) && old(written) <= written && k' >= k
        decreases len - off
      {
        var w := send(k');
        k' := k' + 1;
        if w.WouldBlock? { return Blocked, k'; }
        if w.Failed? { return Closed, k'; }
        var n := Min(w.n, len - off);
        CutUnsent(written, buf[..], off, off + n, len);
        written := written + buf[off..off + n];
        off := off + n;
      }
      r := Drained;
    }

    /** flush_tcp: everything pulled is written, in order, or still in the buffer. It stops only
        when the stream has nothing left or the socket refuses. */
    method Flush(send: nat -> SendResult) returns (r: Flushed, ghost last: nat)
      requires Valid() && forall i: nat :: send(i).Wrote? ==> send(i).n > 0
      modifies this`len, this`off, this`written, buf, stream`tcpOut
      ensures Valid() && old(written) <= written
      ensures written + Unsent() + stream.tcpOut == old(written + Unsent() + stream.tcpOut)
      ensures r == Drained ==> Unsent() == [] && stream.tcpOut == []
      ensures r == Blocked ==> send(last) == WouldBlock
      ensures r == Closed ==> send(last) == Failed
    {
      var k := 0;
      last := 0;
      while true
        invariant Valid() && old(written) <= written
        invariant written + Unsent() + stream.tcpOut == old(written + Unsent() + stream.tcpOut)
        decreases |stream.tcpOut|, len - off
      {
        if len > off {
          r, k := SendPending(send, k);
          if r != Drained {
            last := k - 1;
            return;
          }
          len, off := 0, 0;
        } else {
          var chunk := stream.PullTcp(buf.Length);
          if |chunk| == 0 { return Drained, last; }
          Fill(chunk);
        }
      }
    }

    /** The chunk pulled from the stream lands in the buffer. */
    method Fill(chunk: seq<byte>)
      requires buf.Length == RECV_MAX && |chunk| <= RECV_MAX
      modifies this`len, this`off, buf
      ensures off == 0 && len == |chunk| && buf[..len] == chunk
    {
      CopyIn(buf, 0, chunk);
      len, off := |chunk|, 0;
    }
  }
}
