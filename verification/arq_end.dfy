/** How a connection ends: what a side that goes down puts on the air, what that does to the peer,
    and that the peer then stays ended. */
module ArqEnd {
  import opened Bytes
  import opened ArqSpec

  predicate Ended(s: Stream) { s.peerClose && !s.peerConnect }

  function Kind(data: seq<byte>): Option<byte> {
    var f := Decode(data);
    if f.None? then None else Some(f.value.kind)
  }

  predicate Ends(data: seq<byte>) { Kind(data) == Some(TYPE_CLOSE) || Kind(data) == Some(TYPE_ABORT) }

  /** Nothing moved but flags, the owed acknowledgement and the front of the window. */
  ghost predicate SameBytes(s: Stream, t: Stream) {
    && t.tcpOut == s.tcpOut && t.tcpIn == s.tcpIn && t.reorder == s.reorder
    && t.rxSeq == s.rxSeq && t.txSeq == s.txSeq && t.local == s.local && t.ctrlq == s.ctrlq
    && |t.unacked| <= |s.unacked| && t.unacked == s.unacked[|s.unacked| - |t.unacked|..]
  }

  // ---- The peer's side ---------------------------------------------------

  /** CLOSE or ABORT ends an established stream on the spot, with no byte lost or cut; any other
      stream keeps its standing and owes an acknowledgement. */
  lemma EndsPeer(s: Stream, data: seq<byte>, now: int)
    requires Ends(data)
    ensures var t := OnRadioRx(s, data, now);
            && SameBytes(s, t)
            && (if s.Established() then Ended(t) && t.ackPending == s.ackPending
                else t.peerClose == s.peerClose && t.peerConnect == s.peerConnect && t.ackPending)
  {
    hide Decode;
    AckFront(s, Decode(data).value.ack, now);
    hide ApplyAck;
    hide SameBytes;
    var u := ApplyAck(s, Decode(data).value.ack, now);
    FlagsOnly(s, u, OnRadioRx(s, data, now));
  }

  lemma AckFront(s: Stream, ack: u16, now: int)
    ensures var t := ApplyAck(s, ack, now);
            && SameBytes(s, t) && t.peerClose == s.peerClose && t.peerConnect == s.peerConnect
            && t.ackPending == s.ackPending
  {
    hide SameBytes;
    var t := ApplyAck(s, ack, now);
    var delta := (ack - s.txAcked) % 65536;
    if delta == 0 || delta > |s.unacked| || delta > WINDOW {
      FrontGone(s, t, 0);
    } else {
      FrontGone(s, t, delta);
    }
  }

  lemma FrontGone(s: Stream, t: Stream, n: nat)
    requires n <= |s.unacked|
    requires t == s.(unacked := s.unacked[n..], txAcked := t.txAcked, lastProgress := t.lastProgress,
                     stallGiveUp := t.stallGiveUp)
    ensures SameBytes(s, t)
  {
  }

  lemma FlagsOnly(s: Stream, u: Stream, t: Stream)
    requires SameBytes(s, u)
    requires t == u.(peerClose := t.peerClose, peerConnect := t.peerConnect, ackPending := t.ackPending)
    ensures SameBytes(s, t)
  {
  }

  /** A second copy changes nothing but the owed acknowledgement. */
  lemma EndRepeats(s: Stream, data: seq<byte>, now: int, later: int)
    requires Ends(data)
    ensures var t := OnRadioRx(s, data, now); OnRadioRx(t, data, later) == t.(ackPending := true)
  {
    AckTwice(s, Decode(data).value.ack, now, later);
    hide Decode;
    hide ApplyAck;
  }

  /** Applying the same acknowledgement again, flags aside, moves nothing. */
  lemma AckTwice(s: Stream, ack: u16, now: int, later: int)
    ensures var t := ApplyAck(s, ack, now);
            forall c, p, q :: var u := t.(peerClose := c, peerConnect := p, ackPending := q);
                              ApplyAck(u, ack, later) == u
    ensures var t := ApplyAck(s, ack, now);
            t.local == s.local && t.peerClose == s.peerClose && t.peerConnect == s.peerConnect
  {
    CaughtUp(s.txAcked, ack);
  }

  lemma CaughtUp(acked: u16, ack: u16)
    ensures (acked + (ack - acked) % 65536) % 65536 == ack
  {
  }

  /** What can still happen to an ended stream. */
  datatype Event =
    | Radio(data: seq<byte>, now: int)
    | Clock(now: int)
    | Air(max: nat, now: int)
    | App(data: seq<byte>, now: int)

  function Step(s: Stream, e: Event): Stream {
    match e
    case Radio(data, now) => OnRadioRx(s, data, now)
    case Clock(now) => OnTick(s, now)
    case Air(max, now) => PullTx(s, max, now).st
    case App(data, now) => OnTcpBytes(s, data, now)
  }

  function Exec(s: Stream, es: seq<Event>): Stream
    decreases |es|
  {
    if es == [] then s else Exec(Step(s, es[0]), es[1..])
  }

  predicate Reopens(e: Event) { e.Radio? && Kind(e.data) == Some(TYPE_CONNECT) }

  /** The stream is as ended as before, has given the application nothing more and numbered no
      new segment; control frames were only taken away. */
  ghost predicate StillEnded(s: Stream, t: Stream) {
    && Ended(t) && t.local == s.local && t.tcpOut == s.tcpOut && t.tcpIn == s.tcpIn
    && t.rxSeq == s.rxSeq && t.txSeq == s.txSeq && t.reorder == s.reorder
    && |t.unacked| <= |s.unacked| && |t.ctrlq| <= |s.ctrlq| && t.ctrlq == s.ctrlq[|s.ctrlq| - |t.ctrlq|..]
  }

  lemma AckEnded(s: Stream, f: Frame, now: int)
    requires Ended(s)
    ensures StillEnded(s, Acknowledge(s, f, now))
  {
    hide ApplyAck;
    hide MarkSacked;
    AckFront(s, f.ack, now);
    MarkSize(ApplyAck(s, f.ack, now).unacked, f.payload);
  }

  lemma MarkSize(unacked: seq<Pending>, blocks: seq<byte>)
    ensures |MarkSacked(unacked, blocks)| == |unacked|
  {
    hide Covers;
  }

  lemma FrameEnded(s: Stream, f: Frame, now: int)
    requires Ended(s) && f.kind != TYPE_CONNECT
    ensures StillEnded(s, OnFrame(s, f, now))
  {
    hide Acknowledge;
    hide Drain;
    AckEnded(s, f, now);
  }

  lemma RadioEnded(s: Stream, data: seq<byte>, now: int)
    requires Ended(s) && Kind(data) != Some(TYPE_CONNECT)
    ensures StillEnded(s, OnRadioRx(s, data, now))
  {
    var f := Decode(data);
    if f.Some? { FrameEnded(s, f.value, now); }
    hide Decode;
    hide OnFrame;
  }

  lemma ClockEnded(s: Stream, now: int)
    requires Ended(s)
    ensures StillEnded(s, OnTick(s, now))
  {
    hide Expire;
    hide HasConnect;
    hide Cut;
    hide Concat;
  }

  lemma AirEnded(s: Stream, max: nat, now: int)
    requires Ended(s)
    ensures StillEnded(s, PullTx(s, max, now).st)
  {
    hide FirstReady;
    hide SackBlocks;
    hide Encode;
    hide StillEnded;
    OnlyPulled(s, PullTx(s, max, now).st);
  }

  lemma OnlyPulled(s: Stream, t: Stream)
    requires Ended(s) && t == s.(ctrlq := t.ctrlq, ackPending := t.ackPending, unacked := t.unacked)
    requires |t.unacked| == |s.unacked| && (t.ctrlq == s.ctrlq || (s.ctrlq != [] && t.ctrlq == s.ctrlq[1..]))
    ensures StillEnded(s, t)
  {
    assert s.ctrlq[0..] == s.ctrlq;
  }

  lemma StepEnded(s: Stream, e: Event)
    requires Ended(s) && !Reopens(e)
    ensures StillEnded(s, Step(s, e))
  {
    hide OnRadioRx;
    hide OnTick;
    hide PullTx;
    match e {
      case Radio(data, now) => RadioEnded(s, data, now);
      case Clock(now) => ClockEnded(s, now);
      case Air(max, now) => AirEnded(s, max, now);
      case App(data, now) =>
    }
  }

  lemma StillEndedOn(s: Stream, t: Stream, u: Stream)
    requires StillEnded(s, t) && StillEnded(t, u)
    ensures StillEnded(s, u)
  {
  }

  /** Until a new CONNECT, no run of frames, ticks, pulls and writes revives an ended stream. */
  lemma {:induction false} EndedStays(s: Stream, es: seq<Event>)
    requires Ended(s) && forall i :: 0 <= i < |es| ==> !Reopens(es[i])
    ensures StillEnded(s, Exec(s, es))
    decreases |es|
  {
    if es != [] {
      StepEnded(s, es[0]);
      EndedStays(Step(s, es[0]), es[1..]);
      StillEndedOn(s, Step(s, es[0]), Exec(s, es));
      hide Step;
      hide StillEnded;
    }
  }

  // ---- The side that goes down -------------------------------------------

  function Down(s: Stream, abort: bool): Stream { if abort then LocalAbort(s) else LocalDown(s) }

  /** The control frames that say so. */
  function Goodbye(abort: bool, seqNo: u16): seq<Ctrl> {
    if abort then [Ctrl(TYPE_ABORT, seqNo)]
    else [Ctrl(TYPE_CLOSE, seqNo), Ctrl(TYPE_CLOSE, seqNo), Ctrl(TYPE_CLOSE, seqNo)]
  }

  function Copies(abort: bool): nat { if abort then 1 else 3 }

  /** The state after one pull for every limit and time asked. */
  function AfterPulls(s: Stream, asks: seq<(nat, int)>): Stream
    decreases |asks|
  {
    if asks == [] then s else AfterPulls(PullTx(s, asks[0].0, asks[0].1).st, asks[1..])
  }

  predicate Roomy(asks: seq<(nat, int)>) { forall i :: 0 <= i < |asks| ==> asks[i].0 >= HEADER }

  lemma {:induction false} CtrlPulls(s: Stream, asks: seq<(nat, int)>)
    requires Roomy(asks) && |asks| <= |s.ctrlq|
    ensures AfterPulls(s, asks) == s.(ctrlq := s.ctrlq[|asks|..])
    decreases |asks|
  {
    if asks != [] {
      var t := PullTx(s, asks[0].0, asks[0].1).st;
      CtrlPulls(t, asks[1..]);
      assert s.ctrlq[1..][|asks| - 1..] == s.ctrlq[|asks|..];
    }
  }

  /** A CLOSE or ABORT that waits as a control frame comes out in its turn, whatever the limits and
      times of the pulls, and ends an established peer when it arrives. */
  lemma {:induction false} CtrlEnds(d: Stream, asks: seq<(nat, int)>, max: nat, now: int, b: Stream, later: int)
    requires Roomy(asks) && max >= HEADER && |asks| < |d.ctrlq|
    requires d.ctrlq[|asks|].kind == TYPE_CLOSE || d.ctrlq[|asks|].kind == TYPE_ABORT
    ensures var frame := PullTx(AfterPulls(d, asks), max, now).frame;
            && Kind(frame) == Some(d.ctrlq[|asks|].kind)
            && (b.Established() ==> Ended(OnRadioRx(b, frame, later)) && SameBytes(b, OnRadioRx(b, frame, later)))
  {
    CtrlPulls(d, asks);
    var c := d.ctrlq[|asks|];
    DecodeEncode(c.kind, c.seqNo, d.rxSeq, []);
    hide Encode;
    hide Decode;
    hide AfterPulls;
    EndsPeer(b, PullTx(AfterPulls(d, asks), max, now).frame, later);
    hide OnRadioRx;
  }

  /** Behind the control frames that already wait, going down announces itself three times, an
      abort once; any one copy that arrives ends an established peer. */
  lemma {:induction false} DownEnds(a: Stream, abort: bool, asks: seq<(nat, int)>, max: nat, now: int, b: Stream,
                                      later: int)
    requires a.local && Roomy(asks) && max >= HEADER
    requires |a.ctrlq| <= |asks| < |a.ctrlq| + Copies(abort)
    ensures var frame := PullTx(AfterPulls(Down(a, abort), asks), max, now).frame;
            && Kind(frame) == Some(if abort then TYPE_ABORT else TYPE_CLOSE)
            && (b.Established() ==> Ended(OnRadioRx(b, frame, later)) && SameBytes(b, OnRadioRx(b, frame, later)))
  {
    CtrlEnds(Down(a, abort), asks, max, now, b, later);
    hide AfterPulls;
    hide PullTx;
    hide OnRadioRx;
    hide SameBytes;
    hide Kind;
  }

  /** After the last copy the side that went down sends no frame but an owed acknowledgement, and
      nothing of its unsent or unacknowledged data is left. */
  lemma {:induction false} DownQuiet(a: Stream, abort: bool, asks: seq<(nat, int)>, max: nat, now: int)
    requires a.local && Roomy(asks) && |asks| == |a.ctrlq| + Copies(abort)
    ensures var t := AfterPulls(Down(a, abort), asks);
            && !t.local && !t.peerConnect && t.tcpIn == [] && t.unacked == []
            && var frame := PullTx(t, max, now).frame;
               frame == [] || Kind(frame) == Some(TYPE_ACK)
  {
    var d := Down(a, abort);
    CtrlPulls(d, asks);
    var blocks := SackBlocks(d.reorder.Keys, 0, 0, if max < HEADER then 0 else max - HEADER);
    DecodeEncode(TYPE_ACK, d.txSeq, d.rxSeq, blocks);
    hide Encode;
    hide Decode;
    hide SackBlocks;
    hide AfterPulls;
  }
}
