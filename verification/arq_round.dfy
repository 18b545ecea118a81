/** One loss-free round after the retransmit time clears the sender's window. */
module ArqRound {
  import opened Bytes
  import opened ArqSpec
  import opened ArqLink
  import opened ArqSteps
  import opened ArqSafety

  /** Largest frame the stream builds. */
  const FRAME_MAX: nat := HEADER + MAX_SEGMENT

  function CountReady(unacked: seq<Pending>, max: nat): nat {
    if unacked == [] then 0 else (if Ready(unacked[0], max) then 1 else 0) + CountReady(unacked[1..], max)
  }

  /** How many frames the stream can still be asked for. */
  function Work(s: Stream, max: nat): nat {
    |s.ctrlq| + (if s.ackPending then 1 else 0) + CountReady(s.unacked, max)
  }

  lemma {:induction false} CountUpdate(unacked: seq<Pending>, i: nat, p: Pending, max: nat)
    requires i < |unacked| && Ready(unacked[i], max) && !Ready(p, max)
    ensures CountReady(unacked[i := p], max) < CountReady(unacked, max)
  {
    if i == 0 {
      assert unacked[i := p][1..] == unacked[1..];
    } else {
      assert unacked[i := p][1..] == unacked[1..][i - 1 := p];
      CountUpdate(unacked[1..], i - 1, p, max);
    }
  }

  /** Each pull that yields a frame brings the stream closer to having none. */
  lemma PullWork(s: Stream, max: nat, now: int)
    requires PullTx(s, max, now).frame != []
    ensures Work(PullTx(s, max, now).st, max) < Work(s, max)
  {
    if s.ctrlq == [] && !s.ackPending {
      var i := FirstReady(s.unacked, max);
      CountUpdate(s.unacked, i, s.unacked[i].(inFlight := true, sent := now), max);
    }
  }

  // ---- One loss-free round ---------------------------------------------

  function PulledPacket(n: Node, max: nat, now: int): Packet {
    Packet(PullTx(n.st, max, now).frame, PulledSeq(n, max), n.rcvd)
  }

  /** `a` sends one frame and `b` receives it. */
  function Feed(s: Sys, max: nat, now: int): Sys {
    Step(Step(s, OnA(Pull(max, now))), OnB(Recv(PulledPacket(s.a, max, now), now)))
  }

  /** `a` sends all it has, and every frame arrives at once. */
  function Flush(s: Sys, max: nat, now: int): Sys
    decreases Work(s.a.st, max)
  {
    if PullTx(s.a.st, max, now).frame == [] then s
    else
      (PullWork(s.a.st, max, now);
       Flush(Feed(s, max, now), max, now))
  }

  /** One frame back from `b`, if it has any. */
  function Reply(s: Sys, max: nat, now: int): Sys {
    if PullTx(s.b.st, max, now).frame == [] then s else Mirror(Feed(Mirror(s), max, now))
  }

  /** All frames of `a` after a tick are delivered. */
  function Sending(s: Sys, max: nat, now: int): Sys {
    Flush(Step(s, OnA(Tick(now))), max, now)
  }

  ghost predicate Open(n: Node) { n.st.peerConnect && !n.st.peerClose }

  /** Every segment that was sent, or named in a block list, is held by the peer, and the
      peer owes an acknowledgement if the oldest one was sent. */
  ghost predicate SentHeld(x: Node, y: Node)
    requires 0 <= x.Acked()
  {
    && (forall i: nat :: i < |x.st.unacked| && (x.st.unacked[i].sacked || x.st.unacked[i].inFlight)
          ==> Held(y, x.Acked() + i))
    && (x.st.unacked != [] && x.st.unacked[0].inFlight ==> y.st.ackPending)
  }

  lemma FeedTimely(s: Sys, max: nat, now: int)
    requires Inv(s) && PullTx(s.a.st, max, now).frame != []
    ensures EventEnabled(Step(s, OnA(Pull(max, now))), OnB(Recv(PulledPacket(s.a, max, now), now)))
  {
    PullPacket(s.a, s.b, max, now);
    assert s.b.Acked() <= s.a.rcvd;
    assert s.b.rcvd <= |s.a.segs| <= s.a.Acked() + WINDOW;
    hide Half;
    hide NetOk;
  }

  /** An arriving frame never closes the receiver, and data leaves it owing an ACK. */
  lemma RadioFlags(s: Stream, data: seq<byte>, now: int)
    requires Decode(data).Some? && Decode(data).value.kind in {TYPE_DATA, TYPE_ACK, TYPE_CONNECT}
    ensures var t := OnRadioRx(s, data, now);
            && (s.ackPending ==> t.ackPending)
            && (s.peerConnect && !s.peerClose ==>
                  t.peerConnect && !t.peerClose && (Decode(data).value.kind == TYPE_DATA ==> t.ackPending))
  {
    var f := Decode(data).value;
    var t := Acknowledge(s, f, now);
    AcknowledgeSame(s, f, now);
    assert t.ackPending == s.ackPending;
    DeliverSame(t, f.seqNo, f.payload);
    DeliverOwes(t, f.seqNo, f.payload);
    hide Acknowledge;
    hide Deliver;
    hide Decode;
  }

  lemma DeliverOwes(s: Stream, seqNo: u16, payload: seq<byte>)
    ensures s.ackPending ==> Deliver(s, seqNo, payload).ackPending
    ensures s.peerConnect && !s.peerClose ==> Deliver(s, seqNo, payload).ackPending
  {
  }

  /** Which segment a pull takes, and what it leaves. */
  lemma PulledData(n: Node, o: Node, max: nat, now: int)
    requires Half(n, o) && CtrlOk(n) && PullTx(n.st, max, now).frame != []
    ensures var r := PullTx(n.st, max, now);
            var d := Decode(r.frame);
            && |r.st.unacked| == |n.st.unacked|
            && d.Some?
            && forall i: nat :: i < |n.st.unacked| && r.st.unacked[i] != n.st.unacked[i] ==>
                 d.value.kind == TYPE_DATA && PulledSeq(n, max) == n.Acked() + i
  {
    if n.st.ctrlq != [] {
      DecodeEncode(n.st.ctrlq[0].kind, n.st.ctrlq[0].seqNo, n.st.rxSeq, []);
    } else if n.st.ackPending {
      DecodeEncode(TYPE_ACK, n.st.txSeq, n.st.rxSeq, SackBlocks(n.st.reorder.Keys, 0, 0, max - HEADER));
    } else {
      var p := n.st.unacked[FirstReady(n.st.unacked, max)];
      assert p.payload == n.segs[n.Acked() + FirstReady(n.st.unacked, max)];
      DecodeEncode(TYPE_DATA, p.seqNo, n.st.rxSeq, p.payload);
    }
  }

  /** What an open receiver makes of one frame. */
  lemma Receive(n: Node, o: Node, p: Packet, now: int)
    requires Kept(n, n, o) && PacketOk(o, p) && Timely(n, p)
    ensures var m := NRadio(n, p.bytes, now);
            && (Open(n) ==> Open(m))
            && (forall u: nat :: Held(n, u) ==> Held(m, u))
            && (n.st.ackPending ==> m.st.ackPending)
            && (Open(n) && Decode(p.bytes).value.kind == TYPE_DATA ==> m.st.ackPending && Held(m, p.seqNo))
            && (n.Acked() <= p.ackNo ==> m.Acked() == p.ackNo)
  {
    RecvStep(n, o, p, now);
    RadioFlags(n.st, p.bytes, now);
    hide Half;
    hide Held;
    hide Aside;
    hide CtrlOk;
    hide NRadio;
    hide SackOk;
  }

  lemma FeedInv(s: Sys, max: nat, now: int)
    requires Inv(s) && PullTx(s.a.st, max, now).frame != []
    ensures var m := Step(s, OnA(Pull(max, now)));
            var p := PulledPacket(s.a, max, now);
            && PacketOk(m.a, p) && Kept(s.b, s.b, m.a) && Timely(s.b, p)
            && Inv(Feed(s, max, now))
  {
    var p := PulledPacket(s.a, max, now);
    var m := Step(s, OnA(Pull(max, now)));
    FeedTimely(s, max, now);
    StepInv(s, OnA(Pull(max, now)));
    StepInv(m, OnB(Recv(p, now)));
    hide Half;
    hide Held;
    hide Aside;
    hide CtrlOk;
    hide PacketOk;
    hide PullTx;
  }

  lemma FeedShape(s: Sys, max: nat, now: int)
    ensures var t := Feed(s, max, now);
            && t.a == s.a.(st := PullTx(s.a.st, max, now).st)
            && t.b == NRadio(s.b, PullTx(s.a.st, max, now).frame, now)
            && PulledPacket(s.a, max, now) == Packet(PullTx(s.a.st, max, now).frame, PulledSeq(s.a, max), s.a.rcvd)
  {
    hide NRadio;
    hide PullTx;
    hide PulledSeq;
  }

  /** Feeding one frame leaves the sender as the pull left it and the receiver holding more. */
  lemma FeedStep(s: Sys, max: nat, now: int)
    requires Inv(s) && PullTx(s.a.st, max, now).frame != []
    ensures var t := Feed(s, max, now);
            && Inv(t) && (Open(s.b) ==> Open(t.b))
            && t.a == s.a.(st := PullTx(s.a.st, max, now).st)
            && (forall u: nat :: Held(s.b, u) ==> Held(t.b, u))
            && (s.b.st.ackPending ==> t.b.st.ackPending)
            && (Open(s.b) && Decode(PullTx(s.a.st, max, now).frame).value.kind == TYPE_DATA ==>
                  t.b.st.ackPending && Held(t.b, PulledSeq(s.a, max)))
            && (s.b.Acked() <= s.a.rcvd ==> t.b.Acked() == s.a.rcvd)
  {
    FeedInv(s, max, now);
    FeedShape(s, max, now);
    Receive(s.b, Step(s, OnA(Pull(max, now))).a, PulledPacket(s.a, max, now), now);
    hide *;
  }

  /** If a pull changed at most segment `k`, and that one has arrived, all that was sent is held. */
  lemma StillHeld(x: Node, r: Stream, y: Node, z: Node, data: bool, k: nat)
    requires 0 <= x.Acked() && SentHeld(x, y) && |r.unacked| == |x.st.unacked|
    requires forall i: nat :: i < |x.st.unacked| && r.unacked[i] != x.st.unacked[i] ==> data && k == x.Acked() + i
    requires forall u: nat :: Held(y, u) ==> Held(z, u)
    requires y.st.ackPending ==> z.st.ackPending
    requires data ==> z.st.ackPending && Held(z, k)
    ensures SentHeld(x.(st := r), z)
  {
    hide Held;
  }

  lemma AckedNat(s: Sys)
    requires Inv(s)
    ensures 0 <= s.a.Acked() && Half(s.a, s.b) && CtrlOk(s.a)
  {
    hide Receiver;
    hide NetOk;
  }

  /** A pull leaves all but the control queue, the owed acknowledgement and the in-flight marks. */
  ghost predicate SameBytes(n: Node, m: Node) {
    && m.segs == n.segs && m.app == n.app && m.rcvd == n.rcvd && |m.st.unacked| == |n.st.unacked|
    && m.st.tcpIn == n.st.tcpIn && m.Output() == n.Output() && m.st.Established() == n.st.Established()
  }

  lemma PullBytes(n: Node, max: nat, now: int)
    ensures SameBytes(n, n.(st := PullTx(n.st, max, now).st))
  {
    hide Encode;
    hide SackBlocks;
    hide FirstReady;
  }

  lemma FeedHeld(s: Sys, max: nat, now: int)
    requires Inv(s) && PullTx(s.a.st, max, now).frame != [] && Open(s.b) && 0 <= s.a.Acked() && SentHeld(s.a, s.b)
    ensures var t := Feed(s, max, now);
            SameBytes(s.a, t.a) && Inv(t) && Open(t.b) && 0 <= t.a.Acked() && SentHeld(t.a, t.b)
  {
    var r := PullTx(s.a.st, max, now);
    FeedStep(s, max, now);
    AckedNat(s);
    PulledData(s.a, s.b, max, now);
    PullBytes(s.a, max, now);
    var t := Feed(s, max, now);
    hide Inv;
    hide Half;
    hide Held;
    hide CtrlOk;
    hide Feed;
    hide PullTx;
    hide SentHeld;
    hide Decode;
    hide PulledSeq;
    StillHeld(s.a, r.st, s.b, t.b, Decode(r.frame).value.kind == TYPE_DATA, PulledSeq(s.a, max));
  }

  lemma {:induction false} FlushHeld(s: Sys, max: nat, now: int)
    requires Inv(s) && Open(s.b) && 0 <= s.a.Acked() && SentHeld(s.a, s.b)
    ensures var f := Flush(s, max, now);
            && SameBytes(s.a, f.a) && Inv(f) && Open(f.b) && 0 <= f.a.Acked() && SentHeld(f.a, f.b)
            && PullTx(f.a.st, max, now).frame == []
    decreases Work(s.a.st, max)
  {
    if PullTx(s.a.st, max, now).frame != [] {
      FeedHeld(s, max, now);
      FeedStep(s, max, now);
      PullWork(s.a.st, max, now);
      hide Inv;
      hide Held;
      hide Feed;
      hide PullTx;
      hide SentHeld;
      FlushHeld(Feed(s, max, now), max, now);
    }
  }

  /** The retransmit time has passed for every segment in flight. */
  ghost predicate Elapsed(s: Stream, now: int) {
    forall i :: 0 <= i < |s.unacked| && s.unacked[i].inFlight && !s.unacked[i].sacked
      ==> now - s.unacked[i].sent >= REXMIT
  }

  lemma TickReleases(s: Stream, now: int)
    requires Elapsed(s, now)
    ensures var t := OnTick(s, now);
            && |s.unacked| <= |t.unacked|
            && forall i :: 0 <= i < |t.unacked| ==>
                 && (t.unacked[i].inFlight ==> t.unacked[i].sacked)
                 && (t.unacked[i].sacked ==> i < |s.unacked| && s.unacked[i].sacked)
  {
    hide Cut;
    hide Concat;
  }

  lemma TickHeld(s: Sys, now: int)
    requires Inv(s) && Open(s.b) && Elapsed(s.a.st, now)
    ensures var t := Step(s, OnA(Tick(now)));
            && Inv(t) && Open(t.b) && SentHeld(t.a, t.b) && s.a.segs <= t.a.segs
            && t.a.Acked() == s.a.Acked()
  {
    hide Held;
    hide NTick;
    hide OnTick;
    StepInv(s, OnA(Tick(now)));
    ActKept(s, Tick(now));
    TickReleases(s.a.st, now);
    var t := Step(s, OnA(Tick(now)));
    assert t.a == NTick(s.a, now) && t.b == s.b;
    TickAcked(s.a, now);
    OldestFree(t);
  }

  lemma OldestFree(s: Sys)
    requires Inv(s)
    ensures s.a.st.unacked != [] ==> !s.a.st.unacked[0].sacked
  {
    if s.a.st.unacked != [] {
      OldestNotSacked(s.a, s.b);
    }
  }

  lemma TickAcked(n: Node, now: int)
    ensures NTick(n, now).Acked() == n.Acked()
  {
    hide Cut;
    hide Concat;
  }

  /** Nothing left to send means everything is held, hence put out in order. */
  lemma FlushedAll(f: Sys, max: nat, now: int)
    requires Inv(f) && SentHeld(f.a, f.b) && PullTx(f.a.st, max, now).frame == [] && max >= FRAME_MAX
    ensures f.b.rcvd == |f.a.segs|
    ensures f.a.st.unacked != [] ==> f.b.st.ackPending
  {
    var q := f.a.st.unacked;
    assert FirstReady(q, max) == |q|;
    forall i | 0 <= i < |q| ensures q[i].sacked || q[i].inFlight {
      assert q[i].payload == f.a.segs[f.a.Acked() + i];
    }
    if f.b.rcvd < |f.a.segs| {
      var i := f.b.rcvd - f.a.Acked();
      assert q[i].sacked || q[i].inFlight;
      NextNotHeld(f.b, f.a.segs);
    }
    OldestFree(f);
  }

  /** A sender whose whole window was acknowledged, and which then cut `cut` from what waits. */
  ghost predicate Refilled(n: Node, m: Node, cut: seq<seq<byte>>) {
    && m.app == n.app && (n.st.Established() ==> m.st.Established())
    && Concat(cut) <= n.st.tcpIn
    && m.segs == n.segs + cut && m.st.tcpIn == n.st.tcpIn[|Concat(cut)|..]
    && m.st.unacked == NewPending(|n.segs| % WRAP, cut)
  }

  lemma QueueRefills(n: Node, now: int)
    requires n.st.unacked == [] && n.st.txSeq == |n.segs| % WRAP
    ensures var m := NQueue(n, now);
            Refilled(n, m, if n.st.Established() then Cut(n.st.tcpIn, WINDOW) else [])
  {
  }

  lemma FrameBytes(n: Node, f: Frame, now: int)
    requires f.kind in {TYPE_DATA, TYPE_ACK, TYPE_CONNECT}
    ensures var m := NFrame(n, f, now);
            && m.segs == n.segs && m.app == n.app && m.st.tcpIn == n.st.tcpIn
            && (n.st.Established() ==> m.st.Established())
  {
    AcknowledgeSame(n.st, f, now);
    var m := n.(st := Acknowledge(n.st, f, now));
    DeliverSame(m.st, f.seqNo, f.payload);
    DeliverHistory(m, f.seqNo, f.payload);
    hide Acknowledge;
    hide Deliver;
    hide NDeliver;
  }

  lemma RadioRefills(n: Node, o: Node, p: Packet, now: int)
    requires Kept(n, n, o) && PacketOk(o, p) && Timely(n, p) && p.ackNo == |n.segs|
    ensures var m := NRadio(n, p.bytes, now);
            Refilled(n, m, if m.st.Established() then Cut(n.st.tcpIn, WINDOW) else [])
  {
    var f := Decode(p.bytes).value;
    var m := NFrame(n, f, now);
    FrameBytes(n, f, now);
    FrameStep(n, o, f, p.seqNo, p.ackNo, now);
    assert m.st.unacked == [] && m.st.txSeq == |m.segs| % WRAP by { KeptSender(n, m, o); }
    hide NFrame;
    hide Kept;
    hide PacketOk;
    QueueRefills(m, now);
  }

  lemma KeptSender(n: Node, m: Node, o: Node)
    requires Kept(n, m, o)
    ensures Sender(m)
  {
    hide Sender;
    hide Receiver;
  }

  lemma ReplyShape(f: Sys, max: nat, now: int)
    requires Inv(f) && PullTx(f.b.st, max, now).frame != [] && f.b.rcvd == |f.a.segs|
    ensures var r := Reply(f, max, now);
            && r.b == f.b.(st := PullTx(f.b.st, max, now).st)
            && Refilled(f.a, r.a, if r.a.st.Established() then Cut(f.a.st.tcpIn, WINDOW) else [])
  {
    var g := Mirror(f);
    var p := PulledPacket(g.a, max, now);
    FeedInv(g, max, now);
    FeedShape(g, max, now);
    var o := Step(g, OnA(Pull(max, now))).a;
    hide Kept;
    hide PacketOk;
    hide Timely;
    hide Feed;
    hide Inv;
    hide PullTx;
    hide PulledSeq;
    hide Refilled;
    hide NRadio;
    RadioRefills(f.a, o, p, now);
  }

  /** How the sender of a round stands after the reply. */
  lemma ReplyRefills(f: Sys, max: nat, now: int) returns (cut: seq<seq<byte>>)
    requires Inv(f) && max >= FRAME_MAX && f.b.rcvd == |f.a.segs|
    requires f.a.st.unacked != [] ==> f.b.st.ackPending
    ensures var r := Reply(f, max, now);
            && Refilled(f.a, r.a, cut) && r.b.Output() == f.b.Output()
            && (cut == [] || cut == Cut(f.a.st.tcpIn, WINDOW))
            && (f.a.st.unacked != [] && f.a.st.Established() ==> cut == Cut(f.a.st.tcpIn, WINDOW))
  {
    cut := [];
    if PullTx(f.b.st, max, now).frame != [] {
      ReplyShape(f, max, now);
      PullBytes(f.b, max, now);
      if Reply(f, max, now).a.st.Established() { cut := Cut(f.a.st.tcpIn, WINDOW); }
      hide Inv;
      hide Reply;
      hide PullTx;
      hide Cut;
      hide Concat;
    } else {
      NothingOwed(f.b.st, max, now);
      AckedNat(f);
      assert NewPending(|f.a.segs| % WRAP, []) == [];
      assert f.a.st.txSeq == |f.a.segs| % WRAP;
    }
  }

  lemma NothingOwed(s: Stream, max: nat, now: int)
    requires PullTx(s, max, now).frame == [] && max >= HEADER
    ensures !s.ackPending && s.ctrlq == []
  {
  }

  lemma ReplyAcks(f: Sys, max: nat, now: int)
    requires Inv(f) && max >= FRAME_MAX && f.b.rcvd == |f.a.segs|
    requires f.a.st.unacked != [] ==> f.b.st.ackPending
    ensures Inv(Reply(f, max, now)) && Reply(f, max, now).a.Acked() == |f.a.segs|
  {
    assert f.a.Acked() <= |f.a.segs|;
    if PullTx(f.b.st, max, now).frame != [] {
      FeedStep(Mirror(f), max, now);
    } else {
      assert !f.b.st.ackPending;
    }
    hide Half;
    hide NetOk;
    hide Feed;
  }

  lemma OutputAll(f: Sys)
    requires Inv(f) && f.b.rcvd == |f.a.segs|
    ensures f.b.Output() == Concat(f.a.segs) && f.b.Output() + f.a.st.tcpIn == f.a.app
  {
    assert f.a.segs[..f.b.rcvd] == f.a.segs;
  }

  lemma NothingCut(n: Node, m: Node, cut: seq<seq<byte>>)
    requires Refilled(n, m, cut) && n.st.tcpIn == [] && (cut == [] || cut == Cut(n.st.tcpIn, WINDOW))
    ensures m.st.unacked == [] && m.st.tcpIn == []
  {
  }

  /** One loss-free round after the retransmit time empties the sender's window: what is
      resent plus what the receiver already holds cover everything outstanding, and one frame
      back acknowledges all of it. Only segments cut after that acknowledgement can be
      outstanding then, and none if the application had nothing more to send. */
  lemma RoundClearsWindow(s: Sys, max: nat, now: int)
    requires Inv(s) && Open(s.b) && Elapsed(s.a.st, now) && max >= FRAME_MAX
    ensures var f := Sending(s, max, now);
            var r := Reply(f, max, now);
            && s.a.segs <= f.a.segs && f.b.rcvd == |f.a.segs|
            && f.b.Output() == Concat(f.a.segs)
            && Inv(r) && r.a.Acked() == |f.a.segs|
            && (f.a.st.tcpIn == [] ==> r.a.st.unacked == [])
  {
    TickHeld(s, now);
    var t := Step(s, OnA(Tick(now)));
    AckedNat(t);
    FlushHeld(t, max, now);
    var f := Sending(s, max, now);
    FlushedAll(f, max, now);
    OutputAll(f);
    ReplyAcks(f, max, now);
    var cut := ReplyRefills(f, max, now);
    hide Inv;
    hide Held;
    hide SentHeld;
    hide Flush;
    hide Reply;
    hide Step;
    hide PullTx;
    hide Cut;
    hide Refilled;
    hide Half;
    if f.a.st.tcpIn == [] { NothingCut(f.a, Reply(f, max, now).a, cut); }
  }

  /** The same from every reachable state. */
  lemma ReachableRound(start: int, run: seq<Event>, max: nat, now: int)
    requires Allowed(Init(start), run)
    requires var s := Exec(Init(start), run); Open(s.b) && Elapsed(s.a.st, now)
    requires max >= FRAME_MAX
    ensures var s := Exec(Init(start), run);
            var f := Sending(s, max, now);
            && s.a.segs <= f.a.segs && f.b.rcvd == |f.a.segs|
            && Reply(f, max, now).a.Acked() == |f.a.segs|
            && (f.a.st.tcpIn == [] ==> Reply(f, max, now).a.st.unacked == [])
  {
    RunInv(Init(start), run);
    RoundClearsWindow(Exec(Init(start), run), max, now);
  }
}
