/** Whole steps of one node, each shown to keep both halves of the invariant and every frame
    in flight true; runs follow by induction. */
module ArqSteps {
  import opened Bytes
  import opened ArqSpec
  import opened ArqLink

  // ---- Framing ---------------------------------------------------------

  /** Same sending half up to the in-flight marks of pending segments. */
  ghost predicate SameWindow(n: Node, m: Node) {
    && m.segs == n.segs && m.app == n.app
    && m.st.txSeq == n.st.txSeq && m.st.txAcked == n.st.txAcked && m.st.tcpIn == n.st.tcpIn
    && |m.st.unacked| == |n.st.unacked|
    && forall i :: 0 <= i < |n.st.unacked| ==>
         && m.st.unacked[i].seqNo == n.st.unacked[i].seqNo
         && m.st.unacked[i].payload == n.st.unacked[i].payload
         && m.st.unacked[i].sacked == n.st.unacked[i].sacked
  }

  ghost predicate SameReceiver(n: Node, m: Node) {
    && m.rcvd == n.rcvd && m.Output() == n.Output() && m.st.rxSeq == n.st.rxSeq
    && m.st.reorder == n.st.reorder && m.st.peerConnect == n.st.peerConnect && m.rests == n.rests
  }

  lemma SenderFrame(n: Node, m: Node, o: Node)
    requires Half(n, o) && SameWindow(n, m)
    ensures Half(m, o)
  {
    hide Receiver;
  }

  lemma ReceiverFrame(o: Node, n: Node, m: Node)
    requires Half(o, n) && SameReceiver(n, m)
    ensures Half(o, m) && forall t: nat :: Aside(n, t) ==> Aside(m, t)
    ensures forall t: nat :: Held(n, t) ==> Held(m, t)
  {
    hide Sender;
    assert forall v :: v in n.st.reorder ==> TrueSeq(m, v) == TrueSeq(n, v);
  }

  lemma ReceiverGrow(o: Node, n: Node, m: Node)
    requires Half(o, n) && Receiver(m, o.segs) && n.rcvd <= m.rcvd && m.rests == n.rests + {m.rcvd}
    requires forall t: nat :: Held(n, t) ==> Held(m, t)
    ensures Half(o, m) && forall t: nat :: Aside(n, t) ==> Aside(m, t)
    ensures forall t: nat :: Held(n, t) ==> Held(m, t)
  {
    NextNotHeld(m, o.segs);
    hide Receiver;
    hide Held;
  }

  /** The next expected segment is never held. */
  lemma NextNotHeld(y: Node, segs: seq<seq<byte>>)
    requires Receiver(y, segs)
    ensures !Held(y, y.rcvd)
  {
  }

  // ---- Whole steps of one node ------------------------------------------

  /** Node n may become m while its peer is o. */
  ghost predicate Kept(n: Node, m: Node, o: Node) {
    Half(m, o) && Half(o, m) && Grows(n, m) && CtrlOk(m)
  }

  lemma KeptTrans(n: Node, m: Node, r: Node, o: Node)
    requires Kept(n, m, o) && Kept(m, r, o)
    ensures Kept(n, r, o)
  {
    hide Half;
    hide CtrlOk;
    hide Aside; hide Held;
  }

  lemma AcknowledgeStep(n: Node, o: Node, f: Frame, ackNo: nat, now: int)
    requires Kept(n, n, o)
    requires f.ack == ackNo % WRAP && ackNo in o.rests && n.Acked() < ackNo + STALE
    requires f.kind == TYPE_ACK ==> SackOk(o, f.payload, ackNo)
    ensures Kept(n, n.(st := Acknowledge(n.st, f, now)), o)
    ensures n.(st := Acknowledge(n.st, f, now)).Acked() == if ackNo > n.Acked() then ackNo else n.Acked()
  {
    AckStep(n, o, f.ack, ackNo, now);
    var m := n.(st := ApplyAck(n.st, f.ack, now));
    if f.kind == TYPE_ACK && f.payload != [] {
      SackStep(m, o, f.payload, ackNo);
    }
    ReceiverFrame(o, n, n.(st := Acknowledge(n.st, f, now)));
    hide Half;
    hide Aside; hide Held;
  }

  /** A data frame for an open or closed receiver. */
  lemma DataStep(n: Node, o: Node, f: Frame, t: nat)
    requires Kept(n, n, o) && t < |o.segs| && n.rcvd < t + STALE
    requires f.seqNo == t % WRAP && f.payload == o.segs[t]
    ensures Kept(n, NDeliver(n, f.seqNo, f.payload), o)
    ensures n.st.peerConnect && !n.st.peerClose ==> Held(NDeliver(n, f.seqNo, f.payload), t)
  {
    var m := NDeliver(n, f.seqNo, f.payload);
    assert t < n.rcvd + WINDOW;
    DeliverStep(n, o.segs, f.seqNo, t);
    ReceiverGrow(o, n, m);
    hide NDeliver;
    SenderFrame(n, m, o);
    hide Half;
    hide Aside; hide Held;
  }

  lemma ConnectStep(n: Node, o: Node)
    requires Kept(n, n, o)
    ensures Kept(n, n.(st := OnConnect(n.st)), o)
  {
    var m := n.(st := OnConnect(n.st));
    SenderFrame(n, m, o);
    assert forall v :: v in n.st.reorder ==> TrueSeq(m, v) == TrueSeq(n, v);
    if !n.st.peerConnect {
      assert n.pulled == [] && n.st.tcpOut == [];
    }
    assert Receiver(m, o.segs) by { hide Sender; }
    ReceiverGrow(o, n, m);
    hide Half;
  }

  lemma QueueKept(n: Node, o: Node, now: int)
    requires Kept(n, n, o)
    ensures Kept(n, NQueue(n, now), o) && NQueue(n, now).Acked() == n.Acked()
  {
    QueueStep(n, o, now);
    ReceiverFrame(o, n, NQueue(n, now));
    hide Half;
    hide Aside; hide Held;
    hide Cut;
  }

  lemma KeptAgain(n: Node, m: Node, o: Node)
    requires Kept(n, m, o)
    ensures Kept(m, m, o)
  {
    hide Half;
    hide Aside; hide Held;
    hide CtrlOk;
  }

  /** What a frame of the peer says about sender n. */
  ghost predicate FrameOk(o: Node, f: Frame, seqNo: nat, ackNo: nat) {
    && f.ack == ackNo % WRAP && ackNo in o.rests
    && f.kind in {TYPE_DATA, TYPE_ACK, TYPE_CONNECT}
    && (f.kind == TYPE_DATA ==>
          f.seqNo == seqNo % WRAP && seqNo < |o.segs| && f.payload == o.segs[seqNo])
    && (f.kind == TYPE_ACK ==> SackOk(o, f.payload, ackNo))
  }

  /** Acknowledgements touch only the window. */
  predicate SameLink(s: Stream, t: Stream) {
    && t.local == s.local && t.peerConnect == s.peerConnect && t.peerClose == s.peerClose
    && t.ctrlq == s.ctrlq && t.tcpIn == s.tcpIn && t.ackPending == s.ackPending
    && t.connectStarted == s.connectStarted && t.lastConnect == s.lastConnect
  }

  lemma AckSame(s: Stream, ack: u16, now: int)
    ensures SameLink(s, ApplyAck(s, ack, now))
  {
  }

  lemma SackSame(s: Stream, blocks: seq<byte>)
    ensures SameLink(s, ApplySack(s, blocks))
  {
    hide MarkSacked;
  }

  lemma AcknowledgeSame(s: Stream, f: Frame, now: int)
    ensures SameLink(s, Acknowledge(s, f, now))
  {
    AckSame(s, f.ack, now);
    SackSame(ApplyAck(s, f.ack, now), f.payload);
    hide ApplyAck;
    hide ApplySack;
  }

  lemma FrameStep(n: Node, o: Node, f: Frame, seqNo: nat, ackNo: nat, now: int)
    requires Kept(n, n, o) && FrameOk(o, f, seqNo, ackNo)
    requires n.Acked() < ackNo + STALE && (f.kind == TYPE_DATA ==> n.rcvd < seqNo + STALE)
    ensures Kept(n, NFrame(n, f, now), o)
    ensures NFrame(n, f, now).Acked() == if ackNo > n.Acked() then ackNo else n.Acked()
    ensures f.kind == TYPE_DATA && n.st.peerConnect && !n.st.peerClose ==> Held(NFrame(n, f, now), seqNo)
  {
    AcknowledgeStep(n, o, f, ackNo, now);
    AcknowledgeSame(n.st, f, now);
    var m := n.(st := Acknowledge(n.st, f, now));
    hide Acknowledge;
    KeptAgain(n, m, o);
    hide Half;
    hide Aside; hide Held;
    hide Kept;
    if f.kind == TYPE_DATA {
      DataStep(m, o, f, seqNo);
      DeliverSame(m.st, f.seqNo, f.payload);
      DeliverHistory(m, f.seqNo, f.payload);
      KeptTrans(n, m, NDeliver(m, f.seqNo, f.payload), o);
    } else if f.kind == TYPE_CONNECT {
      ConnectStep(m, o);
      KeptTrans(n, m, m.(st := OnConnect(m.st)), o);
    }
  }

  lemma {:induction false} DrainHistory(n: Node)
    ensures NDrain(n).segs == n.segs && NDrain(n).app == n.app && NDrain(n).pulled == n.pulled
    decreases |n.st.reorder|
  {
    if n.st.rxSeq in n.st.reorder {
      assert (n.st.reorder - {n.st.rxSeq}).Keys == n.st.reorder.Keys - {n.st.rxSeq};
      DrainHistory(n.(st := DrainOne(n.st), rcvd := n.rcvd + 1));
    }
  }

  lemma DeliverHistory(n: Node, seqNo: u16, payload: seq<byte>)
    ensures var m := NDeliver(n, seqNo, payload);
            m.segs == n.segs && m.app == n.app && m.pulled == n.pulled
  {
    DrainHistory(n.(st := n.st.(tcpOut := n.st.tcpOut + payload, rxSeq := (n.st.rxSeq + 1) % 65536),
                    rcvd := n.rcvd + 1));
  }

  /** What receiving one frame from the peer does. */
  lemma RecvStep(n: Node, o: Node, p: Packet, now: int)
    requires Kept(n, n, o) && PacketOk(o, p) && Timely(n, p)
    ensures var m := NRadio(n, p.bytes, now);
            && Kept(n, m, o)
            && m.Acked() == (if p.ackNo > n.Acked() then p.ackNo else n.Acked())
            && (Decode(p.bytes).value.kind == TYPE_DATA && n.st.peerConnect && !n.st.peerClose ==> Held(m, p.seqNo))
  {
    var f := Decode(p.bytes).value;
    FrameStep(n, o, f, p.seqNo, p.ackNo, now);
    var m := NFrame(n, f, now);
    KeptAgain(n, m, o);
    QueueKept(m, o, now);
    KeptTrans(n, m, NQueue(m, now), o);
    hide Half;
    hide NFrame;
    hide NQueue;
  }

  lemma TickWindow(n: Node, now: int)
    ensures SameWindow(n, n.(st := RetryConnect(n.st.(unacked := ExpireAll(n.st.unacked, now)), now)))
  {
  }

  lemma TickStep(n: Node, o: Node, now: int)
    requires Kept(n, n, o)
    ensures Kept(n, NTick(n, now), o)
  {
    var t := n.st.(unacked := ExpireAll(n.st.unacked, now));
    var u := RetryConnect(t, now);
    TickWindow(n, now);
    assert CtrlOk(n.(st := u));
    var m := if Connecting(t) && now - t.connectStarted >= CONNECT_TIMEOUT then n.(st := t.(connectGiveUp := true))
             else if u.Established() && u.unacked != [] && now - u.lastProgress >= STALL_TIMEOUT
             then n.(st := u.(stallGiveUp := true)) else n.(st := u);
    Quiet(n, m, o);
    hide Kept;
    if NTick(n, now) != m {
      KeptAgain(n, m, o);
      QueueKept(m, o, now);
      KeptTrans(n, m, NQueue(m, now), o);
    }
  }

  /** Nothing the link depends on has changed. */
  lemma Quiet(n: Node, m: Node, o: Node)
    requires Kept(n, n, o) && SameWindow(n, m) && SameReceiver(n, m) && CtrlOk(m)
    ensures Kept(n, m, o)
  {
    SenderFrame(n, m, o);
    ReceiverFrame(o, n, m);
    hide Half;
    hide Aside; hide Held;
  }

  lemma WriteStep(n: Node, o: Node, data: seq<byte>, now: int)
    requires Kept(n, n, o)
    ensures Kept(n, NWrite(n, data, now), o)
  {
    if data != [] && n.st.Established() {
      var m := n.(st := n.st.(tcpIn := n.st.tcpIn + data), app := n.app + data);
      assert Half(m, o) by {
        assert Concat(m.segs) + m.st.tcpIn == Concat(n.segs) + n.st.tcpIn + data;
        hide Receiver;
      }
      ReceiverFrame(o, n, m);
      assert Kept(n, m, o) by { hide Half; hide Aside; hide Held; }
      KeptAgain(n, m, o);
      hide Kept;
      QueueKept(m, o, now);
      KeptTrans(n, m, NQueue(m, now), o);
    }
  }

  lemma ReadStep(n: Node, o: Node, max: nat)
    requires Kept(n, n, o)
    ensures Kept(n, NRead(n, max), o)
  {
    var m := NRead(n, max);
    assert SameWindow(n, m) && SameReceiver(n, m) && CtrlOk(m) by {
      var c := if |n.st.tcpOut| < max then |n.st.tcpOut| else max;
      hide Half;
      hide Aside; hide Held;
      assert (n.pulled + n.st.tcpOut[..c]) + n.st.tcpOut[c..] == n.pulled + n.st.tcpOut;
    }
    hide Kept;
    Quiet(n, m, o);
  }

  lemma UpStep(n: Node, o: Node, now: int)
    requires Kept(n, n, o)
    ensures Kept(n, n.(st := LocalUp(n.st, now)), o)
  {
    Quiet(n, n.(st := LocalUp(n.st, now)), o);
  }

  lemma SackTrue(n: Node, segs: seq<seq<byte>>, max: nat)
    requires Receiver(n, segs) && Rests(n)
    ensures SackOk(n, SackBlocks(n.st.reorder.Keys, 0, 0, max), n.rcvd)
  {
    var blocks := SackBlocks(n.st.reorder.Keys, 0, 0, max);
    forall t: nat | n.rcvd <= t < n.rcvd + WRAP && Covers(blocks, t % WRAP)
      ensures Aside(n, t)
    {
      SackSound(n.st.reorder.Keys, 0, 0, max, t % WRAP);
      BufferedHeld(n, segs, t);
    }
  }

  lemma BufferedHeld(n: Node, segs: seq<seq<byte>>, t: nat)
    requires Receiver(n, segs) && Rests(n) && n.rcvd <= t < n.rcvd + WRAP && t % WRAP in n.st.reorder
    ensures Aside(n, t)
  {
    hide Concat;
    ModDelta(t, n.rcvd);
    assert TrueSeq(n, t % WRAP) == t;
  }

  /** What makes a frame of n a true one, whatever its bytes look like. */
  lemma PacketSays(n: Node, kind: byte, seqNo: u16, payload: seq<byte>, k: nat)
    requires n.st.rxSeq == n.rcvd % WRAP && n.rcvd in n.rests && |payload| < 65536
    requires kind in {TYPE_DATA, TYPE_ACK, TYPE_CONNECT}
    requires kind == TYPE_DATA ==> seqNo == k % WRAP && k < |n.segs| && payload == n.segs[k]
    requires kind == TYPE_ACK ==> SackOk(n, payload, n.rcvd)
    ensures PacketOk(n, Packet(Encode(kind, seqNo, n.st.rxSeq, payload), k, n.rcvd))
  {
    DecodeEncode(kind, seqNo, n.st.rxSeq, payload);
    hide Decode;
    hide Encode;
    hide SackOk;
  }

  lemma BothHalves(n: Node, o: Node)
    requires Half(n, o) && Half(o, n)
    ensures n.st.rxSeq == n.rcvd % WRAP && n.rcvd in n.rests && Sender(n) && Receiver(n, o.segs) && Rests(n)
  {
    hide Sender;
    hide Buffered;
    hide SackedHeld;
  }

  lemma PullData(n: Node, max: nat)
    requires Sender(n) && n.st.rxSeq == n.rcvd % WRAP && n.rcvd in n.rests
    requires FirstReady(n.st.unacked, max) < |n.st.unacked|
    ensures var p := n.st.unacked[FirstReady(n.st.unacked, max)];
            PacketOk(n, Packet(Encode(TYPE_DATA, p.seqNo, n.st.rxSeq, p.payload), PulledSeq(n, max), n.rcvd))
  {
    var i := FirstReady(n.st.unacked, max);
    var p := n.st.unacked[i];
    assert p.payload == n.segs[n.Acked() + i] && p.seqNo == (n.Acked() + i) % WRAP;
    hide Concat;
    hide FirstReady;
    PacketSays(n, TYPE_DATA, p.seqNo, p.payload, n.Acked() + i);
  }

  /** Every frame put on the air says the truth about its sender. */
  lemma PullPacket(n: Node, o: Node, max: nat, now: int)
    requires Half(n, o) && Half(o, n) && CtrlOk(n) && PullTx(n.st, max, now).frame != []
    ensures PacketOk(n, Packet(PullTx(n.st, max, now).frame, PulledSeq(n, max), n.rcvd))
  {
    hide PacketOk;
    hide Half;
    hide Sender;
    hide Receiver;
    hide Rests;
    hide SackOk;
    hide Encode;
    hide FirstReady;
    hide SackBlocks;
    BothHalves(n, o);
    if n.st.ctrlq != [] {
      assert n.st.ctrlq[0] in n.st.ctrlq;
      PacketSays(n, TYPE_CONNECT, n.st.ctrlq[0].seqNo, [], PulledSeq(n, max));
    } else if n.st.ackPending {
      var blocks := SackBlocks(n.st.reorder.Keys, 0, 0, max - HEADER);
      SackTrue(n, o.segs, max - HEADER);
      PacketSays(n, TYPE_ACK, n.st.txSeq, blocks, PulledSeq(n, max));
    } else {
      PullData(n, max);
    }
  }

  lemma PullWindow(n: Node, max: nat, now: int)
    ensures var m := n.(st := PullTx(n.st, max, now).st);
            SameWindow(n, m) && SameReceiver(n, m) && (CtrlOk(n) ==> CtrlOk(m))
  {
    hide Encode;
    hide SackBlocks;
  }

  lemma PullStep(n: Node, o: Node, max: nat, now: int)
    requires Kept(n, n, o)
    ensures Kept(n, n.(st := PullTx(n.st, max, now).st), o)
  {
    PullWindow(n, max, now);
    Quiet(n, n.(st := PullTx(n.st, max, now).st), o);
  }

  lemma ActKept(s: Sys, act: Act)
    requires Inv(s) && Enabled(s, act)
    ensures Kept(s.a, Next(s, act).a, s.b) && Next(s, act).b == s.b
  {
    assert Kept(s.a, s.a, s.b) by { hide Half; hide Aside; hide Held; hide CtrlOk; }
    hide Half;
    hide Aside; hide Held;
    hide CtrlOk;
    hide Kept;
    match act
    case Up(now) => UpStep(s.a, s.b, now);
    case Write(data, now) => WriteStep(s.a, s.b, data, now);
    case Read(max) => ReadStep(s.a, s.b, max);
    case Tick(now) => TickStep(s.a, s.b, now);
    case Pull(max, now) => PullStep(s.a, s.b, max, now);
    case Recv(p, now) => RecvStep(s.a, s.b, p, now);
    case Lose(p) =>
  }

  /** Every step of either node keeps the invariant. */
  lemma NextInv(s: Sys, act: Act)
    requires Inv(s) && Enabled(s, act)
    ensures Inv(Next(s, act))
  {
    ActKept(s, act);
    var t := Next(s, act);
    assert Grows(s.a, t.a) && Half(t.a, t.b) && Half(t.b, t.a) && CtrlOk(t.a) by {
      hide Half;
      hide Aside;
      hide Held;
      hide CtrlOk;
    }
    hide Kept;
    NetGrows(s.a, t.a, s.ab);
    if act.Pull? && PullTx(s.a.st, act.max, act.now).frame != [] {
      PullPacket(s.a, s.b, act.max, act.now);
      NetGrows(s.a, t.a, {Packet(PullTx(s.a.st, act.max, act.now).frame, PulledSeq(s.a, act.max), s.a.rcvd)});
    }
    hide Half;
    hide Aside; hide Held;
    hide CtrlOk;
    hide PacketOk;
    assert NetOk(t.a, t.ab);
    assert t.ba <= s.ba;
  }

  lemma StepInv(s: Sys, e: Event)
    requires Inv(s) && EventEnabled(s, e)
    ensures Inv(Step(s, e))
  {
    hide Half;
    hide NetOk;
    hide CtrlOk;
    match e
    case OnA(act) => NextInv(s, act);
    case OnB(act) => NextInv(Mirror(s), act);
  }

  lemma {:induction false} RunInv(s: Sys, run: seq<Event>)
    requires Inv(s) && Allowed(s, run)
    ensures Inv(Exec(s, run))
    decreases |run|
  {
    if run != [] {
      StepInv(s, run[0]);
      RunInv(Step(s, run[0]), run[1..]);
    }
  }
}
