/** The staleness bound is exact: what a frame that lags too far does, and a run that gets there. */
module ArqStale {
  import opened Bytes
  import opened ArqSpec
  import opened ArqLink
  import opened ArqSteps
  import opened ArqSafety
  import opened ArqRound
  import opened ArqDelivery

  /** An acknowledgement behind the window, by less than a wrap, is taken for a new one if
      and only if it lags by at least a wrap less what is outstanding; with a full window
      that is exactly STALE. */
  lemma StaleAckMisread(x: Node, y: Node, ackNo: nat, now: int)
    requires Half(x, y) && ackNo < x.Acked() < ackNo + WRAP
    ensures ApplyAck(x.st, ackNo % WRAP, now) != x.st <==> x.Acked() - ackNo >= WRAP - |x.st.unacked|
    ensures x.Acked() - ackNo >= WRAP - |x.st.unacked| ==>
              x.(st := ApplyAck(x.st, ackNo % WRAP, now)).Acked() == ackNo + WRAP
  {
    ModDelta(ackNo, x.Acked());
    assert |x.st.unacked| <= WINDOW && x.st.txAcked == x.Acked() % WRAP;
    hide Half;
    var d := WRAP - (x.Acked() - ackNo);
    assert (ackNo % WRAP - x.st.txAcked) % WRAP == d;
    if d <= |x.st.unacked| {
      assert |ApplyAck(x.st, ackNo % WRAP, now).unacked| == |x.st.unacked| - d;
    }
  }

  /** A data frame behind an open receiver, by less than a wrap, does more than ask for an
      acknowledgement if and only if it lags by more than STALE and its number is not buffered
      yet; it is then kept as the segment one wrap later. */
  lemma StaleDataMisread(y: Node, segs: seq<seq<byte>>, t: nat, payload: seq<byte>)
    requires Receiver(y, segs) && Open(y) && t < y.rcvd < t + WRAP
    ensures var s := Deliver(y.st, t % WRAP, payload);
            var misread := y.rcvd - t > STALE && t % WRAP !in y.st.reorder;
            && (s != y.st.(ackPending := true) <==> misread)
            && (misread ==> s.reorder == y.st.reorder[t % WRAP := payload] && TrueSeq(y, t % WRAP) == t + WRAP)
  {
    ModDelta(t, y.rcvd);
    var d := (t % WRAP - y.rcvd % WRAP) % WRAP;
    assert d == WRAP - (y.rcvd - t) && d != 0;
    var s := Deliver(y.st, t % WRAP, payload);
    if d < WINDOW && t % WRAP !in y.st.reorder {
      assert t % WRAP in s.reorder;
    }
  }

  // ---- A run to the bound -------------------------------------------------

  ghost predicate Reachable(start: int, s: Sys) {
    exists run :: Allowed(Init(start), run) && Exec(Init(start), run) == s
  }

  lemma {:induction false} Snoc(s: Sys, run: seq<Event>, e: Event)
    requires Allowed(s, run) && EventEnabled(Exec(s, run), e)
    ensures Allowed(s, run + [e]) && Exec(s, run + [e]) == Step(Exec(s, run), e)
    decreases |run|
  {
    hide EventEnabled;
    hide Step;
    if run == [] {
      assert run + [e] == [e] && [e][1..] == [];
    } else {
      Snoc(Step(s, run[0]), run[1..], e);
      assert (run + [e])[0] == run[0] && (run + [e])[1..] == run[1..] + [e];
    }
  }

  lemma Extend(start: int, s: Sys, e: Event)
    requires Reachable(start, s) && EventEnabled(s, e)
    ensures Reachable(start, Step(s, e))
  {
    hide EventEnabled;
    hide Step;
    hide Init;
    var run :| Allowed(Init(start), run) && Exec(Init(start), run) == s;
    Snoc(Init(start), run, e);
    assert Allowed(Init(start), run + [e]);
  }

  lemma FeedReach(start: int, s: Sys, max: nat, now: int)
    requires Reachable(start, s) && Inv(s) && PullTx(s.a.st, max, now).frame != []
    ensures Reachable(start, Feed(s, max, now)) && Inv(Feed(s, max, now)) && Feed(s, max, now).ba == s.ba
  {
    hide Inv;
    hide Reachable;
    hide PullTx;
    hide NRadio;
    FeedTimely(s, max, now);
    FeedInv(s, max, now);
    Extend(start, s, OnA(Pull(max, now)));
    Extend(start, Step(s, OnA(Pull(max, now))), OnB(Recv(PulledPacket(s.a, max, now), now)));
  }

  lemma ReplyReach(start: int, s: Sys, max: nat, now: int)
    requires Reachable(start, s) && Inv(s)
    ensures Reachable(start, Reply(s, max, now)) && Inv(Reply(s, max, now)) && s.ba <= Reply(s, max, now).ba
  {
    hide Inv;
    hide Reachable;
    hide PullTx;
    hide NRadio;
    if PullTx(s.b.st, max, now).frame != [] {
      var m := Mirror(s);
      var p := PulledPacket(m.a, max, now);
      MirrorInv(s);
      FeedTimely(m, max, now);
      FeedInv(m, max, now);
      MirrorInv(Feed(m, max, now));
      Extend(start, s, OnB(Pull(max, now)));
      Extend(start, Step(s, OnB(Pull(max, now))), OnA(Recv(p, now)));
    }
  }

  lemma MirrorInv(s: Sys)
    requires Inv(s)
    ensures Inv(Mirror(s))
  {
    hide Half;
    hide NetOk;
    hide CtrlOk;
  }

  lemma {:induction false} FlushReach(start: int, s: Sys, max: nat, now: int)
    requires Reachable(start, s) && Inv(s)
    ensures var f := Flush(s, max, now); Reachable(start, f) && Inv(f) && f.ba == s.ba
    decreases Work(s.a.st, max)
  {
    hide Inv;
    hide Reachable;
    hide Feed;
    hide PullTx;
    if PullTx(s.a.st, max, now).frame != [] {
      FeedReach(start, s, max, now);
      FeedStep(s, max, now);
      PullWork(s.a.st, max, now);
      FlushReach(start, Feed(s, max, now), max, now);
    }
  }

  lemma RoundReach(start: int, s: Sys, max: nat, now: int)
    requires Reachable(start, s) && Inv(s)
    ensures var r := Round(s, max, now); Reachable(start, r) && Inv(r) && s.ba <= r.ba
  {
    hide Inv;
    hide Reachable;
    hide Flush;
    hide Reply;
    hide NTick;
    var t := Step(s, OnA(Tick(now)));
    StepInv(s, OnA(Tick(now)));
    Extend(start, s, OnA(Tick(now)));
    FlushReach(start, t, max, now);
    ReplyReach(start, Sending(s, max, now), max, now);
  }

  /** All `k` segments sent are acknowledged, nothing waits, and a frame that acknowledges
      nothing is still on its way. */
  ghost predicate Calm(start: int, s: Sys, k: nat, p: Packet) {
    && Reachable(start, s) && Inv(s) && Open(s.b) && s.a.st.Established()
    && |s.a.segs| == k && s.a.st.unacked == [] && s.a.st.tcpIn == []
    && p in s.ba && p.ackNo == 0
  }

  /** Without waiting bytes a round cuts no segment. */
  lemma RoundCutsNone(s: Sys, max: nat, now: int)
    requires Inv(s) && Open(s.b) && s.a.st.Established() && Elapsed(s.a.st, now) && max >= FRAME_MAX
    requires s.a.st.tcpIn == []
    ensures var r := Round(s, max, now);
            && Inv(r) && Open(r.b) && r.a.st.Established() && r.a.segs == s.a.segs
            && r.a.st.unacked == [] && r.a.st.tcpIn == []
  {
    hide Inv;
    hide Flush;
    hide PullTx;
    hide Reply;
    hide Held;
    RoundAdvances(s, max, now);
    TickHeld(s, now);
    TickCutsNone(s.a, now);
    var t := Step(s, OnA(Tick(now)));
    assert t.a == NTick(s.a, now);
    hide NTick;
    AckedNat(t);
    FlushHeld(t, max, now);
    var f := Sending(s, max, now);
    FlushedAll(f, max, now);
    var cut := ReplyRefills(f, max, now);
    hide SentHeld;
    NothingCut(f.a, Reply(f, max, now).a, cut);
  }

  lemma TickCutsNone(n: Node, now: int)
    requires n.st.tcpIn == []
    ensures NTick(n, now).segs == n.segs && NTick(n, now).st.tcpIn == []
  {
  }

  /** One write into an empty window, not yet sent. */
  lemma WriteCuts(start: int, s: Sys, k: nat, p: Packet, data: seq<byte>, now: int)
    requires Calm(start, s, k, p) && data != []
    ensures var t := Step(s, OnA(Write(data, now)));
            && Reachable(start, t) && Inv(t) && t.b == s.b && t.ba == s.ba && t.a.st.Established()
            && t.a.segs == s.a.segs + Cut(data, WINDOW) && t.a.st.tcpIn == data[|Concat(Cut(data, WINDOW))|..]
            && t.a.st.unacked == NewPending(s.a.st.txSeq, Cut(data, WINDOW))
  {
    hide Inv;
    hide Reachable;
    hide Cut;
    hide Concat;
    var e := OnA(Write(data, now));
    StepInv(s, e);
    Extend(start, s, e);
    assert [] + data == data;
  }

  lemma CutShort(data: seq<byte>, room: nat)
    requires 0 < |data| <= MAX_SEGMENT && 0 < room
    ensures Cut(data, room) == [data] && Concat([data]) == data
  {
    assert data[..|data|] == data && data[|data|..] == [];
    assert [data][1..] == [];
  }

  lemma CalmNext(start: int, s: Sys, k: nat, p: Packet, now: int) returns (r: Sys)
    requires Calm(start, s, k, p)
    ensures Calm(start, r, k + 1, p)
  {
    hide Inv;
    hide Reachable;
    hide Round;
    hide NWrite;
    WriteCuts(start, s, k, p, [0], now);
    var t := Step(s, OnA(Write([0], now)));
    CutShort([0], WINDOW);
    hide Cut;
    hide Concat;
    RoundReach(start, t, FRAME_MAX, now);
    RoundCutsNone(t, FRAME_MAX, now);
    r := Round(t, FRAME_MAX, now);
  }

  lemma {:induction false} CalmAt(start: int, k: nat) returns (s: Sys, p: Packet)
    ensures Calm(start, s, k, p)
  {
    hide Calm;
    if k == 0 {
      s, p := CalmStart(start);
    } else {
      var t;
      t, p := CalmAt(start, k - 1);
      s := CalmNext(start, t, k - 1, p, start);
    }
  }

  /** A stream that is up and has cut nothing takes in a CONNECT. */
  lemma FirstConnect(n: Node, data: seq<byte>, now: int)
    requires Decode(data) == Some(Frame(TYPE_CONNECT, 0, 0, []))
    requires n.st.unacked == [] && n.st.tcpIn == []
    ensures var m := NRadio(n, data, now);
            && m.st.local == n.st.local && m.st.ctrlq == n.st.ctrlq
            && m.st.rxSeq == (if n.st.peerConnect then n.st.rxSeq else 0)
            && m.st.peerConnect && !m.st.peerClose && m.segs == n.segs && m.rcvd == n.rcvd
            && m.st.unacked == [] && m.st.tcpIn == []
  {
  }

  lemma ConnectPull(n: Node, now: int)
    requires n.st.ctrlq == [Ctrl(TYPE_CONNECT, 0)] && n.st.rxSeq == 0
    ensures var r := PullTx(n.st, HEADER, now);
            && Decode(r.frame) == Some(Frame(TYPE_CONNECT, 0, 0, [])) && r.frame != []
            && r.st == n.st.(ctrlq := [])
  {
    DecodeEncode(TYPE_CONNECT, 0, 0, []);
    hide Decode;
    hide Encode;
  }

  lemma BothUp(now: int) returns (s: Sys)
    ensures Reachable(now, s) && Inv(s)
    ensures var n := Node(LocalUp(Fresh(now), now), [], [], 0, [], {0}); s == Sys(n, n, {}, {})
  {
    hide Inv;
    hide Reachable;
    var s0 := Init(now);
    InitReach(now);
    var s1 := Step(s0, OnA(Up(now)));
    s := Step(s1, OnB(Up(now)));
    Extend(now, s0, OnA(Up(now)));
    Extend(now, s1, OnB(Up(now)));
    StepInv(s0, OnA(Up(now)));
    StepInv(s1, OnB(Up(now)));
  }

  lemma InitReach(now: int)
    ensures Reachable(now, Init(now)) && Inv(Init(now))
  {
    assert Allowed(Init(now), []) && Exec(Init(now), []) == Init(now);
  }

  lemma CalmStart(now: int) returns (s: Sys, q: Packet)
    ensures Calm(now, s, 0, q)
  {
    hide Inv;
    hide Reachable;
    hide PullTx;
    hide NRadio;
    hide Decode;
    var s2 := BothUp(now);
    var s3 := Feed(s2, HEADER, now);
    ConnectPull(s2.a, now);
    FirstConnect(s2.b, PullTx(s2.a.st, HEADER, now).frame, now);
    FeedReach(now, s2, HEADER, now);
    q := PulledPacket(s3.b, HEADER, now);
    s := Reply(s3, HEADER, now);
    ConnectPull(s3.b, now);
    FirstConnect(s3.a, PullTx(s3.b.st, HEADER, now).frame, now);
    ReplyReach(now, s3, HEADER, now);
  }

  /** Every count of segments is reached; at STALE of them, with a full window, the frame that
      acknowledges nothing pops the window, though the peer holds none of it. */
  lemma StaleBoundExact(start: int)
    ensures exists s, p :: Reachable(start, s) && p in s.ba && s.a.Acked() == p.ackNo + STALE
                           && Next(s, Recv(p, start)).a.Acked() > s.b.rcvd
  {
    var c, p := CalmAt(start, STALE);
    var data: seq<byte> := seq(WINDOW_BYTES, i => 0);
    WriteCuts(start, c, STALE, p, data, start);
    var s := Step(c, OnA(Write(data, start)));
    CutTakes(data, WINDOW);
    CutCount(Cut(data, WINDOW));
    hide Inv;
    hide Reachable;
    hide NWrite;
    hide Cut;
    hide Concat;
    assert |s.a.st.unacked| == WINDOW && s.a.Acked() == STALE;
    Popped(s, p, start);
  }

  lemma {:induction false} CutCount(segs: seq<seq<byte>>)
    requires forall i :: 0 <= i < |segs| ==> |segs[i]| <= MAX_SEGMENT
    ensures |Concat(segs)| <= |segs| * MAX_SEGMENT
  {
    if segs != [] { CutCount(segs[1..]); }
  }

  lemma FrameAcked(n: Node, f: Frame, now: int)
    requires f.kind in {TYPE_DATA, TYPE_ACK, TYPE_CONNECT}
    ensures NFrame(n, f, now).Acked() == n.(st := ApplyAck(n.st, f.ack, now)).Acked()
  {
    var m := n.(st := Acknowledge(n.st, f, now));
    DeliverSame(m.st, f.seqNo, f.payload);
    DeliverHistory(m, f.seqNo, f.payload);
    hide ApplyAck;
    hide Deliver;
    hide NDeliver;
  }

  lemma QueueAcked(n: Node, now: int)
    ensures NQueue(n, now).Acked() == n.Acked()
  {
    hide Cut;
    hide Concat;
  }

  lemma Popped(s: Sys, p: Packet, now: int)
    requires Inv(s) && p in s.ba && s.a.Acked() == p.ackNo + STALE && |s.a.st.unacked| == WINDOW
    requires s.b.rcvd == s.a.Acked()
    ensures Next(s, Recv(p, now)).a.Acked() > s.b.rcvd
  {
    hide NFrame;
    hide NQueue;
    hide NetOk;
    hide SackOk;
    assert PacketOk(s.b, p) by { InvPacket(s, p); }
    var f := Decode(p.bytes).value;
    FrameAcked(s.a, f, now);
    QueueAcked(NFrame(s.a, f, now), now);
    StaleAckMisread(s.a, s.b, p.ackNo, now);
    hide Half;
  }

  lemma InvPacket(s: Sys, p: Packet)
    requires Inv(s) && p in s.ba
    ensures PacketOk(s.b, p)
  {
    hide Half;
  }
}
