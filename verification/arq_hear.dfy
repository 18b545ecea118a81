/** When a stream comes to hear its peer, and when it no longer can: CONNECT is repeated only
    until the peer's own CONNECT is seen or the connection attempt runs out of time. */
module ArqHear {
  import opened Bytes
  import opened ArqSpec
  import opened ArqLink
  import opened ArqSteps

  ghost predicate IsConnect(p: Packet) {
    Decode(p.bytes).Some? && Decode(p.bytes).value.kind == TYPE_CONNECT
  }

  /** `b` takes in a CONNECT frame. */
  ghost predicate Connects(e: Event) { e.OnB? && e.act.Recv? && IsConnect(e.act.p) }

  /** The time after an act, if it was `t` before. */
  function After(act: Act, t: int): int {
    match act
    case Read(max) => t
    case Lose(p) => t
    case _ => act.now
  }

  /** The clock of a run starts at `t` or later and never goes back. */
  ghost predicate Clocked(run: seq<Event>, t: int)
    decreases |run|
  {
    run == [] || (t <= After(run[0].act, t) && Clocked(run[1..], After(run[0].act, t)))
  }

  // ---- What keeps a peer from being heard --------------------------------

  /** `a` is up, `b` has not heard it, and no CONNECT of `a` is queued or in flight. */
  ghost predicate Silent(s: Sys) {
    && s.a.st.local && s.a.st.ctrlq == [] && !s.b.st.peerConnect
    && forall p :: p in s.ab ==> !IsConnect(p)
  }

  /** A tick at `now` queues another CONNECT. */
  predicate Retries(s: Stream, now: int) {
    Connecting(s) && now - s.connectStarted < CONNECT_TIMEOUT && now - s.lastConnect >= REXMIT
  }

  /** The attempt to connect goes on as it was, or is over. */
  predicate SameAttempt(s: Stream, t: Stream) {
    && t.local == s.local && t.ctrlq == s.ctrlq
    && t.connectStarted == s.connectStarted && t.lastConnect == s.lastConnect
    && (s.peerConnect ==> t.peerConnect) && (Connecting(t) ==> Connecting(s))
  }

  lemma RadioKeepsUp(s: Stream, data: seq<byte>, now: int)
    requires Decode(data).Some? && Decode(data).value.kind in {TYPE_DATA, TYPE_ACK, TYPE_CONNECT}
    ensures var t := OnRadioRx(s, data, now);
            && SameAttempt(s, t)
            && (t.peerConnect <==> s.peerConnect || Decode(data).value.kind == TYPE_CONNECT)
  {
    var f := Decode(data).value;
    AcknowledgeSame(s, f, now);
    var t := Acknowledge(s, f, now);
    DeliverSame(t, f.seqNo, f.payload);
    hide Acknowledge;
    hide Deliver;
    hide Decode;
    hide Cut;
    hide NewPending;
    hide Concat;
  }

  lemma TickKeepsUp(s: Stream, now: int)
    ensures Retries(s, now) && s.ctrlq == [] ==> OnTick(s, now).ctrlq == [Ctrl(TYPE_CONNECT, s.txSeq)]
    ensures !Retries(s, now) ==> SameAttempt(s, OnTick(s, now))
    ensures OnTick(s, now).local == s.local && OnTick(s, now).peerConnect == s.peerConnect
  {
    hide ExpireAll;
    hide Cut;
    hide NewPending;
    hide Concat;
  }

  lemma SilentPull(n: Node, o: Node, max: nat, now: int)
    requires Half(n, o) && n.st.ctrlq == [] && PullTx(n.st, max, now).frame != []
    ensures !IsConnect(Packet(PullTx(n.st, max, now).frame, PulledSeq(n, max), n.rcvd))
  {
    if n.st.ackPending {
      DecodeEncode(TYPE_ACK, n.st.txSeq, n.st.rxSeq, SackBlocks(n.st.reorder.Keys, 0, 0, max - HEADER));
    } else {
      var p := n.st.unacked[FirstReady(n.st.unacked, max)];
      assert p.payload == n.segs[n.Acked() + FirstReady(n.st.unacked, max)];
      DecodeEncode(TYPE_DATA, p.seqNo, n.st.rxSeq, p.payload);
    }
  }

  lemma PullSame(s: Stream, max: nat, now: int)
    requires s.ctrlq == []
    ensures SameAttempt(s, PullTx(s, max, now).st)
  {
    hide Encode;
    hide SackBlocks;
    hide FirstReady;
  }

  lemma QueueSame(s: Stream, now: int)
    ensures SameAttempt(s, QueueData(s, now))
  {
    hide Cut;
    hide NewPending;
    hide Concat;
  }

  /** Unless it is a tick that repeats CONNECT, no act of `a` ends the silence. */
  lemma ActSilent(s: Sys, act: Act)
    requires Inv(s) && Silent(s) && Enabled(s, act)
    requires act.Tick? ==> !Retries(s.a.st, act.now)
    ensures Silent(Next(s, act)) && SameAttempt(s.a.st, Next(s, act).a.st)
  {
    hide NQueue;
    hide NRadio;
    hide NTick;
    hide QueueData;
    hide OnRadioRx;
    hide OnTick;
    hide PullTx;
    hide PulledSeq;
    match act {
      case Up(now) =>
      case Write(data, now) => QueueSame(s.a.st.(tcpIn := s.a.st.tcpIn + data), now);
      case Read(max) =>
      case Tick(now) => TickKeepsUp(s.a.st, now);
      case Lose(p) =>
      case Pull(max, now) =>
        PullSame(s.a.st, max, now);
        if PullTx(s.a.st, max, now).frame != [] { SilentPull(s.a, s.b, max, now); }
      case Recv(p, now) =>
        assert PacketOk(s.b, p);
        RadioKeepsUp(s.a.st, p.bytes, now);
    }
  }

  /** Nothing `b` does ends it either. */
  lemma PeerSilent(s: Sys, act: Act)
    requires Inv(s) && Silent(s) && Enabled(Mirror(s), act)
    ensures var t := Mirror(Next(Mirror(s), act)); Silent(t) && t.a == s.a
  {
    hide NQueue;
    hide NRadio;
    hide NTick;
    hide QueueData;
    hide OnRadioRx;
    hide OnTick;
    match act {
      case Up(now) =>
      case Write(data, now) => QueueSame(s.b.st.(tcpIn := s.b.st.tcpIn + data), now);
      case Read(max) =>
      case Tick(now) => TickKeepsUp(s.b.st, now);
      case Lose(p) =>
      case Pull(max, now) =>
      case Recv(p, now) =>
        assert PacketOk(s.a, p) && !IsConnect(p);
        RadioKeepsUp(s.b.st, p.bytes, now);
    }
  }

  // ---- Deaf for good ----------------------------------------------------

  /** `a` has heard `b`, but every CONNECT of `a` is gone. */
  ghost predicate Deaf(s: Sys) { Silent(s) && s.a.st.peerConnect }

  /** Once `b` cannot hear `a`, it never will, and it never puts out a byte. */
  lemma {:induction false} DeafForever(s: Sys, run: seq<Event>)
    requires Inv(s) && Deaf(s) && Allowed(s, run)
    ensures Deaf(Exec(s, run)) && Exec(s, run).b.Output() == []
    decreases |run|
  {
    if run != [] {
      StepInv(s, run[0]);
      match run[0] {
        case OnA(act) => ActSilent(s, act);
        case OnB(act) => PeerSilent(s, act);
      }
      DeafForever(Step(s, run[0]), run[1..]);
    }
  }

  // ---- When the peer is heard --------------------------------------------

  lemma RecvHears(n: Node, o: Node, p: Packet, now: int)
    requires PacketOk(o, p)
    ensures NRadio(n, p.bytes, now).st.peerConnect <==> n.st.peerConnect || IsConnect(p)
  {
    RadioKeepsUp(n.st, p.bytes, now);
    hide OnRadioRx;
  }

  /** A node hears its peer from the moment it takes in a CONNECT. */
  lemma ActHears(s: Sys, act: Act)
    requires Inv(s) && Enabled(s, act)
    ensures Next(s, act).b == s.b
    ensures Next(s, act).a.st.peerConnect <==> s.a.st.peerConnect || (act.Recv? && IsConnect(act.p))
  {
    hide NQueue;
    hide NRadio;
    hide NTick;
    hide QueueData;
    hide OnRadioRx;
    hide OnTick;
    hide PulledSeq;
    hide Half;
    hide CtrlOk;
    hide Encode;
    hide SackBlocks;
    hide FirstReady;
    hide Cut;
    hide Concat;
    hide PacketOk;
    hide IsConnect;
    match act {
      case Up(now) =>
      case Write(data, now) => QueuePeer(s.a.st.(tcpIn := s.a.st.tcpIn + data), now);
      case Read(max) =>
      case Tick(now) => TickKeepsUp(s.a.st, now);
      case Lose(p) =>
      case Pull(max, now) =>
      case Recv(p, now) => RecvHears(s.a, s.b, p, now);
    }
  }

  lemma HearStep(s: Sys, e: Event)
    requires Inv(s) && EventEnabled(s, e)
    ensures Step(s, e).b.st.peerConnect <==> s.b.st.peerConnect || Connects(e)
  {
    match e {
      case OnA(act) => ActHears(s, act);
      case OnB(act) => ActHears(Mirror(s), act);
    }
    hide Next;
    hide IsConnect;
  }

  lemma QueuePeer(s: Stream, now: int)
    ensures QueueData(s, now).peerConnect == s.peerConnect
  {
    hide Cut;
    hide NewPending;
    hide Concat;
  }

  lemma {:induction false} HeardFrom(s: Sys, run: seq<Event>)
    requires Inv(s) && Allowed(s, run)
    ensures Exec(s, run).b.st.peerConnect <==> s.b.st.peerConnect || exists e :: e in run && Connects(e)
    decreases |run|
  {
    if run != [] {
      StepInv(s, run[0]);
      HearStep(s, run[0]);
      HeardFrom(Step(s, run[0]), run[1..]);
      assert run == [run[0]] + run[1..];
    }
  }

  /** At the end of a run from the start `b` hears `a` if and only if it took in a CONNECT. */
  lemma HeardIff(start: int, run: seq<Event>)
    requires Allowed(Init(start), run)
    ensures Exec(Init(start), run).b.st.peerConnect <==> exists e :: e in run && Connects(e)
  {
    HeardFrom(Init(start), run);
  }

  // ---- When the peer can still be heard ----------------------------------

  /** A CONNECT of `a` is taken in, in flight or queued, or `a` will still queue one: it is not
      up yet, or it is connecting and the retransmit time is over before it gives up. */
  ghost predicate CanHear(s: Sys, t: int) {
    || s.b.st.peerConnect
    || (exists p :: p in s.ab && IsConnect(p))
    || s.a.st.ctrlq != []
    || !s.a.st.local
    || (Connecting(s.a.st)
        && Max(t, s.a.st.lastConnect + REXMIT) < s.a.st.connectStarted + CONNECT_TIMEOUT)
  }

  lemma {:induction false} NeverHears(s: Sys, run: seq<Event>, t: int)
    requires Inv(s) && !CanHear(s, t) && Allowed(s, run) && Clocked(run, t)
    ensures !Exec(s, run).b.st.peerConnect
    decreases |run|
  {
    if run != [] {
      StepInv(s, run[0]);
      match run[0] {
        case OnA(act) => ActSilent(s, act);
        case OnB(act) => PeerSilent(s, act);
      }
      NeverHears(Step(s, run[0]), run[1..], After(run[0].act, t));
    }
  }

  /** A stream that has not heard its peer has cut no segment. */
  ghost predicate Unheard(n: Node) { n.st.peerConnect || n.segs == [] }

  lemma UnheardStep(s: Sys, e: Event)
    requires Inv(s) && EventEnabled(s, e) && Unheard(s.b)
    ensures Unheard(Step(s, e).b)
  {
    HearStep(s, e);
    if e.OnB? && !s.b.st.peerConnect && !Step(s, e).b.st.peerConnect {
      match e.act {
        case Recv(p, now) =>
          AcknowledgeSame(s.b.st, Decode(p.bytes).value, now);
          assert PacketOk(s.a, p);
          hide Acknowledge;
          hide Decode;
        case _ =>
      }
    }
  }

  lemma {:induction false} UnheardRun(s: Sys, run: seq<Event>)
    requires Inv(s) && Unheard(s.b) && Allowed(s, run)
    ensures Inv(Exec(s, run)) && Unheard(Exec(s, run).b)
    decreases |run|
  {
    if run != [] {
      StepInv(s, run[0]);
      UnheardStep(s, run[0]);
      UnheardRun(Step(s, run[0]), run[1..]);
    }
  }

  /** The run leads, within its clock, to a state in which `b` hears `a`. */
  ghost predicate Reaches(s: Sys, run: seq<Event>, t: int) {
    Allowed(s, run) && Clocked(run, t) && Exec(s, run).b.st.peerConnect
  }

  lemma ReachCons(s: Sys, e: Event, run: seq<Event>, t: int)
    requires EventEnabled(s, e) && t <= After(e.act, t) && Reaches(Step(s, e), run, After(e.act, t))
    ensures Reaches(s, [e] + run, t)
  {
    Cons(s, e, run);
    assert ([e] + run)[0] == e && ([e] + run)[1..] == run;
  }

  lemma FromFlight(s: Sys, p: Packet, t: int) returns (run: seq<Event>)
    requires Inv(s) && Unheard(s.b) && p in s.ab && IsConnect(p)
    ensures Reaches(s, run, t)
  {
    if s.b.st.peerConnect {
      run := [];
    } else {
      var e := OnB(Recv(p, t));
      assert PacketOk(s.a, p) && s.b.Acked() == 0;
      RadioKeepsUp(s.b.st, p.bytes, t);
      ReachCons(s, e, [], t);
      run := [e] + [];
    }
  }

  lemma FromQueue(s: Sys, t: int) returns (run: seq<Event>)
    requires Inv(s) && Unheard(s.b) && s.a.st.ctrlq != []
    ensures Reaches(s, run, t)
  {
    var e := OnA(Pull(HEADER, t));
    var m := Step(s, e);
    var p := Packet(PullTx(s.a.st, HEADER, t).frame, PulledSeq(s.a, HEADER), s.a.rcvd);
    assert s.a.st.ctrlq[0] in s.a.st.ctrlq;
    DecodeEncode(TYPE_CONNECT, s.a.st.ctrlq[0].seqNo, s.a.st.rxSeq, []);
    assert IsConnect(p) && p in m.ab;
    StepInv(s, e);
    var rest := FromFlight(m, p, t);
    ReachCons(s, e, rest, t);
    run := [e] + rest;
  }

  lemma ToHear(s: Sys, t: int) returns (run: seq<Event>)
    requires Inv(s) && Unheard(s.b) && CanHear(s, t)
    ensures Reaches(s, run, t)
  {
    hide Inv;
    hide NTick;
    hide OnTick;
    hide IsConnect;
    if s.b.st.peerConnect {
      run := [];
    } else if p :| p in s.ab && IsConnect(p) {
      run := FromFlight(s, p, t);
    } else if s.a.st.ctrlq != [] {
      run := FromQueue(s, t);
    } else {
      var now := Max(t, s.a.st.lastConnect + REXMIT);
      var e := if s.a.st.local then OnA(Tick(now)) else OnA(Up(t));
      StepInv(s, e);
      if s.a.st.local { TickKeepsUp(s.a.st, now); }
      var rest := FromQueue(Step(s, e), After(e.act, t));
      ReachCons(s, e, rest, t);
      run := [e] + rest;
    }
  }

  /** From every reachable state, at any time: some continuation lets `b` hear `a` if and only
      if CanHear says so. */
  lemma CanHearIff(start: int, past: seq<Event>, t: int)
    requires Allowed(Init(start), past)
    ensures var s := Exec(Init(start), past);
            CanHear(s, t) <==> exists run :: Reaches(s, run, t)
  {
    UnheardRun(Init(start), past);
    var s := Exec(Init(start), past);
    if CanHear(s, t) {
      var run := ToHear(s, t);
    }
    forall run | Reaches(s, run, t) ensures CanHear(s, t) {
      if !CanHear(s, t) { NeverHears(s, run, t); }
    }
  }

  /** One lost frame leads there. */
  lemma DeafReachable(now: int)
    ensures exists run :: Allowed(Init(now), run) && Deaf(Exec(Init(now), run))
                          && Exec(Init(now), run).a.st.Established()
  {
    var s0 := Init(now);
    var e1 := OnA(Up(now));
    var s1 := Step(s0, e1);
    var e2 := OnA(Pull(8, now));
    var s2 := Step(s1, e2);
    var p := Packet(PullTx(s1.a.st, 8, now).frame, PulledSeq(s1.a, 8), s1.a.rcvd);
    assert s2.ab == {p};
    var e3 := OnB(Lose(p));
    var s3 := Step(s2, e3);
    assert s3.ab == {};
    var e4 := OnB(Up(now));
    var s4 := Step(s3, e4);
    var e5 := OnB(Pull(8, now));
    var s5 := Step(s4, e5);
    var q := Packet(PullTx(s4.b.st, 8, now).frame, PulledSeq(s4.b, 8), s4.b.rcvd);
    assert q in s5.ba;
    DecodeEncode(TYPE_CONNECT, 0, 0, []);
    assert Decode(q.bytes) == Some(Frame(TYPE_CONNECT, 0, 0, []));
    var e6 := OnA(Recv(q, now));
    assert EventEnabled(s5, e6);
    var s6 := Step(s5, e6);
    assert s6.a.st.Established() && s6.a.st.ctrlq == [] && !s6.b.st.peerConnect && s6.ab == {};
    Cons(s5, e6, []);
    Cons(s4, e5, [e6]);
    Cons(s3, e4, [e5] + [e6]);
    Cons(s2, e3, [e4] + ([e5] + [e6]));
    Cons(s1, e2, [e3] + ([e4] + ([e5] + [e6])));
    Cons(s0, e1, [e2] + ([e3] + ([e4] + ([e5] + [e6]))));
  }

  lemma Cons(s: Sys, e: Event, run: seq<Event>)
    requires EventEnabled(s, e) && Allowed(Step(s, e), run)
    ensures Allowed(s, [e] + run) && Exec(s, [e] + run) == Exec(Step(s, e), run)
  {
    assert ([e] + run)[1..] == run;
  }
}
