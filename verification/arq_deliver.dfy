/** Rounds one after the other: every byte the application wrote comes out. */
module ArqDelivery {
  import opened Bytes
  import opened ArqSpec
  import opened ArqLink
  import opened ArqSteps
  import opened ArqRound

  /** Bytes that a full window carries. */
  const WINDOW_BYTES: nat := WINDOW * MAX_SEGMENT

  function Round(s: Sys, max: nat, now: int): Sys { Reply(Sending(s, max, now), max, now) }

  /** One round at each of the times. */
  function Rounds(s: Sys, max: nat, times: seq<int>): Sys
    decreases |times|
  {
    if times == [] then s else Rounds(Round(s, max, times[0]), max, times[1..])
  }

  /** A cut takes as much as the room allows. */
  lemma {:induction false} CutTakes(data: seq<byte>, room: nat)
    ensures |Concat(Cut(data, room))| == Min(|data|, room * MAX_SEGMENT)
    decreases room
  {
    if room > 0 && data != [] {
      var n := Min(|data|, MAX_SEGMENT);
      CutTakes(data[n..], room - 1);
      var rest := Cut(data[n..], room - 1);
      assert ([data[..n]] + rest)[1..] == rest;
    }
  }

  /** A tick of an established stream cuts if nothing is outstanding, and drops no byte. */
  lemma TickCuts(n: Node, now: int)
    requires n.st.Established() && 0 <= n.Acked()
    ensures var m := NTick(n, now);
            && m.app == n.app && m.st.Established() && |m.st.tcpIn| <= |n.st.tcpIn|
            && (m.st.unacked == [] ==> m.st.tcpIn == [])
  {
    hide Concat;
  }

  /** What a round leaves: everything cut before the reply is held, the rest is shorter by a window. */
  ghost predicate Advanced(s: Sys, r: Sys) {
    && Inv(r) && Open(r.b) && r.a.st.Established() && r.a.app == s.a.app
    && (forall i :: 0 <= i < |r.a.st.unacked| ==> !r.a.st.unacked[i].inFlight)
    && |r.a.st.tcpIn| <= Max(0, |s.a.st.tcpIn| - WINDOW_BYTES)
    && (s.a.st.tcpIn == [] ==> r.b.Output() == r.a.app && r.a.st.unacked == [])
  }

  lemma FreshCut(n: Node, m: Node, cut: seq<seq<byte>>)
    requires Refilled(n, m, cut)
    requires cut == [] || cut == Cut(n.st.tcpIn, WINDOW)
    requires n.st.tcpIn == [] || cut == Cut(n.st.tcpIn, WINDOW)
    ensures forall i :: 0 <= i < |m.st.unacked| ==> !m.st.unacked[i].inFlight
    ensures |m.st.tcpIn| <= Max(0, |n.st.tcpIn| - WINDOW_BYTES)
  {
    CutTakes(n.st.tcpIn, WINDOW);
    hide Cut;
    hide Concat;
  }

  lemma SendingFacts(s: Sys, max: nat, now: int)
    requires Inv(s) && Open(s.b) && s.a.st.Established() && Elapsed(s.a.st, now) && max >= FRAME_MAX
    ensures var f := Sending(s, max, now);
            && Inv(f) && Open(f.b) && f.b.rcvd == |f.a.segs|
            && f.a.st.Established() && f.a.app == s.a.app && |f.a.st.tcpIn| <= |s.a.st.tcpIn|
            && (f.a.st.unacked == [] ==> f.a.st.tcpIn == [])
            && (f.a.st.unacked != [] ==> f.b.st.ackPending)
  {
    TickHeld(s, now);
    AckedNat(s);
    TickCuts(s.a, now);
    var t := Step(s, OnA(Tick(now)));
    assert t.a == NTick(s.a, now);
    AckedNat(t);
    FlushHeld(t, max, now);
    FlushedAll(Sending(s, max, now), max, now);
    hide Inv;
    hide SentHeld;
    hide Flush;
    hide Step;
    hide PullTx;
    hide NTick;
  }

  lemma ReplyOpen(f: Sys, max: nat, now: int)
    requires Inv(f) && Open(f.b)
    ensures Open(Reply(f, max, now).b)
  {
    if PullTx(f.b.st, max, now).frame != [] {
      FeedShape(Mirror(f), max, now);
      PullOpen(f.b.st, max, now);
      hide Feed;
      hide PullTx;
    }
  }

  lemma PullOpen(s: Stream, max: nat, now: int)
    ensures PullTx(s, max, now).st.peerConnect == s.peerConnect && PullTx(s, max, now).st.peerClose == s.peerClose
  {
    hide Encode;
    hide SackBlocks;
    hide FirstReady;
  }

  lemma RoundAdvances(s: Sys, max: nat, now: int)
    requires Inv(s) && Open(s.b) && s.a.st.Established() && Elapsed(s.a.st, now) && max >= FRAME_MAX
    ensures Advanced(s, Round(s, max, now))
  {
    hide Inv;
    hide Sending;
    hide Reply;
    hide Cut;
    hide Concat;
    hide Elapsed;
    hide NewPending;
    var f := Sending(s, max, now);
    var r := Reply(f, max, now);
    SendingFacts(s, max, now);
    OutputAll(f);
    ReplyOpen(f, max, now);
    ReplyAcks(f, max, now);
    var cut := ReplyRefills(f, max, now);
    assert f.a.st.tcpIn == [] || cut == Cut(f.a.st.tcpIn, WINDOW);
    FreshCut(f.a, r.a, cut);
    if s.a.st.tcpIn == [] {
      NothingCut(f.a, r.a, cut);
      assert f.b.Output() + [] == f.b.Output();
    }
    assert r.a.app == s.a.app && r.a.st.Established();
  }

  /** After a round the next one may start at any time. */
  lemma RoundAgain(s: Sys, r: Sys, rounds: nat, now: int)
    requires Advanced(s, r) && 0 < rounds && |s.a.st.tcpIn| <= rounds * WINDOW_BYTES
    ensures Elapsed(r.a.st, now) && |r.a.st.tcpIn| <= (rounds - 1) * WINDOW_BYTES
  {
    hide Inv;
  }

  /** Whatever the times of the rounds after the first: as many windows as hold the waiting
      bytes, and one round more, and the peer has put out all the application wrote. */
  lemma {:induction false} RoundsDeliver(s: Sys, max: nat, times: seq<int>)
    requires Inv(s) && Open(s.b) && s.a.st.Established() && max >= FRAME_MAX
    requires times != [] && Elapsed(s.a.st, times[0]) && |s.a.st.tcpIn| <= (|times| - 1) * WINDOW_BYTES
    ensures var r := Rounds(s, max, times);
            r.b.Output() == s.a.app && r.a.app == s.a.app && r.a.st.unacked == []
    decreases |times|
  {
    hide Inv;
    hide Round;
    RoundAdvances(s, max, times[0]);
    var r := Round(s, max, times[0]);
    if |times| == 1 {
      assert s.a.st.tcpIn == [] && Rounds(r, max, times[1..]) == r;
    } else {
      RoundAgain(s, r, |times| - 1, times[1]);
      hide Advanced;
      hide Elapsed;
      RoundsDeliver(r, max, times[1..]);
    }
  }

  /** From every reachable state with both sides connected; three rounds do, since the stream
      is never offered more than two windows of waiting bytes. */
  lemma ReachableDelivery(start: int, run: seq<Event>, max: nat, times: seq<int>)
    requires Allowed(Init(start), run)
    requires var s := Exec(Init(start), run);
             && Open(s.b) && s.a.st.Established() && times != [] && Elapsed(s.a.st, times[0])
             && |s.a.st.tcpIn| <= (|times| - 1) * WINDOW_BYTES
    requires max >= FRAME_MAX
    ensures var s := Exec(Init(start), run);
            var r := Rounds(s, max, times);
            r.b.Output() == s.a.app && r.a.st.unacked == []
  {
    RunInv(Init(start), run);
    RoundsDeliver(Exec(Init(start), run), max, times);
  }
}
