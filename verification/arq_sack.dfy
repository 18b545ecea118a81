/** What an acknowledgement frame names, exactly, and what that spares the sender. */
module ArqSack {
  import opened Bytes
  import opened ArqSpec
  import opened ArqLink
  import opened ArqSteps
  import opened ArqHear

  // ---- What is named -----------------------------------------------------

  /** A run of consecutive buffered numbers begins here. */
  predicate StartsRun(keys: set<u16>, s: u16) { s in keys && (s == 0 || s - 1 !in keys) }

  /** First numbers of the runs from `from` up to `v`. */
  function RunStarts(keys: set<u16>, from: nat, v: u16): set<u16> {
    set s | s in keys && from <= s <= v && StartsRun(keys, s)
  }

  /** How many blocks of four bytes fit, at most eight. */
  function Blocks(used: nat, room: nat): nat
    requires used <= MAX_SACK_BLOCKS
  {
    Min(MAX_SACK_BLOCKS - used, room / SACK_BLOCK)
  }

  lemma {:induction false} SubsetSize(a: set<u16>, b: set<u16>)
    requires a <= b
    ensures |a| <= |b|
  {
    if a != {} {
      var x :| x in a;
      SubsetSize(a - {x}, b - {x});
    }
  }

  /** A run is no longer than the buffer. */
  lemma {:induction false} RunFits(keys: set<u16>, sn: nat)
    requires sn <= 65536
    ensures RunLength(keys, sn) <= |keys|
    decreases 65536 - sn
  {
    if sn < 65536 && sn in keys {
      var rest := keys - {sn};
      RunFits(rest, sn + 1);
      RunIgnores(keys, sn, sn + 1);
      assert |rest| == |keys| - 1;
    }
  }

  lemma {:induction false} RunIgnores(keys: set<u16>, x: u16, sn: nat)
    requires x < sn <= 65536
    ensures RunLength(keys - {x}, sn) == RunLength(keys, sn)
    decreases 65536 - sn
  {
    if sn < 65536 && sn in keys { RunIgnores(keys, x, sn + 1); }
  }

  /** The block of the run that starts at `sn` covers just that run. */
  lemma BlockIsRun(keys: set<u16>, sn: u16, v: u16)
    requires sn in keys && |keys| <= WINDOW
    ensures var n := RunLength(keys, sn);
            n % 65536 == n && (BlockCovers(sn, n % 65536, v) <==> sn <= v < sn + n)
  {
    RunFits(keys, sn);
  }

  /** The first run from `from` on takes the numbers from sn up to next. */
  ghost predicate FirstRun(keys: set<u16>, from: nat, sn: nat, next: nat) {
    && from <= sn < next <= 65536 && StartsRun(keys, sn)
    && (forall j :: from <= j < sn ==> j !in keys)
    && (forall j :: sn <= j < next ==> j in keys)
    && (next < 65536 ==> next !in keys)
  }

  lemma RunBegins(keys: set<u16>, sn: nat)
    requires sn < 65536 && sn in keys
    ensures RunLength(keys, sn) > 0
  {
  }

  lemma FirstRunIs(keys: set<u16>, from: nat)
    requires from <= 65536 && LeastFrom(keys, from) < 65536 && (from == 0 || from !in keys)
    ensures FirstRun(keys, from, LeastFrom(keys, from), LeastFrom(keys, from) + RunLength(keys, LeastFrom(keys, from)))
  {
    hide LeastFrom;
    hide RunLength;
    var sn := LeastFrom(keys, from);
    RunBegins(keys, sn);
    if sn > from { assert sn - 1 !in keys; }
  }

  /** Inside the first run there is one start. */
  lemma StartsInRun(keys: set<u16>, from: nat, sn: nat, next: nat, v: u16)
    requires FirstRun(keys, from, sn, next) && sn <= v < next
    ensures |RunStarts(keys, from, v)| == 1
  {
    forall s | s in RunStarts(keys, from, v) ensures s == sn {
      assert sn < s < next ==> s - 1 in keys;
    }
    assert RunStarts(keys, from, v) == {sn};
  }

  /** Behind it there is one more than from its end on. */
  lemma StartsBehindRun(keys: set<u16>, from: nat, sn: nat, next: nat, v: u16)
    requires FirstRun(keys, from, sn, next) && v in keys && v >= next
    ensures |RunStarts(keys, from, v)| == 1 + |RunStarts(keys, next, v)|
  {
    var rest := RunStarts(keys, next, v);
    forall s | s in RunStarts(keys, from, v) ensures s == sn || s in rest {
      assert sn < s < next ==> s - 1 in keys;
    }
    assert RunStarts(keys, from, v) == {sn} + rest;
  }

  /** The block list covers exactly the numbers of the first runs, as many as there are blocks. */
  lemma {:induction false} SackExact(keys: set<u16>, from: nat, used: nat, room: nat, v: u16)
    requires |keys| <= WINDOW && from <= 65536 && used <= MAX_SACK_BLOCKS && (from == 0 || from !in keys)
    ensures Covers(SackBlocks(keys, from, used, room), v)
            <==> v in keys && from <= v && |RunStarts(keys, from, v)| <= Blocks(used, room)
    decreases MAX_SACK_BLOCKS - used
  {
    hide SackBlocks;
    hide Covers;
    hide LeastFrom;
    hide RunLength;
    hide RunStarts;
    hide BlockCovers;
    CoversNothing(v);
    SackUnfold(keys, from, used, room);
    var sn := LeastFrom(keys, from);
    if sn == 65536 {
      assert from <= v ==> v !in keys;
    } else {
      FirstRunIs(keys, from);
      var n := RunLength(keys, sn);
      if used < MAX_SACK_BLOCKS && room >= SACK_BLOCK {
        BlockIsRun(keys, sn, v);
        CoversCons(sn, n % 65536, SackBlocks(keys, sn + n, used + 1, room - SACK_BLOCK), v);
        SackExact(keys, sn + n, used + 1, room - SACK_BLOCK, v);
        if sn <= v < sn + n { StartsInRun(keys, from, sn, sn + n, v); }
        if v in keys && v >= sn + n { StartsBehindRun(keys, from, sn, sn + n, v); }
      } else if v in keys && from <= v {
        StartsSome(keys, from, v);
      }
    }
  }

  lemma StartsSome(keys: set<u16>, from: nat, v: u16)
    requires from <= v && v in keys && (from == 0 || from !in keys)
    ensures |RunStarts(keys, from, v)| > 0
    decreases v
  {
    if StartsRun(keys, v) {
      assert v in RunStarts(keys, from, v);
    } else {
      StartsSome(keys, from, v - 1);
      SubsetSize(RunStarts(keys, from, v - 1), RunStarts(keys, from, v));
    }
  }

  /** The acknowledgement a pull yields names exactly the numbers of the first runs buffered. */
  lemma AckNames(s: Stream, max: nat, now: int)
    requires s.ctrlq == [] && s.ackPending && max >= HEADER && |s.reorder| <= WINDOW
    ensures var f := Decode(PullTx(s, max, now).frame);
            && f.Some? && f.value.kind == TYPE_ACK && f.value.ack == s.rxSeq
            && forall v: u16 :: Covers(f.value.payload, v)
                 <==> v in s.reorder && |RunStarts(s.reorder.Keys, 0, v)| <= Blocks(0, max - HEADER)
  {
    hide SackBlocks;
    hide Covers;
    hide RunStarts;
    hide Blocks;
    hide PullTx;
    hide Decode;
    PulledAck(s, max, now);
    assert |s.reorder.Keys| == |s.reorder|;
    forall v: u16
      ensures Covers(SackBlocks(s.reorder.Keys, 0, 0, max - HEADER), v)
              <==> v in s.reorder && |RunStarts(s.reorder.Keys, 0, v)| <= Blocks(0, max - HEADER)
    {
      SackExact(s.reorder.Keys, 0, 0, max - HEADER, v);
    }
  }

  lemma PulledAck(s: Stream, max: nat, now: int)
    requires s.ctrlq == [] && s.ackPending && max >= HEADER
    ensures Decode(PullTx(s, max, now).frame)
            == Some(Frame(TYPE_ACK, s.txSeq, s.rxSeq, SackBlocks(s.reorder.Keys, 0, 0, max - HEADER)))
  {
    hide Decode;
    hide Encode;
    DecodeEncode(TYPE_ACK, s.txSeq, s.rxSeq, SackBlocks(s.reorder.Keys, 0, 0, max - HEADER));
  }

  /** If the runs are at most eight and the frame has room for their blocks, all is named. */
  lemma AckNamesAll(s: Stream, max: nat, now: int)
    requires s.ctrlq == [] && s.ackPending && |s.reorder| <= WINDOW
    requires var runs := |RunStarts(s.reorder.Keys, 0, 65535)|;
             runs <= MAX_SACK_BLOCKS && max >= HEADER + SACK_BLOCK * runs
    ensures var f := Decode(PullTx(s, max, now).frame);
            f.Some? && f.value.kind == TYPE_ACK && forall v: u16 :: Covers(f.value.payload, v) <==> v in s.reorder
  {
    hide Covers;
    hide Decode;
    hide PullTx;
    AckNames(s, max, now);
    forall v: u16 | v in s.reorder ensures |RunStarts(s.reorder.Keys, 0, v)| <= Blocks(0, max - HEADER) {
      SubsetSize(RunStarts(s.reorder.Keys, 0, v), RunStarts(s.reorder.Keys, 0, 65535));
    }
  }

  lemma {:induction false} Injects(keys: set<u16>, y: Node, low: nat, high: nat)
    requires low <= high && forall v :: v in keys ==> low <= TrueSeq(y, v) < high
    ensures |keys| <= high - low
    decreases high - low
  {
    if low == high {
      assert keys == {};
    } else {
      hide TrueSeq;
      var hit := set v | v in keys && TrueSeq(y, v) == low;
      AtMostOne(hit, y, low);
      Injects(keys - hit, y, low + 1, high);
      assert keys == (keys - hit) + hit;
    }
  }

  lemma AtMostOne(hit: set<u16>, y: Node, low: nat)
    requires forall v :: v in hit ==> TrueSeq(y, v) == low
    ensures |hit| <= 1
  {
    hide TrueSeq;
    if hit != {} {
      var x :| x in hit;
      forall v | v in hit ensures v == x { TrueSeqApart(y, v, x); }
      assert hit == {x};
    }
  }

  lemma TrueSeqApart(y: Node, v: u16, w: u16)
    requires TrueSeq(y, v) == TrueSeq(y, w)
    ensures v == w
  {
  }

  /** The reorder buffer never holds more than a window. */
  lemma BufferSmall(y: Node, segs: seq<seq<byte>>)
    requires Receiver(y, segs)
    ensures |y.st.reorder| <= WINDOW
  {
    hide Concat;
    Injects(y.st.reorder.Keys, y, y.rcvd, y.rcvd + WINDOW);
    assert |y.st.reorder.Keys| == |y.st.reorder|;
  }

  // ---- What is named is not sent again -----------------------------------

  /** Segment `t` is acknowledged or marked sacked. */
  ghost predicate Marked(n: Node, t: nat) {
    t < n.Acked() || (0 <= t - n.Acked() < |n.st.unacked| && n.st.unacked[t - n.Acked()].sacked)
  }

  lemma AckMarked(n: Node, f: Frame, now: int, t: nat)
    requires Marked(n, t)
    ensures Marked(n.(st := Acknowledge(n.st, f, now)), t)
  {
    hide Covers;
  }

  lemma FrameMarked(n: Node, f: Frame, now: int, t: nat)
    requires f.kind in {TYPE_DATA, TYPE_ACK, TYPE_CONNECT}
    requires Marked(n.(st := Acknowledge(n.st, f, now)), t)
    ensures Marked(NFrame(n, f, now), t)
  {
    var m := n.(st := Acknowledge(n.st, f, now));
    DeliverSame(m.st, f.seqNo, f.payload);
    DeliverHistory(m, f.seqNo, f.payload);
    hide Acknowledge;
    hide Deliver;
    hide NDeliver;
  }

  lemma QueueMarked(n: Node, now: int, t: nat)
    requires Marked(n, t)
    ensures Marked(NQueue(n, now), t)
  {
    hide Cut;
    hide Concat;
  }

  lemma SameMarked(n: Node, m: Node, t: nat)
    requires Marked(n, t) && SameWindow(n, m)
    ensures Marked(m, t)
  {
  }

  lemma TickMarked(n: Node, now: int, t: nat)
    requires Marked(n, t)
    ensures Marked(NTick(n, now), t)
  {
    hide Marked;
    hide NQueue;
    var x := n.st.(unacked := ExpireAll(n.st.unacked, now));
    var u := RetryConnect(x, now);
    TickWindow(n, now);
    SameMarked(n, n.(st := u), t);
    QueueMarked(n.(st := u), now, t);
    SameMarked(n, NTickStop(n, now), t);
  }

  /** A tick that gives up cuts nothing. */
  function NTickStop(n: Node, now: int): Node {
    var x := n.st.(unacked := ExpireAll(n.st.unacked, now));
    if Connecting(x) && now - x.connectStarted >= CONNECT_TIMEOUT then n.(st := x.(connectGiveUp := true))
    else n.(st := RetryConnect(x, now).(stallGiveUp := true))
  }

  /** A mark stays, whatever the node does and receives. */
  lemma ActMarked(s: Sys, act: Act, t: nat)
    requires Inv(s) && Enabled(s, act) && Marked(s.a, t)
    ensures Marked(Next(s, act).a, t)
  {
    hide Marked;
    hide NQueue;
    hide NFrame;
    hide NTick;
    hide PullTx;
    match act {
      case Up(now) => SameMarked(s.a, Next(s, act).a, t);
      case Write(data, now) =>
        var n := s.a.(st := s.a.st.(tcpIn := s.a.st.tcpIn + data), app := s.a.app + data);
        BytesMarked(s.a, n, t);
        QueueMarked(n, now, t);
      case Read(max) => BytesMarked(s.a, NRead(s.a, max), t);
      case Tick(now) => TickMarked(s.a, now, t);
      case Lose(p) =>
      case Pull(max, now) =>
        PullWindow(s.a, max, now);
        SameMarked(s.a, Next(s, act).a, t);
      case Recv(p, now) =>
        InvFrame(s, p);
        var f := Decode(p.bytes).value;
        AckMarked(s.a, f, now, t);
        FrameMarked(s.a, f, now, t);
        QueueMarked(NFrame(s.a, f, now), now, t);
    }
  }

  lemma BytesMarked(n: Node, m: Node, t: nat)
    requires Marked(n, t) && m.segs == n.segs && m.st.unacked == n.st.unacked
    ensures Marked(m, t)
  {
  }

  lemma InvFrame(s: Sys, p: Packet)
    requires Inv(s) && p in s.ba
    ensures PacketOk(s.b, p) && Decode(p.bytes).Some?
    ensures Decode(p.bytes).value.kind in {TYPE_DATA, TYPE_ACK, TYPE_CONNECT}
  {
    hide Half;
    hide SackOk;
    assert PacketOk(s.b, p);
  }

  lemma PeerMarked(s: Sys, act: Act, t: nat)
    requires Marked(s.a, t)
    ensures Marked(Mirror(Next(Mirror(s), act)).a, t)
  {
    hide Marked;
  }

  lemma {:induction false} RunMarked(s: Sys, run: seq<Event>, t: nat)
    requires Inv(s) && Allowed(s, run) && Marked(s.a, t)
    ensures Inv(Exec(s, run)) && Marked(Exec(s, run).a, t)
    decreases |run|
  {
    hide Inv;
    hide Marked;
    if run != [] {
      StepInv(s, run[0]);
      match run[0] {
        case OnA(act) => ActMarked(s, act, t);
        case OnB(act) => PeerMarked(s, act, t);
      }
      RunMarked(Step(s, run[0]), run[1..], t);
    }
  }

  /** A marked segment is never the one a pull takes. */
  lemma MarkedStays(n: Node, max: nat, t: nat)
    requires 0 <= n.Acked() && Marked(n, t) && FirstReady(n.st.unacked, max) < |n.st.unacked|
    ensures PulledSeq(n, max) != t
  {
  }

  /** What taking in an acknowledgement that names segment `t` does. */
  lemma NamedMarked(n: Node, o: Node, p: Packet, now: int, t: nat)
    requires Kept(n, n, o) && PacketOk(o, p) && Timely(n, p) && p.ackNo <= t < |n.segs|
    requires Decode(p.bytes).value.kind == TYPE_ACK && Covers(Decode(p.bytes).value.payload, t % WRAP)
    ensures Marked(NRadio(n, p.bytes, now), t)
  {
    hide NQueue;
    hide NFrame;
    hide Covers;
    hide SackOk;
    var f := Decode(p.bytes).value;
    AckStep(n, o, f.ack, p.ackNo, now);
    var m := n.(st := ApplyAck(n.st, f.ack, now));
    CoveredMarked(m, o, f.payload, t);
    CoversNothing(t % WRAP);
    assert n.(st := Acknowledge(n.st, f, now)) == m.(st := ApplySack(m.st, f.payload));
    hide Half;
    hide Marked;
    FrameMarked(n, f, now, t);
    QueueMarked(NFrame(n, f, now), now, t);
  }

  lemma CoveredMarked(m: Node, o: Node, blocks: seq<byte>, t: nat)
    requires Half(m, o) && t < |m.segs| && Covers(blocks, t % WRAP)
    ensures Marked(m.(st := ApplySack(m.st, blocks)), t)
  {
    hide Covers;
    hide Concat;
    hide Receiver;
    hide SackedHeld;
    if t >= m.Acked() {
      var i := t - m.Acked();
      assert m.st.unacked[i].seqNo == t % WRAP;
    }
  }

  /** The state after the peer puts its acknowledgement on the air. */
  function Acking(s: Sys, max: nat, now: int): Sys { Step(s, OnB(Pull(max, now))) }

  function AckPacket(s: Sys, max: nat, now: int): Packet {
    Packet(PullTx(s.b.st, max, now).frame, PulledSeq(s.b, max), s.b.rcvd)
  }

  /** Selective repeat, from end to end. Let the peer hold segment `t` out of order, in one of the
      first runs that its acknowledgement has blocks for. Whenever that acknowledgement arrives,
      late or repeated, the segment is marked, and no pull after that, in any run, takes it. */
  lemma NamedNotResent(s: Sys, max: nat, now: int, t: nat, flight: seq<Event>, later: int, after: seq<Event>)
    requires Inv(s) && s.b.st.ctrlq == [] && s.b.st.ackPending && max >= HEADER
    requires s.b.rcvd < t < s.b.rcvd + WINDOW && t % WRAP in s.b.st.reorder
    requires |RunStarts(s.b.st.reorder.Keys, 0, t % WRAP)| <= Min(MAX_SACK_BLOCKS, (max - HEADER) / SACK_BLOCK)
    requires Allowed(Acking(s, max, now), flight)
    requires EventEnabled(Exec(Acking(s, max, now), flight), OnA(Recv(AckPacket(s, max, now), later)))
    requires Allowed(Step(Exec(Acking(s, max, now), flight), OnA(Recv(AckPacket(s, max, now), later))), after)
    ensures var u := Step(Exec(Acking(s, max, now), flight), OnA(Recv(AckPacket(s, max, now), later)));
            && Marked(u.a, t) && Marked(Exec(u, after).a, t)
            && forall m: nat :: FirstReady(Exec(u, after).a.st.unacked, m) < |Exec(u, after).a.st.unacked|
                 ==> PulledSeq(Exec(u, after).a, m) != t
  {
    hide Inv;
    hide Marked;
    hide Covers;
    hide PullTx;
    hide RunStarts;
    hide Decode;
    hide FirstReady;
    hide PulledSeq;
    hide Half;
    var m := Acking(s, max, now);
    var p := AckPacket(s, max, now);
    var d := Exec(m, flight);
    StepInv(s, OnB(Pull(max, now)));
    RunGrows(m, flight);
    InvParts(s);
    BufferSmall(s.b, s.a.segs);
    AckNames(s.b.st, max, now);
    HeldCut(s, t);
    InvParts(d);
    assert PacketOk(d.b, p) by { InvFrame(d, p); }
    NamedMarked(d.a, d.b, p, later, t);
    var e := OnA(Recv(p, later));
    StepInv(d, e);
    var u := Step(d, e);
    RunMarked(u, after, t);
    InvParts(Exec(u, after));
    forall k: nat | FirstReady(Exec(u, after).a.st.unacked, k) < |Exec(u, after).a.st.unacked|
      ensures PulledSeq(Exec(u, after).a, k) != t
    {
      MarkedStays(Exec(u, after).a, k, t);
    }
  }

  lemma InvParts(s: Sys)
    requires Inv(s)
    ensures Half(s.a, s.b) && Half(s.b, s.a) && Receiver(s.b, s.a.segs) && Kept(s.a, s.a, s.b) && 0 <= s.a.Acked()
  {
    hide Receiver;
    hide SackedHeld;
    hide NetOk;
    hide Held;
    hide Aside;
  }

  /** What the peer holds has been cut. */
  lemma HeldCut(s: Sys, t: nat)
    requires Inv(s) && s.b.rcvd < t < s.b.rcvd + WINDOW && t % WRAP in s.b.st.reorder
    ensures t < |s.a.segs|
  {
    hide Concat;
    hide NetOk;
    hide Sender;
    hide SackedHeld;
    ModDelta(t, s.b.rcvd);
    assert TrueSeq(s.b, t % WRAP) == t;
  }

  /** No run takes a segment back. */
  lemma {:induction false} RunGrows(s: Sys, run: seq<Event>)
    requires Inv(s) && Allowed(s, run)
    ensures Inv(Exec(s, run)) && s.a.segs <= Exec(s, run).a.segs
    decreases |run|
  {
    hide Inv;
    if run != [] {
      StepInv(s, run[0]);
      StepGrows(s, run[0]);
      RunGrows(Step(s, run[0]), run[1..]);
    }
  }

  lemma StepGrows(s: Sys, e: Event)
    requires Inv(s) && EventEnabled(s, e)
    ensures s.a.segs <= Step(s, e).a.segs
  {
    if e.OnA? { ActKept(s, e.act); }
    hide Inv;
    hide Half;
    hide Aside;
    hide Held;
    hide CtrlOk;
  }
}
