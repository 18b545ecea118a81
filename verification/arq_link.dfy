/** Two streams joined by a radio that loses, duplicates, delays and reorders frames.
    Unbounded counters stand beside the 16-bit ones; the invariant relates the sender,
    the receiver and every frame still in flight. */
module ArqLink {
  import opened Bytes
  import opened ArqSpec

  const WRAP: nat := 65536

  /** A delivered frame lags less than this many segments behind. */
  const STALE: nat := WRAP - WINDOW

  /** A stream with its history: bytes its application wrote, segments cut from them,
      number of peer segments received in order, bytes its application has read, and every
      value that number has had between two frames (the acknowledgements it can have sent). */
  datatype Node = Node(st: Stream, app: seq<byte>, segs: seq<seq<byte>>, rcvd: nat, pulled: seq<byte>,
                       rests: set<nat>)
  {
    function Acked(): int { |segs| - |st.unacked| }
    /** Everything the receiving half has put out so far. */
    function Output(): seq<byte> { pulled + st.tcpOut }
  }

  /** A frame on the air; `seqNo` and `ackNo` are the true counters behind its 16-bit fields. */
  datatype Packet = Packet(bytes: seq<byte>, seqNo: nat, ackNo: nat)

  // ---- Invariant -------------------------------------------------------

  ghost predicate Sender(x: Node) {
    && 0 <= x.Acked() && |x.st.unacked| <= WINDOW
    && x.st.txSeq == |x.segs| % WRAP
    && x.st.txAcked == x.Acked() % WRAP
    && (forall i :: 0 <= i < |x.st.unacked| ==>
          && x.st.unacked[i].seqNo == (x.Acked() + i) % WRAP
          && x.st.unacked[i].payload == x.segs[x.Acked() + i])
    && Concat(x.segs) + x.st.tcpIn == x.app
    && (forall i :: 0 <= i < |x.segs| ==> 1 <= |x.segs[i]| <= MAX_SEGMENT)
  }

  /** The true number behind a buffered 16-bit sequence number. */
  function TrueSeq(y: Node, v: u16): nat { y.rcvd + (v - y.st.rxSeq) % WRAP }

  ghost predicate Buffered(y: Node, segs: seq<seq<byte>>) {
    forall v :: v in y.st.reorder ==>
      TrueSeq(y, v) < y.rcvd + WINDOW && TrueSeq(y, v) < |segs| && y.st.reorder[v] == segs[TrueSeq(y, v)]
  }

  /** The receiving half between two moves from the reorder buffer. */
  ghost predicate Draining(y: Node, segs: seq<seq<byte>>) {
    && y.rcvd <= |segs| && y.st.rxSeq == y.rcvd % WRAP
    && y.Output() == Concat(segs[..y.rcvd])
    && Buffered(y, segs)
  }

  ghost predicate Receiver(y: Node, segs: seq<seq<byte>>) {
    && Draining(y, segs)
    && y.st.rxSeq !in y.st.reorder
    && (!y.st.peerConnect ==> y.rcvd == 0 && y.st.reorder == map[] && y.Output() == [])
  }

  /** Segment `t` has been put out or is buffered. */
  ghost predicate Held(y: Node, t: nat) {
    t < y.rcvd || (t < y.rcvd + WINDOW && t % WRAP in y.st.reorder)
  }

  /** Segment `t` is held and was never the next expected one between two frames. */
  ghost predicate Aside(y: Node, t: nat) {
    Held(y, t) && t !in y.rests
  }

  ghost predicate Rests(y: Node) {
    y.rcvd in y.rests && forall r :: r in y.rests ==> r <= y.rcvd
  }

  ghost predicate SackedHeld(x: Node, y: Node)
    requires 0 <= x.Acked()
  {
    forall i :: 0 <= i < |x.st.unacked| && x.st.unacked[i].sacked ==> Aside(y, x.Acked() + i)
  }

  /** Everything about data that flows from x to y. */
  ghost predicate Half(x: Node, y: Node) {
    && Sender(x) && Receiver(y, x.segs) && Rests(y)
    && x.Acked() in y.rests && SackedHeld(x, y)
  }

  /** The block list only names segments from `ackNo` on that the node holds. */
  ghost predicate SackOk(x: Node, blocks: seq<byte>, ackNo: nat) {
    forall t: nat :: ackNo <= t < ackNo + WRAP && Covers(blocks, t % WRAP) ==> Aside(x, t)
  }

  /** What a frame sent by x, however long ago, still says truly. */
  ghost predicate PacketOk(x: Node, p: Packet) {
    var d := Decode(p.bytes);
    && d.Some?
    && d.value.ack == p.ackNo % WRAP && p.ackNo in x.rests
    && d.value.kind in {TYPE_DATA, TYPE_ACK, TYPE_CONNECT}
    && (d.value.kind == TYPE_DATA ==>
          d.value.seqNo == p.seqNo % WRAP && p.seqNo < |x.segs| && d.value.payload == x.segs[p.seqNo])
    && (d.value.kind == TYPE_ACK ==> SackOk(x, d.value.payload, p.ackNo))
  }

  ghost predicate NetOk(x: Node, net: set<Packet>) {
    forall p :: p in net ==> PacketOk(x, p)
  }

  ghost predicate CtrlOk(x: Node) {
    forall c :: c in x.st.ctrlq ==> c.kind == TYPE_CONNECT
  }

  // ---- The system and its steps ----------------------------------------

  datatype Sys = Sys(a: Node, b: Node, ab: set<Packet>, ba: set<Packet>)

  /** One step of node `a`; a step of `b` is the same step of the mirrored system. */
  datatype Act =
    | Up(now: int)                   // local TCP socket accepted
    | Write(data: seq<byte>, now: int)
    | Read(max: nat)
    | Tick(now: int)
    | Pull(max: nat, now: int)       // scheduler takes one frame; it is put on the air
    | Recv(p: Packet, now: int)      // a frame arrives; it may arrive again
    | Lose(p: Packet)                // a frame on the way to `a` is gone for good

  datatype Event = OnA(act: Act) | OnB(act: Act)

  function Mirror(s: Sys): Sys { Sys(s.b, s.a, s.ba, s.ab) }

  ghost predicate Inv(s: Sys) {
    && Half(s.a, s.b) && Half(s.b, s.a)
    && NetOk(s.a, s.ab) && NetOk(s.b, s.ba)
    && CtrlOk(s.a) && CtrlOk(s.b)
  }

  /** The radio's staleness bound, on the true counters. */
  ghost predicate Timely(y: Node, p: Packet) {
    var d := Decode(p.bytes);
    && y.Acked() < p.ackNo + STALE
    && (d.Some? && d.value.kind == TYPE_DATA ==> y.rcvd < p.seqNo + STALE)
  }

  ghost predicate Enabled(s: Sys, act: Act) {
    act.Recv? ==> act.p in s.ba && Timely(s.a, act.p)
  }

  function NQueue(n: Node, now: int): (r: Node)
    ensures r.st == QueueData(n.st, now)
  {
    if !n.st.Established() then n
    else n.(st := QueueData(n.st, now), segs := n.segs + Cut(n.st.tcpIn, WindowRoom(n.st)))
  }

  function NDrain(n: Node): (r: Node)
    ensures r.st == Drain(n.st)
    decreases |n.st.reorder|
  {
    if n.st.rxSeq in n.st.reorder then
      assert (n.st.reorder - {n.st.rxSeq}).Keys == n.st.reorder.Keys - {n.st.rxSeq};
      NDrain(n.(st := DrainOne(n.st), rcvd := n.rcvd + 1))
    else n
  }

  function NDeliver(n: Node, seqNo: u16, payload: seq<byte>): (r: Node)
    ensures r.st == Deliver(n.st, seqNo, payload)
  {
    if n.st.peerConnect && !n.st.peerClose && seqNo == n.st.rxSeq then
      var m := NDrain(n.(st := n.st.(tcpOut := n.st.tcpOut + payload, rxSeq := (n.st.rxSeq + 1) % 65536),
                         rcvd := n.rcvd + 1));
      m.(st := m.st.(ackPending := true), rests := m.rests + {m.rcvd})
    else n.(st := Deliver(n.st, seqNo, payload))
  }

  function NFrame(n: Node, f: Frame, now: int): (r: Node)
    ensures r.st == OnFrame(n.st, f, now)
  {
    var m := n.(st := Acknowledge(n.st, f, now));
    if f.kind == TYPE_DATA then NDeliver(m, f.seqNo, f.payload)
    else m.(st := OnFrame(n.st, f, now))
  }

  function NRadio(n: Node, data: seq<byte>, now: int): (r: Node)
    ensures r.st == OnRadioRx(n.st, data, now)
  {
    var f := Decode(data);
    NQueue(if f.None? then n else NFrame(n, f.value, now), now)
  }

  function NWrite(n: Node, data: seq<byte>, now: int): (r: Node)
    ensures r.st == OnTcpBytes(n.st, data, now)
  {
    if data == [] || !n.st.Established() then n
    else NQueue(n.(st := n.st.(tcpIn := n.st.tcpIn + data), app := n.app + data), now)
  }

  function NRead(n: Node, max: nat): Node {
    var c := if |n.st.tcpOut| < max then |n.st.tcpOut| else max;
    n.(st := n.st.(tcpOut := n.st.tcpOut[c..]), pulled := n.pulled + n.st.tcpOut[..c])
  }

  function NTick(n: Node, now: int): (r: Node)
    ensures r.st == OnTick(n.st, now)
  {
    var t := n.st.(unacked := ExpireAll(n.st.unacked, now));
    if Connecting(t) && now - t.connectStarted >= CONNECT_TIMEOUT then n.(st := OnTick(n.st, now))
    else
      var u := RetryConnect(t, now);
      if u.Established() && u.unacked != [] && now - u.lastProgress >= STALL_TIMEOUT
      then n.(st := OnTick(n.st, now))
      else NQueue(n.(st := u), now)
  }

  /** The true number of the segment that a pull takes. */
  function PulledSeq(n: Node, max: nat): nat {
    var k := n.Acked() + FirstReady(n.st.unacked, max);
    if k < 0 then 0 else k
  }

  function Next(s: Sys, act: Act): Sys {
    match act
    case Up(now) => s.(a := s.a.(st := LocalUp(s.a.st, now)))
    case Write(data, now) => s.(a := NWrite(s.a, data, now))
    case Read(max) => s.(a := NRead(s.a, max))
    case Tick(now) => s.(a := NTick(s.a, now))
    case Pull(max, now) =>
      var r := PullTx(s.a.st, max, now);
      var on := if r.frame == [] then {} else {Packet(r.frame, PulledSeq(s.a, max), s.a.rcvd)};
      s.(a := s.a.(st := r.st), ab := s.ab + on)
    case Recv(p, now) => s.(a := NRadio(s.a, p.bytes, now))
    case Lose(p) => s.(ba := s.ba - {p})
  }

  function Step(s: Sys, e: Event): Sys {
    match e
    case OnA(act) => Next(s, act)
    case OnB(act) => Mirror(Next(Mirror(s), act))
  }

  ghost predicate EventEnabled(s: Sys, e: Event) {
    match e
    case OnA(act) => Enabled(s, act)
    case OnB(act) => Enabled(Mirror(s), act)
  }

  function Init(now: int): Sys {
    var n := Node(Fresh(now), [], [], 0, [], {0});
    Sys(n, n, {}, {})
  }

  function Exec(s: Sys, run: seq<Event>): Sys
    decreases |run|
  {
    if run == [] then s else Exec(Step(s, run[0]), run[1..])
  }

  ghost predicate Allowed(s: Sys, run: seq<Event>)
    decreases |run|
  {
    run == [] || (EventEnabled(s, run[0]) && Allowed(Step(s, run[0]), run[1..]))
  }

  // ---- Growth ----------------------------------------------------------

  /** What one node's step may do to the facts that frames in flight rely on. */
  ghost predicate Grows(n: Node, m: Node) {
    && n.segs <= m.segs && n.rcvd <= m.rcvd && n.rests <= m.rests
    && (forall t: nat :: Held(n, t) ==> Held(m, t))
    && (forall t: nat :: Aside(n, t) ==> Aside(m, t))
  }

  lemma NetGrows(n: Node, m: Node, net: set<Packet>)
    requires Grows(n, m) && NetOk(n, net)
    ensures NetOk(m, net)
  {
    forall p | p in net ensures PacketOk(m, p) {
      assert PacketOk(n, p);
    }
  }

  // ---- Sender steps ----------------------------------------------------

  lemma ModDelta(a: nat, b: nat)
    ensures (a % WRAP - b % WRAP) % WRAP == (a - b) % WRAP
  {
  }

  lemma PopFront(x: Node, y: Node, d: nat, st: Stream)
    requires Half(x, y) && d <= |x.st.unacked| && x.Acked() + d in y.rests
    requires st.unacked == x.st.unacked[d..] && st.txAcked == (x.Acked() + d) % WRAP
    requires st.txSeq == x.st.txSeq && st.tcpIn == x.st.tcpIn
    ensures Half(x.(st := st), y)
  {
    var m := x.(st := st);
    forall i | 0 <= i < |st.unacked|
      ensures st.unacked[i].seqNo == (m.Acked() + i) % WRAP && st.unacked[i].payload == m.segs[m.Acked() + i]
      ensures st.unacked[i].sacked ==> Aside(y, m.Acked() + i)
    {
      assert st.unacked[i] == x.st.unacked[d + i];
      assert m.Acked() + i == x.Acked() + (d + i);
    }
  }

  /** The 16-bit distance of an acknowledgement, read back as a true distance. */
  lemma AckDistance(acked: nat, ackNo: nat, pending: nat)
    requires acked < ackNo + STALE && pending <= WINDOW
    ensures var delta := (ackNo % WRAP - acked % WRAP) % WRAP;
            if acked <= ackNo < acked + WRAP then delta == ackNo - acked
            else ackNo < acked ==> delta > pending
  {
    ModDelta(ackNo, acked);
  }

  /** A timely acknowledgement moves the window to exactly the true number it carries. */
  lemma AckStep(x: Node, y: Node, ack: u16, ackNo: nat, now: int)
    requires Half(x, y)
    requires ack == ackNo % WRAP && ackNo in y.rests && x.Acked() < ackNo + STALE
    ensures Half(x.(st := ApplyAck(x.st, ack, now)), y)
    ensures x.(st := ApplyAck(x.st, ack, now)).Acked() == (if ackNo > x.Acked() then ackNo else x.Acked())
  {
    AckDistance(x.Acked(), ackNo, |x.st.unacked|);
    assert 0 <= x.Acked() <= y.rcvd <= |x.segs| && ackNo <= y.rcvd && |x.st.unacked| <= WINDOW;
    assert x.st.txAcked == x.Acked() % WRAP;
    if ackNo > x.Acked() {
      var d: nat := ackNo - x.Acked();
      hide Half;
      assert (ack - x.st.txAcked) % WRAP == d;
      assert (x.st.txAcked + d) % WRAP == (x.Acked() + d) % WRAP;
      PopFront(x, y, d, ApplyAck(x.st, ack, now));
    } else {
      hide Half;
      assert ApplyAck(x.st, ack, now) == x.st;
    }
  }

  lemma SackStep(x: Node, y: Node, blocks: seq<byte>, ackNo: nat)
    requires Half(x, y) && SackOk(y, blocks, ackNo)
    requires ackNo <= x.Acked() < ackNo + STALE
    ensures Half(x.(st := ApplySack(x.st, blocks)), y)
  {
    var m := x.(st := ApplySack(x.st, blocks));
    forall i | 0 <= i < |m.st.unacked| && m.st.unacked[i].sacked
      ensures Aside(y, m.Acked() + i)
    {
      if !x.st.unacked[i].sacked {
        var t: nat := x.Acked() + i;
        assert Covers(blocks, t % WRAP);
      }
    }
  }

  lemma QueueBytes(x: Node, now: int)
    requires Concat(x.segs) + x.st.tcpIn == x.app
    ensures Concat(NQueue(x, now).segs) + NQueue(x, now).st.tcpIn == x.app
  {
    if x.st.Established() {
      var cut := Cut(x.st.tcpIn, WindowRoom(x.st));
      ConcatAppend(x.segs, cut);
      assert x.st.tcpIn == Concat(cut) + x.st.tcpIn[|Concat(cut)|..];
    }
  }

  lemma ModAdd(a: nat, b: nat)
    ensures (a % WRAP + b) % WRAP == (a + b) % WRAP
  {
  }

  lemma QueuePending(x: Node, now: int)
    requires Sender(x) && x.st.Established()
    ensures var m := NQueue(x, now);
            forall i :: 0 <= i < |m.st.unacked| ==>
              && m.st.unacked[i].seqNo == (x.Acked() + i) % WRAP
              && m.st.unacked[i].payload == m.segs[x.Acked() + i]
              && (i >= |x.st.unacked| ==> !m.st.unacked[i].sacked)
  {
    hide Concat;
    var cut := Cut(x.st.tcpIn, WindowRoom(x.st));
    var m := NQueue(x, now);
    var n := |x.st.unacked|;
    hide Cut;
    forall i | 0 <= i < |m.st.unacked|
      ensures m.st.unacked[i].seqNo == (x.Acked() + i) % WRAP
      ensures m.st.unacked[i].payload == m.segs[x.Acked() + i]
      ensures i >= n ==> !m.st.unacked[i].sacked
    {
      if i >= n {
        assert m.st.unacked[i] == NewPending(x.st.txSeq, cut)[i - n];
        ModAdd(|x.segs|, i - n);
        assert m.segs[x.Acked() + i] == cut[i - n];
      } else {
        assert m.st.unacked[i] == x.st.unacked[i];
        assert m.segs[x.Acked() + i] == x.segs[x.Acked() + i];
      }
    }
  }

  lemma QueueSender(x: Node, now: int)
    requires Sender(x)
    ensures Sender(NQueue(x, now)) && NQueue(x, now).Acked() == x.Acked()
    ensures x.st.unacked <= NQueue(x, now).st.unacked
    ensures forall i :: |x.st.unacked| <= i < |NQueue(x, now).st.unacked| ==> !NQueue(x, now).st.unacked[i].sacked
  {
    QueueBytes(x, now);
    if x.st.Established() {
      QueuePending(x, now);
      hide Concat;
      hide Cut;
      ModAdd(|x.segs|, |Cut(x.st.tcpIn, WindowRoom(x.st))|);
    }
  }

  lemma QueueStep(x: Node, y: Node, now: int)
    requires Half(x, y)
    ensures Half(NQueue(x, now), y)
    ensures Grows(x, NQueue(x, now))
    ensures NQueue(x, now).Acked() == x.Acked()
  {
    QueueSender(x, now);
    var m := NQueue(x, now);
    assert m.segs[..y.rcvd] == x.segs[..y.rcvd];
  }

  // ---- Receiver steps --------------------------------------------------

  lemma NumberKept(rcvd: nat, v: u16)
    requires v != rcvd % WRAP
    ensures rcvd + 1 + (v - (rcvd + 1) % WRAP) % WRAP == rcvd + (v - rcvd % WRAP) % WRAP
  {
  }

  /** The receiver after segment number `rcvd` is put out, with its buffer entry gone. */
  function Take(y: Node, payload: seq<byte>): Node {
    y.(st := y.st.(tcpOut := y.st.tcpOut + payload, reorder := y.st.reorder - {y.st.rxSeq},
                   rxSeq := (y.st.rxSeq + 1) % 65536),
       rcvd := y.rcvd + 1)
  }

  lemma TakeBuffered(y: Node, segs: seq<seq<byte>>, payload: seq<byte>)
    requires Buffered(y, segs) && y.st.rxSeq == y.rcvd % WRAP
    ensures Buffered(Take(y, payload), segs)
  {
    var m := Take(y, payload);
    ModAdd(y.rcvd, 1);
    forall v | v in m.st.reorder
      ensures TrueSeq(m, v) < m.rcvd + WINDOW && TrueSeq(m, v) < |segs| && m.st.reorder[v] == segs[TrueSeq(m, v)]
    {
      NumberKept(y.rcvd, v);
      assert TrueSeq(m, v) == TrueSeq(y, v);
    }
  }

  lemma TakeHeld(y: Node, payload: seq<byte>)
    requires y.st.rxSeq == y.rcvd % WRAP
    ensures forall t: nat :: Held(y, t) ==> Held(Take(y, payload), t)
  {
    var m := Take(y, payload);
    forall t: nat | Held(y, t) ensures Held(m, t) {
      if t > y.rcvd {
        ModDelta(t, y.rcvd);
        assert t % WRAP != y.st.rxSeq;
      }
    }
  }

  /** Putting out the next segment keeps the true number of every buffered one. */
  lemma TakeStep(y: Node, segs: seq<seq<byte>>)
    requires Draining(y, segs) && y.rcvd < |segs|
    ensures Draining(Take(y, segs[y.rcvd]), segs)
    ensures forall t: nat :: Held(y, t) ==> Held(Take(y, segs[y.rcvd]), t)
  {
    var m := Take(y, segs[y.rcvd]);
    TakeBuffered(y, segs, segs[y.rcvd]);
    TakeHeld(y, segs[y.rcvd]);
    assert segs[..m.rcvd] == segs[..y.rcvd] + [segs[y.rcvd]];
    ConcatSnoc(segs[..y.rcvd], segs[y.rcvd]);
    assert m.Output() == y.Output() + segs[y.rcvd];
    ModAdd(y.rcvd, 1);
    hide Buffered;
    hide Aside; hide Held;
  }

  lemma {:induction false} DrainStep(y: Node, segs: seq<seq<byte>>)
    requires Draining(y, segs)
    ensures var m := NDrain(y);
            && Draining(m, segs) && m.st.rxSeq !in m.st.reorder
            && y.rcvd <= m.rcvd && m.segs == y.segs && m.app == y.app
            && m.rests == y.rests
            && forall t: nat :: Held(y, t) ==> Held(m, t)
    decreases |y.st.reorder|
  {
    if y.st.rxSeq in y.st.reorder {
      assert TrueSeq(y, y.st.rxSeq) == y.rcvd;
      assert Take(y, segs[y.rcvd]) == y.(st := DrainOne(y.st), rcvd := y.rcvd + 1);
      TakeStep(y, segs);
      assert (y.st.reorder - {y.st.rxSeq}).Keys == y.st.reorder.Keys - {y.st.rxSeq};
      hide Draining;
      DrainStep(Take(y, segs[y.rcvd]), segs);
    }
  }

  /** Delivery touches only the receiving fields. */
  ghost predicate SameSender(s: Stream, t: Stream) {
    && s.local == t.local && s.peerConnect == t.peerConnect && s.peerClose == t.peerClose
    && s.txSeq == t.txSeq && s.txAcked == t.txAcked && s.tcpIn == t.tcpIn
    && s.unacked == t.unacked && s.ctrlq == t.ctrlq
    && s.connectStarted == t.connectStarted && s.lastConnect == t.lastConnect
  }

  lemma {:induction false} DrainSame(s: Stream)
    ensures SameSender(s, Drain(s))
    decreases |s.reorder|
  {
    if s.rxSeq in s.reorder {
      assert (s.reorder - {s.rxSeq}).Keys == s.reorder.Keys - {s.rxSeq};
      DrainSame(DrainOne(s));
    }
  }

  lemma DeliverSame(s: Stream, seqNo: u16, payload: seq<byte>)
    ensures SameSender(s, Deliver(s, seqNo, payload))
  {
    DrainSame(s.(tcpOut := s.tcpOut + payload, rxSeq := (s.rxSeq + 1) % 65536));
  }

  /** The 16-bit distance of a data frame, read back as a true distance. */
  lemma DataDistance(rcvd: nat, t: nat)
    requires t < rcvd + WINDOW && rcvd < t + STALE
    ensures var dist := (t % WRAP - rcvd % WRAP) % WRAP;
            if t >= rcvd then dist == t - rcvd else dist >= WINDOW
  {
    ModDelta(t, rcvd);
  }

  lemma BufferAhead(y: Node, segs: seq<seq<byte>>, t: nat)
    requires Receiver(y, segs) && y.st.peerConnect
    requires y.rcvd < t < y.rcvd + WINDOW && t < |segs|
    ensures var m := y.(st := y.st.(reorder := y.st.reorder[t % WRAP := segs[t]], ackPending := true));
            Receiver(m, segs)
  {
    var m := y.(st := y.st.(reorder := y.st.reorder[t % WRAP := segs[t]], ackPending := true));
    assert TrueSeq(m, t % WRAP) == t;
    forall v | v in m.st.reorder
      ensures TrueSeq(m, v) < m.rcvd + WINDOW && TrueSeq(m, v) < |segs| && m.st.reorder[v] == segs[TrueSeq(m, v)]
    {
      if v != t % WRAP {
        assert TrueSeq(m, v) == TrueSeq(y, v);
      }
    }
  }

  lemma DeliverNext(y: Node, segs: seq<seq<byte>>)
    requires Receiver(y, segs) && y.rcvd < |segs| && y.st.peerConnect && !y.st.peerClose
    ensures var m := NDeliver(y, y.st.rxSeq, segs[y.rcvd]);
            && Receiver(m, segs) && y.rcvd < m.rcvd && m.segs == y.segs && m.app == y.app
            && m.rests == y.rests + {m.rcvd}
            && forall u: nat :: Held(y, u) ==> Held(m, u)
  {
    var n := Take(y, segs[y.rcvd]);
    assert y.st.reorder - {y.st.rxSeq} == y.st.reorder;
    TakeStep(y, segs);
    DrainStep(n, segs);
    DrainSame(n.st);
    var d := NDrain(n);
    assert NDeliver(y, y.st.rxSeq, segs[y.rcvd]) == d.(st := d.st.(ackPending := true), rests := d.rests + {d.rcvd});
    DrainingAck(d, segs, d.rests + {d.rcvd});
    hide Draining;
    hide NDeliver;
  }

  lemma DrainingAck(y: Node, segs: seq<seq<byte>>, rests: set<nat>)
    requires Draining(y, segs)
    ensures Draining(y.(st := y.st.(ackPending := true), rests := rests), segs)
  {
    var m := y.(st := y.st.(ackPending := true), rests := rests);
    assert forall v :: v in y.st.reorder ==> TrueSeq(m, v) == TrueSeq(y, v);
  }

  /** A timely data frame leaves the receiver with exactly the sender's segments; an open
      receiver then holds the segment it carries. */
  lemma DeliverStep(y: Node, segs: seq<seq<byte>>, seqNo: u16, t: nat)
    requires Receiver(y, segs) && y.rcvd in y.rests
    requires seqNo == t % WRAP && t < |segs| && t < y.rcvd + WINDOW && y.rcvd < t + STALE
    ensures var m := NDeliver(y, seqNo, segs[t]);
            && Receiver(m, segs) && y.rcvd <= m.rcvd && m.segs == y.segs && m.app == y.app
            && SameSender(y.st, m.st) && m.rests == y.rests + {m.rcvd}
            && (forall u: nat :: Held(y, u) ==> Held(m, u))
            && (y.st.peerConnect && !y.st.peerClose ==> Held(m, t))
  {
    DataDistance(y.rcvd, t);
    DeliverSame(y.st, seqNo, segs[t]);
    if y.st.peerConnect && !y.st.peerClose {
      if t < y.rcvd {
        DrainingAck(y, segs, y.rests);
      } else if t == y.rcvd {
        DeliverNext(y, segs);
      } else if t % WRAP in y.st.reorder {
        DrainingAck(y, segs, y.rests);
      } else {
        BufferAhead(y, segs, t);
      }
    }
  }
}
