/** The reliable byte pipe of tcp_stream.cpp as functions on its state: what each
    public operation does to the sender, the receiver and the frames they exchange. */
module ArqSpec {
  import opened Bytes

  const TYPE_DATA: byte := 1
  const TYPE_ACK: byte := 2
  const TYPE_CONNECT: byte := 3
  const TYPE_CLOSE: byte := 4
  const TYPE_ABORT: byte := 5
  const HEADER: nat := 8
  const MAX_SEGMENT: nat := 1400
  const WINDOW: nat := 256
  const SACK_BLOCK: nat := 4
  const MAX_SACK_BLOCKS: nat := 8
  const TCP_IN_MAX: nat := 256 * 1400 * 2

  // Times are nanoseconds of the steady clock.
  const REXMIT: int := 20_000_000
  const CONNECT_TIMEOUT: int := 30_000_000_000
  const STALL_TIMEOUT: int := 5_000_000_000

  /** One segment that the peer has not yet acknowledged. */
  datatype Pending = Pending(seqNo: u16, payload: seq<byte>, sent: int, inFlight: bool, sacked: bool)

  /** A queued control frame; its acknowledgement field is filled in when it is pulled. */
  datatype Ctrl = Ctrl(kind: byte, seqNo: u16)

  datatype Stream = Stream(
    local: bool, peerConnect: bool, peerClose: bool, ackPending: bool,
    connectGiveUp: bool, stallGiveUp: bool,
    txSeq: u16, rxSeq: u16, txAcked: u16,
    connectStarted: int, lastConnect: int, lastProgress: int,
    tcpIn: seq<byte>, tcpOut: seq<byte>,
    unacked: seq<Pending>, ctrlq: seq<Ctrl>, reorder: map<u16, seq<byte>>)
  {
    predicate Established() { local && peerConnect && !peerClose }
    predicate HasAck() { ackPending || ctrlq != [] }
    predicate HasTx() {
      HasAck() || exists i :: 0 <= i < |unacked| && !unacked[i].inFlight && !unacked[i].sacked
    }
    function Room(): nat { if |tcpIn| < TCP_IN_MAX then TCP_IN_MAX - |tcpIn| else 0 }
    predicate AcceptsTcp() { Established() && Room() > 0 }
  }

  function Fresh(now: int): Stream {
    Stream(false, false, false, false, false, false, 0, 0, 0, now, now, now, [], [], [], [], map[])
  }

  /** reset: every field but the clocks. */
  function Cleared(s: Stream): Stream {
    Fresh(0).(connectStarted := s.connectStarted, lastConnect := s.lastConnect, lastProgress := s.lastProgress)
  }

  // ---- Wire form -------------------------------------------------------

  datatype Frame = Frame(kind: byte, seqNo: u16, ack: u16, payload: seq<byte>)

  function Encode(kind: byte, seqNo: u16, ack: u16, payload: seq<byte>): seq<byte> {
    [kind, 0] + Be16(seqNo) + Be16(ack) + Be16(|payload| % 65536) + payload
  }

  function Decode(data: seq<byte>): Option<Frame> {
    if |data| < HEADER then None
    else
      var plen := U16At(data, 6);
      if |data| < HEADER + plen then None
      else Some(Frame(data[0], U16At(data, 2), U16At(data, 4), data[HEADER..HEADER + plen]))
  }

  /** Every frame the stream writes is read back field by field. */
  lemma DecodeEncode(kind: byte, seqNo: u16, ack: u16, payload: seq<byte>)
    requires |payload| < 65536
    ensures Decode(Encode(kind, seqNo, ack, payload)) == Some(Frame(kind, seqNo, ack, payload))
    ensures |Encode(kind, seqNo, ack, payload)| == HEADER + |payload|
  {
    var e := Encode(kind, seqNo, ack, payload);
    assert e[0] == kind && |e| == HEADER + |payload|;
    assert e[2] == seqNo / 256 && e[3] == seqNo % 256;
    assert e[4] == ack / 256 && e[5] == ack % 256;
    assert e[6] == |payload| / 256 && e[7] == |payload| % 256;
    assert e[8..8 + |payload|] == payload;
    assert U16At(e, 2) == seqNo && U16At(e, 4) == ack && U16At(e, 6) == |payload|;
    hide Encode;
  }

  // ---- Sender half -----------------------------------------------------

  /** How the waiting bytes are cut into at most `room` segments. */
  function Cut(data: seq<byte>, room: nat): (segs: seq<seq<byte>>)
    ensures |segs| <= room
    ensures forall i :: 0 <= i < |segs| ==> 1 <= |segs[i]| <= MAX_SEGMENT
    ensures Concat(segs) <= data
    ensures segs == [] <==> room == 0 || data == []
  {
    if room == 0 || data == [] then []
    else
      var n := if |data| < MAX_SEGMENT then |data| else MAX_SEGMENT;
      assert data == data[..n] + data[n..];
      [data[..n]] + Cut(data[n..], room - 1)
  }

  function NewPending(txSeq: u16, segs: seq<seq<byte>>): (r: seq<Pending>) {
    seq(|segs|, i requires 0 <= i < |segs| => Pending((txSeq + i) % 65536, segs[i], 0, false, false))
  }

  function WindowRoom(s: Stream): nat {
    if |s.unacked| < WINDOW then WINDOW - |s.unacked| else 0
  }

  function QueueData(s: Stream, now: int): Stream {
    if !s.Established() then s
    else
      var segs := Cut(s.tcpIn, WindowRoom(s));
      s.(unacked := s.unacked + NewPending(s.txSeq, segs),
         tcpIn := s.tcpIn[|Concat(segs)|..],
         txSeq := (s.txSeq + |segs|) % 65536,
         lastProgress := if s.unacked == [] && segs != [] then now else s.lastProgress)
  }

  function OnTcpBytes(s: Stream, data: seq<byte>, now: int): Stream {
    if data == [] || !s.Established() then s
    else QueueData(s.(tcpIn := s.tcpIn + data), now)
  }

  function ApplyAck(s: Stream, ack: u16, now: int): Stream {
    var delta := (ack - s.txAcked) % 65536;
    if delta == 0 || delta > |s.unacked| || delta > WINDOW then s
    else
      s.(unacked := s.unacked[delta..], txAcked := (s.txAcked + delta) % 65536,
         lastProgress := now, stallGiveUp := false)
  }

  /** Does a block list of an ACK frame name the 16-bit sequence number `v`? */
  predicate Covers(blocks: seq<byte>, v: u16) {
    |blocks| >= SACK_BLOCK &&
    (BlockCovers(U16At(blocks, 0), U16At(blocks, 2), v) || Covers(blocks[SACK_BLOCK..], v))
  }

  predicate BlockCovers(sn: u16, count: u16, v: u16) {
    0 < count <= WINDOW && (v - sn) % 65536 < count
  }

  function MarkSacked(unacked: seq<Pending>, blocks: seq<byte>): seq<Pending> {
    seq(|unacked|, i requires 0 <= i < |unacked| =>
      unacked[i].(sacked := unacked[i].sacked || Covers(blocks, unacked[i].seqNo)))
  }

  function ApplySack(s: Stream, blocks: seq<byte>): Stream {
    s.(unacked := MarkSacked(s.unacked, blocks))
  }

  // ---- Receiver half ---------------------------------------------------

  /** Smallest buffered number from `from` on, or 65536. */
  function LeastFrom(keys: set<u16>, from: nat): (k: nat)
    requires from <= 65536
    ensures from <= k <= 65536
    ensures k < 65536 ==> k in keys
    ensures forall j :: from <= j < k ==> j !in keys
    decreases 65536 - from
  {
    if from == 65536 || from in keys then from else LeastFrom(keys, from + 1)
  }

  /** Length of the run of buffered numbers that starts at `sn` (no wrap inside a run). */
  function RunLength(keys: set<u16>, sn: nat): (n: nat)
    requires sn <= 65536
    ensures sn + n <= 65536
    ensures forall j :: sn <= j < sn + n ==> j in keys
    ensures sn + n < 65536 ==> sn + n !in keys
    decreases 65536 - sn
  {
    if sn < 65536 && sn in keys then 1 + RunLength(keys, sn + 1) else 0
  }

  function SackBlocks(keys: set<u16>, from: nat, used: nat, room: nat): (r: seq<byte>)
    requires from <= 65536 && used <= MAX_SACK_BLOCKS
    ensures |r| <= room && |r| <= SACK_BLOCK * (MAX_SACK_BLOCKS - used)
    decreases MAX_SACK_BLOCKS - used
  {
    var sn := LeastFrom(keys, from);
    if used == MAX_SACK_BLOCKS || sn == 65536 || room < SACK_BLOCK then []
    else
      var n := RunLength(keys, sn);
      Be16(sn) + Be16(n % 65536) + SackBlocks(keys, sn + n, used + 1, room - SACK_BLOCK)
  }

  lemma CoversCons(sn: u16, count: u16, rest: seq<byte>, v: u16)
    ensures Covers(Be16(sn) + Be16(count) + rest, v) <==> BlockCovers(sn, count, v) || Covers(rest, v)
  {
    var blocks := Be16(sn) + Be16(count) + rest;
    assert blocks[0] == sn / 256 && blocks[1] == sn % 256;
    assert blocks[2] == count / 256 && blocks[3] == count % 256;
    assert blocks[SACK_BLOCK..] == rest;
  }

  lemma BlockInRun(keys: set<u16>, sn: u16, v: u16)
    requires BlockCovers(sn, RunLength(keys, sn) % 65536, v)
    ensures v in keys
  {
    assert v == sn + (v - sn) % 65536;
  }

  lemma CoversNothing(v: u16)
    ensures !Covers([], v)
  {
  }

  /** One step of the list: empty, or a block for the first run and the blocks behind it. */
  lemma SackUnfold(keys: set<u16>, from: nat, used: nat, room: nat)
    requires from <= 65536 && used <= MAX_SACK_BLOCKS
    ensures var sn := LeastFrom(keys, from);
            if used == MAX_SACK_BLOCKS || sn == 65536 || room < SACK_BLOCK then SackBlocks(keys, from, used, room) == []
            else SackBlocks(keys, from, used, room)
                 == Be16(sn) + Be16(RunLength(keys, sn) % 65536)
                    + SackBlocks(keys, sn + RunLength(keys, sn), used + 1, room - SACK_BLOCK)
  {
  }

  /** A list that covers a number has a first block; either that block covers it or the rest does. */
  lemma FirstBlock(keys: set<u16>, from: nat, used: nat, room: nat, v: u16) returns (next: nat)
    requires from <= 65536 && used <= MAX_SACK_BLOCKS && Covers(SackBlocks(keys, from, used, room), v)
    ensures used < MAX_SACK_BLOCKS && room >= SACK_BLOCK && next <= 65536
    ensures v in keys || Covers(SackBlocks(keys, next, used + 1, room - SACK_BLOCK), v)
  {
    hide SackBlocks;
    hide Covers;
    hide BlockCovers;
    hide LeastFrom;
    hide RunLength;
    CoversNothing(v);
    SackUnfold(keys, from, used, room);
    var sn := LeastFrom(keys, from);
    next := sn;
    if used < MAX_SACK_BLOCKS && sn < 65536 && room >= SACK_BLOCK {
      var n := RunLength(keys, sn);
      next := sn + n;
      CoversCons(sn, n % 65536, SackBlocks(keys, next, used + 1, room - SACK_BLOCK), v);
      if BlockCovers(sn, n % 65536, v) { BlockInRun(keys, sn, v); }
    }
  }

  /** The block list of an ACK only names numbers that are buffered out of order. */
  lemma {:induction false} SackSound(keys: set<u16>, from: nat, used: nat, room: nat, v: u16)
    requires from <= 65536 && used <= MAX_SACK_BLOCKS
    requires Covers(SackBlocks(keys, from, used, room), v)
    ensures v in keys
    decreases MAX_SACK_BLOCKS - used
  {
    hide SackBlocks;
    hide Covers;
    var next := FirstBlock(keys, from, used, room, v);
    if v !in keys { SackSound(keys, next, used + 1, room - SACK_BLOCK, v); }
  }

  /** Move the segment that is next in order from the reorder buffer to the output. */
  function DrainOne(s: Stream): Stream
    requires s.rxSeq in s.reorder
  {
    s.(tcpOut := s.tcpOut + s.reorder[s.rxSeq], reorder := s.reorder - {s.rxSeq},
       rxSeq := (s.rxSeq + 1) % 65536)
  }

  function Drain(s: Stream): Stream
    decreases |s.reorder|
  {
    if s.rxSeq in s.reorder then
      (assert |(s.reorder - {s.rxSeq}).Keys| < |s.reorder.Keys| by {
         assert (s.reorder - {s.rxSeq}).Keys == s.reorder.Keys - {s.rxSeq};
       }
       Drain(DrainOne(s)))
    else s
  }

  function Deliver(s: Stream, seqNo: u16, payload: seq<byte>): Stream {
    if !s.peerConnect || s.peerClose then s
    else if (seqNo - s.rxSeq) % 65536 >= WINDOW then s.(ackPending := true)
    else if seqNo == s.rxSeq then
      Drain(s.(tcpOut := s.tcpOut + payload, rxSeq := (s.rxSeq + 1) % 65536)).(ackPending := true)
    else if seqNo !in s.reorder then
      s.(reorder := s.reorder[seqNo := payload], ackPending := true)
    else s.(ackPending := true)
  }

  function OnConnect(s: Stream): Stream {
    (if s.peerConnect then s else s.(rxSeq := 0, tcpOut := [], reorder := map[]))
    .(peerConnect := true, peerClose := false, ackPending := true)
  }

  function OnEnd(s: Stream): Stream {
    if !s.Established() then s.(ackPending := true) else s.(peerClose := true, peerConnect := false)
  }

  function Acknowledge(s: Stream, f: Frame, now: int): Stream {
    var t := ApplyAck(s, f.ack, now);
    if f.kind == TYPE_ACK && f.payload != [] then ApplySack(t, f.payload) else t
  }

  function OnFrame(s: Stream, f: Frame, now: int): Stream {
    var t := Acknowledge(s, f, now);
    if f.kind == TYPE_CONNECT then OnConnect(t)
    else if f.kind == TYPE_CLOSE || f.kind == TYPE_ABORT then OnEnd(t)
    else if f.kind == TYPE_DATA then Deliver(t, f.seqNo, f.payload)
    else t
  }

  function OnRadioRx(s: Stream, data: seq<byte>, now: int): Stream {
    var f := Decode(data);
    QueueData(if f.None? then s else OnFrame(s, f.value, now), now)
  }

  // ---- Connection, transmission and time -------------------------------

  function QueueCtrl(s: Stream, kind: byte): Stream {
    s.(ctrlq := s.ctrlq + [Ctrl(kind, s.txSeq)])
  }

  function LocalUp(s: Stream, now: int): Stream {
    if s.local then s
    else
      QueueCtrl(s.(local := true, connectGiveUp := false, stallGiveUp := false,
                   connectStarted := now, lastConnect := now, lastProgress := now), TYPE_CONNECT)
  }

  function LocalDown(s: Stream): Stream {
    if !s.local then s
    else
      QueueCtrl(QueueCtrl(QueueCtrl(s.(local := false, peerConnect := false),
                                    TYPE_CLOSE), TYPE_CLOSE), TYPE_CLOSE)
      .(unacked := [], tcpIn := [], reorder := map[])
  }

  function LocalAbort(s: Stream): Stream {
    if !s.local then s
    else
      QueueCtrl(s.(local := false, peerConnect := false), TYPE_ABORT)
      .(unacked := [], tcpIn := [], reorder := map[])
  }

  predicate Ready(p: Pending, max: nat) {
    !p.sacked && !p.inFlight && HEADER + |p.payload| <= max
  }

  /** Index of the oldest segment that may be sent now, or the length. */
  function FirstReady(unacked: seq<Pending>, max: nat): (i: nat)
    ensures i <= |unacked|
    ensures i < |unacked| ==> Ready(unacked[i], max)
    ensures forall j :: 0 <= j < i ==> !Ready(unacked[j], max)
  {
    if unacked == [] || Ready(unacked[0], max) then 0 else 1 + FirstReady(unacked[1..], max)
  }

  datatype Pulled = Pulled(st: Stream, frame: seq<byte>, isAck: bool)

  function PullTx(s: Stream, max: nat, now: int): Pulled {
    if max < HEADER then Pulled(s, [], false)
    else if s.ctrlq != [] then
      Pulled(s.(ctrlq := s.ctrlq[1..]), Encode(s.ctrlq[0].kind, s.ctrlq[0].seqNo, s.rxSeq, []), true)
    else if s.ackPending then
      Pulled(s.(ackPending := false),
             Encode(TYPE_ACK, s.txSeq, s.rxSeq, SackBlocks(s.reorder.Keys, 0, 0, max - HEADER)), true)
    else
      var i := FirstReady(s.unacked, max);
      if i == |s.unacked| then Pulled(s, [], false)
      else
        var p := s.unacked[i];
        Pulled(s.(unacked := s.unacked[i := p.(inFlight := true, sent := now)]),
               Encode(TYPE_DATA, p.seqNo, s.rxSeq, p.payload), false)
  }

  /** A stream that claims to have something to send gives a frame, if there is room for the
      largest. */
  lemma HasTxYields(s: Stream, max: nat, now: int)
    requires s.HasTx() && max >= HEADER + MAX_SEGMENT
    requires forall i :: 0 <= i < |s.unacked| ==> |s.unacked[i].payload| <= MAX_SEGMENT
    ensures PullTx(s, max, now).frame != []
  {
    if s.ctrlq == [] && !s.ackPending {
      var i :| 0 <= i < |s.unacked| && !s.unacked[i].inFlight && !s.unacked[i].sacked;
      assert Ready(s.unacked[i], max);
    }
  }

  /** A stream that gives a frame claims to have something to send. */
  lemma YieldsHasTx(s: Stream, max: nat, now: int)
    requires PullTx(s, max, now).frame != []
    ensures s.HasTx() && (PullTx(s, max, now).isAck <==> s.HasAck())
  {
    if !s.HasAck() {
      var i := FirstReady(s.unacked, max);
      assert Ready(s.unacked[i], max);
    }
  }

  /** It has something to send if and only if some pull yields a frame. */
  lemma HasTxIff(s: Stream)
    requires forall i :: 0 <= i < |s.unacked| ==> |s.unacked[i].payload| <= MAX_SEGMENT
    ensures s.HasTx() <==> exists max: nat, now: int :: PullTx(s, max, now).frame != []
    ensures s.HasAck() <==> exists max: nat, now: int :: PullTx(s, max, now).frame != [] && PullTx(s, max, now).isAck
  {
    hide PullTx;
    if s.HasTx() { HasTxYields(s, HEADER + MAX_SEGMENT, 0); }
    if s.HasAck() { YieldsHasTx(s, HEADER + MAX_SEGMENT, 0); }
    forall max: nat, now: int | PullTx(s, max, now).frame != []
      ensures s.HasTx() && (PullTx(s, max, now).isAck <==> s.HasAck())
    {
      YieldsHasTx(s, max, now);
    }
  }

  /** More room never takes a frame away. */
  lemma YieldsMore(s: Stream, max: nat, more: nat, now: int)
    requires PullTx(s, max, now).frame != [] && max <= more
    ensures PullTx(s, more, now).frame != []
  {
    if s.ctrlq == [] && !s.ackPending {
      assert Ready(s.unacked[FirstReady(s.unacked, max)], more);
    }
  }

  function Expire(p: Pending, now: int): Pending {
    if !p.sacked && p.inFlight && now - p.sent >= REXMIT then p.(inFlight := false) else p
  }

  function ExpireAll(unacked: seq<Pending>, now: int): seq<Pending> {
    seq(|unacked|, i requires 0 <= i < |unacked| => Expire(unacked[i], now))
  }

  predicate Connecting(s: Stream) { s.local && !s.peerConnect && !s.peerClose }

  predicate HasConnect(q: seq<Ctrl>) { exists i :: 0 <= i < |q| && q[i].kind == TYPE_CONNECT }

  function RetryConnect(s: Stream, now: int): Stream {
    if Connecting(s) && now - s.lastConnect >= REXMIT && !HasConnect(s.ctrlq)
    then QueueCtrl(s.(lastConnect := now), TYPE_CONNECT) else s
  }

  function OnTick(s: Stream, now: int): Stream {
    var t := s.(unacked := ExpireAll(s.unacked, now));
    if Connecting(t) && now - t.connectStarted >= CONNECT_TIMEOUT then t.(connectGiveUp := true)
    else
      var u := RetryConnect(t, now);
      if u.Established() && u.unacked != [] && now - u.lastProgress >= STALL_TIMEOUT
      then u.(stallGiveUp := true)
      else QueueData(u, now)
  }
}
