/** The transmit scheduler: token bucket, burst gate, packing of PDUs into one frame. */
module TxSpec {
  import opened Bytes
  import opened AirFrame
  import AirSeq
  import Arq = ArqSpec

  const STREAM_MAX: nat := 1474
  const BURST: nat := 2952
  const UINT64: nat := 0x1_0000_0000_0000_0000
  const UDP_QUEUE: nat := 1024
  const FRAMED_BUF: nat := 2048

  // ---- Streams as the scheduler sees them ------------------------------

  datatype Up = Absent | Udp(q: seq<seq<byte>>) | Tcp(s: Arq.Stream)

  predicate HasAck(u: Up) { u.Tcp? && u.s.HasAck() }

  predicate HasTx(u: Up) {
    match u
    case Absent => false
    case Udp(q) => q != []
    case Tcp(s) => s.HasTx()
  }

  datatype Pull = Pull(up: Up, bytes: seq<byte>, isAck: bool)

  /** peek_tx for UDP, pull_tx for TCP. */
  function PullFrom(u: Up, max: nat, now: int): Pull {
    match u
    case Absent => Pull(u, [], false)
    case Udp(q) => if q == [] || max == 0 || |q[0]| > max then Pull(u, [], false) else Pull(u, q[0], false)
    case Tcp(s) => var p := Arq.PullTx(s, max, now); Pull(Tcp(p.st), p.frame, p.isAck)
  }

  function Commit(u: Up): Up { if u.Udp? && u.q != [] then Udp(u.q[1..]) else u }

  /** enqueue_air: a full queue gives up its oldest packet. */
  function Enqueue(q: seq<seq<byte>>, pkt: seq<byte>): seq<seq<byte>> {
    if pkt == [] then q else (if |q| >= UDP_QUEUE then q[1..] else q) + [pkt]
  }

  // ---- State -----------------------------------------------------------

  datatype Lane = Lane(up: Up, radio: bool, busTx: byte, budget: nat, seqs: AirSeq.State)

  /** Times are nanoseconds. */
  datatype Sched = Sched(
    rate: nat, domain: u16, prefix: seq<byte>, maxData: nat, burstSize: nat, intervalUs: nat,
    tokens: nat, burstSent: nat, cooldown: int, lastRefill: int, txSeq: u16, lanes: seq<Lane>)

  ghost predicate Ok(s: Sched) {
    |s.prefix| == 4 && 1 <= s.maxData <= 32 && 1 <= s.burstSize <= 20 && s.tokens <= BURST
  }

  // ---- Token bucket and burst gate -------------------------------------

  function ElapsedUs(last: int, now: int): nat { if now < last then 0 else (now - last) / 1000 }

  /** uint64 arithmetic: the product may wrap. */
  function Credit(rate: nat, us: nat): nat { rate * us % UINT64 / 8000 }

  function Refill(s: Sched, now: int): Sched {
    var t := s.tokens + Credit(s.rate, ElapsedUs(s.lastRefill, now));
    s.(lastRefill := now, tokens := if t > BURST then BURST else t)
  }

  predicate BurstAllows(s: Sched, now: int) { now >= s.cooldown && s.burstSent < s.burstSize }

  function NoteBurst(s: Sched, now: int): Sched {
    if s.burstSent + 1 < s.burstSize then s.(burstSent := s.burstSent + 1)
    else s.(burstSent := 0, cooldown := now + s.intervalUs * 1000)
  }

  // ---- One frame -------------------------------------------------------

  /** A frame being put together: the PDUs so far and what pulling them has changed. */
  datatype Draft = Draft(
    lanes: seq<Lane>, remain: seq<nat>, tokens: nat,
    used: seq<nat>, slots: seq<Slot>, bodies: seq<seq<byte>>, acks: seq<bool>)

  function Total(d: Draft): nat { Sum(d.slots) }

  /** How much the next pull from lane i may take; 0 refuses it. */
  function MaxPull(d: Draft, i: nat, acksOnly: bool): nat
    requires i < |d.lanes| == |d.remain|
  {
    if Total(d) + AirSeq.SEQ_LEN + 1 > PAYLOAD_MAX then 0
    else
      var room := PAYLOAD_MAX - Total(d) - AirSeq.SEQ_LEN;
      if acksOnly then Min(room, STREAM_MAX)
      else
        var first := d.remain[i] == d.lanes[i].budget;
        var m := Min(STREAM_MAX, d.tokens);
        Min(if first then m else Min(m, d.remain[i]), room)
  }

  function Less(a: nat, b: nat): nat { if b <= a then a - b else 0 }

  predicate Wants(l: Lane, acksOnly: bool) {
    l.up != Absent && l.busTx != 0 && (HasAck(l.up) || (!acksOnly && HasTx(l.up)))
  }

  predicate Pulls(d: Draft, i: nat, acksOnly: bool, now: int)
    requires i < |d.lanes| == |d.remain|
  {
    && |d.slots| < SLOTS && Wants(d.lanes[i], acksOnly) && MaxPull(d, i, acksOnly) > 0
    && PullFrom(d.lanes[i].up, MaxPull(d, i, acksOnly), now).bytes != []
  }

  /** try_pull. */
  function TryPull(d: Draft, i: nat, acksOnly: bool, now: int): (r: Draft)
    requires i < |d.lanes| == |d.remain|
    ensures |r.lanes| == |d.lanes| == |r.remain|
  {
    if !Pulls(d, i, acksOnly, now) then d
    else
      var l := d.lanes[i];
      var p := PullFrom(l.up, MaxPull(d, i, acksOnly), now);
      var framed := |p.bytes| + AirSeq.SEQ_LEN;
      d.(lanes := d.lanes[i := l.(up := p.up, seqs := l.seqs.(tx := (l.seqs.tx + 1) % 65536))],
         remain := if p.isAck then d.remain else d.remain[i := Less(d.remain[i], framed)],
         tokens := if p.isAck then d.tokens else Less(d.tokens, framed),
         used := d.used + [i],
         slots := d.slots + [Slot(l.busTx, framed % 65536)],
         bodies := d.bodies + [Be16(l.seqs.tx) + p.bytes],
         acks := d.acks + [p.isAck])
  }

  /** Opportunistic packing from the other lanes, starting behind the primary one. */
  function PullRest(d: Draft, primary: nat, step: nat, acksOnly: bool, now: int): (r: Draft)
    requires primary < |d.lanes| == |d.remain| && step <= |d.lanes|
    ensures |r.lanes| == |d.lanes| == |r.remain|
    decreases |d.lanes| - step
  {
    if step == |d.lanes| || |d.slots| >= SLOTS then d
    else PullRest(TryPull(d, (primary + step) % |d.lanes|, acksOnly, now), primary, step + 1, acksOnly, now)
  }

  function PadSlots(d: Draft): (r: seq<Slot>)
    requires |d.slots| <= SLOTS
    ensures |r| == SLOTS
  {
    seq(SLOTS, i requires 0 <= i < SLOTS => if i < |d.slots| then d.slots[i] else Slot(0, 0))
  }

  function PadBodies(d: Draft): (r: Bodies)
    ensures |r| == SLOTS
  {
    seq(SLOTS, i requires 0 <= i < SLOTS => if i < |d.bodies| then Some(d.bodies[i]) else None)
  }

  /** Dequeue what was only peeked at. */
  function CommitAll(lanes: seq<Lane>, used: seq<nat>): (r: seq<Lane>)
    ensures |r| == |lanes|
  {
    if used == [] then lanes
    else
      var before := CommitAll(lanes, used[..|used| - 1]);
      var i := used[|used| - 1];
      if i < |before| then before[i := before[i].(up := Commit(before[i].up))] else before
  }

  predicate AnyData(d: Draft) { exists k :: 0 <= k < |d.acks| && !d.acks[k] }

  /** Checks at the head of emit_mpdu. */
  predicate MayEmit(s: Sched, primary: nat, acksOnly: bool, dataSent: nat, now: int) {
    && primary < |s.lanes| && s.domain != 0 && s.lanes[primary].up != Absent && s.lanes[primary].radio
    && s.lanes[primary].busTx != 0
    && if acksOnly then HasAck(s.lanes[primary].up)
       else BurstAllows(s, now) && s.tokens > 0 && dataSent < s.maxData
            && (HasTx(s.lanes[primary].up) || HasAck(s.lanes[primary].up))
  }

  function Empty(s: Sched, remain: seq<nat>): Draft { Draft(s.lanes, remain, s.tokens, [], [], [], []) }

  function Filled(s: Sched, primary: nat, acksOnly: bool, remain: seq<nat>, now: int): (d: Draft)
    requires primary < |s.lanes| == |remain|
    ensures |d.lanes| == |s.lanes| == |d.remain|
  {
    PullRest(TryPull(Empty(s, remain), primary, acksOnly, now), primary, 1, acksOnly, now)
  }

  /** Outcome of emit_mpdu; `draft` is the frame when one was built. */
  datatype Emitted = Emitted(ok: bool, s: Sched, remain: seq<nat>, dataSent: nat, draft: Option<Draft>)

  /** `sent` is the radio's answer and `noteAt` the clock when the burst is noted. */
  function Emit(s: Sched, primary: nat, acksOnly: bool, remain: seq<nat>, dataSent: nat, now: int, sent: bool,
                noteAt: int): (r: Emitted)
    requires |remain| == |s.lanes|
    ensures |r.remain| == |r.s.lanes| == |s.lanes|
  {
    if !MayEmit(s, primary, acksOnly, dataSent, now) || !Pulls(Empty(s, remain), primary, acksOnly, now)
    then Emitted(false, s, remain, dataSent, None)
    else
      var d := Filled(s, primary, acksOnly, remain, now);
      var t := s.(lanes := d.lanes, tokens := d.tokens, txSeq := (s.txSeq + 1) % 65536);
      if !sent then Emitted(false, t, d.remain, dataSent, Some(d))
      else
        var u := t.(lanes := CommitAll(d.lanes, d.used));
        if AnyData(d) then Emitted(true, NoteBurst(u, noteAt), d.remain, dataSent + 1, Some(d))
        else Emitted(true, u, d.remain, dataSent, Some(d))
  }
}
