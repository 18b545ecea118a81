/** The encoder's pending packets and the receiver's block table: what they keep, and that
    every accepted packet comes out exactly once when enough shards of its block arrive. */
module FecStream {
  import opened Bytes
  import opened Gf
  import opened FecMatrix
  import opened FecCode

  const DONE_MAX: nat := 128
  const BLOCK_MAX: nat := 64

  // Times are nanoseconds of the steady clock.
  const MS: int := 1_000_000

  function RxHold(timeoutMs: nat): int { (if timeoutMs * 5 < 100 then 100 else timeoutMs * 5) * MS }

  function DoneHold(timeoutMs: nat): int {
    if timeoutMs * 50 * MS < RxHold(timeoutMs) then RxHold(timeoutMs) else timeoutMs * 50 * MS
  }

  // ---- Encoder ---------------------------------------------------------

  datatype Enc = Enc(k: nat, n: nat, timeoutMs: nat, pending: seq<seq<byte>>,
                     deadlineSet: bool, deadline: int, blockId: u16, blocks: nat, oversized: nat)

  ghost predicate EncOk(e: Enc) {
    Params(e.k, e.n) && |e.pending| < e.k && Fits(e.pending)
  }

  /** The encoder and the shards it hands out. */
  function Flush(F: Field, e: Enc): (Enc, seq<seq<byte>>)
    requires Params(e.k, e.n)
  {
    if e.pending == [] then (e, [])
    else
      var out := EncodeBlock(F, e.k, e.n, e.pending, e.blockId);
      if out.None? then (e.(oversized := e.oversized + 1, pending := [], deadlineSet := false), [])
      else (e.(blockId := (e.blockId + 1) % 65536, pending := [], deadlineSet := false, blocks := e.blocks + 1),
            out.value)
  }

  function PushApp(F: Field, e: Enc, data: seq<byte>, now: int): (Enc, seq<seq<byte>>)
    requires Params(e.k, e.n)
  {
    if |data| > MAX_ORIGINAL then (e.(oversized := e.oversized + 1), [])
    else
      var f := e.(pending := e.pending + [data], deadlineSet := true,
                  deadline := if e.deadlineSet then e.deadline else now + e.timeoutMs * MS);
      if |f.pending| >= f.k then Flush(F, f) else (f, [])
  }

  function TickEnc(F: Field, e: Enc, now: int): (Enc, seq<seq<byte>>)
    requires Params(e.k, e.n)
  {
    if !e.deadlineSet || e.timeoutMs == 0 || now < e.deadline then (e, []) else Flush(F, e)
  }

  datatype EncEvent = App(data: seq<byte>, now: int) | EncTick(now: int) | FlushNow

  function EncStep(F: Field, e: Enc, ev: EncEvent): (Enc, seq<seq<byte>>)
    requires Params(e.k, e.n)
  {
    match ev
    case App(data, now) => PushApp(F, e, data, now)
    case EncTick(now) => TickEnc(F, e, now)
    case FlushNow => Flush(F, e)
  }

  predicate Accepted(ev: EncEvent) { ev.App? && |ev.data| <= MAX_ORIGINAL }

  /** History of the encoder: blocks sent so far (as packet lists) and packets accepted. */
  datatype EncRun = EncRun(e: Enc, sent: seq<seq<seq<byte>>>, shards: seq<seq<seq<byte>>>, accepted: seq<seq<byte>>)

  function Packets(blocks: seq<seq<seq<byte>>>): seq<seq<byte>> {
    if blocks == [] then [] else Packets(blocks[..|blocks| - 1]) + blocks[|blocks| - 1]
  }

  function RunEnc(F: Field, r: EncRun, ev: EncEvent): EncRun
    requires Params(r.e.k, r.e.n)
  {
    var (e, out) := EncStep(F, r.e, ev);
    var packets := r.e.pending + (if Accepted(ev) then [ev.data] else []);
    EncRun(e, if out == [] then r.sent else r.sent + [packets],
           if out == [] then r.shards else r.shards + [out],
           if Accepted(ev) then r.accepted + [ev.data] else r.accepted)
  }

  ghost predicate EncInv(F: Field, r: EncRun) {
    && EncOk(r.e)
    && Packets(r.sent) + r.e.pending == r.accepted
    && |r.shards| == |r.sent| && r.e.blockId == |r.sent| % 65536
    && (forall b :: 0 <= b < |r.sent| ==> SentAs(F, r.e.k, r.e.n, r.sent[b], b, r.shards[b]))
  }

  /** Block number `b` went out as these n shards. */
  ghost predicate SentAs(F: Field, k: nat, n: nat, packets: seq<seq<byte>>, b: nat, shards: seq<seq<byte>>) {
    && Params(k, n) && 1 <= |packets| <= k && Fits(packets) && |shards| == n
    && forall i :: 0 <= i < n ==> shards[i] == Shard(F, packets, b % 65536, k, n, i)
  }

  /** Encoding cannot fail on packets that passed the size check. */
  lemma EncodeSucceeds(F: Field, k: nat, n: nat, packets: seq<seq<byte>>, block: u16)
    requires Params(k, n)
    ensures EncodeBlock(F, k, n, packets, block).Some? <==> |packets| <= k && Fits(packets)
    ensures var r := EncodeBlock(F, k, n, packets, block);
            r.Some? ==> |r.value| == n && forall i :: 0 <= i < n ==>
              r.value[i] == Shard(F, packets, block, k, n, i)
              && HEADER_LEN <= |r.value[i]| <= PAYLOAD_MAX
  {
    if |packets| <= k && Fits(packets) {
      var r := EncodeBlock(F, k, n, packets, block).value;
      forall i | 0 <= i < n ensures |r[i]| <= PAYLOAD_MAX {
        if i < k {
          assert |Row(PacketAt(packets, i))| <= ShardLen(packets, k);
        }
      }
    }
  }

  /** A step either only collects, or sends one block of everything collected. */
  lemma StepShape(F: Field, e: Enc, ev: EncEvent)
    requires EncOk(e)
    ensures var packets := e.pending + (if Accepted(ev) then [ev.data] else []);
            var (e', out) := EncStep(F, e, ev);
            && e'.k == e.k && e'.n == e.n
            && if out == [] then e'.pending == packets && |packets| < e.k && Fits(packets) && e'.blockId == e.blockId
               else
                 && 1 <= |packets| <= e.k && Fits(packets)
                 && EncodeBlock(F, e.k, e.n, packets, e.blockId) == Some(out)
                 && e'.pending == [] && e'.blockId == (e.blockId + 1) % 65536
  {
    var packets := e.pending + (if Accepted(ev) then [ev.data] else []);
    assert Fits(packets);
    EncodeSucceeds(F, e.k, e.n, packets, e.blockId);
    hide EncodeBlock;
    assert e.pending + [] == e.pending;
  }

  lemma SendBlock(F: Field, r: EncRun, s: EncRun, packets: seq<seq<byte>>, out: seq<seq<byte>>)
    requires EncInv(F, r) && SentAs(F, r.e.k, r.e.n, packets, |r.sent|, out)
    requires s.e.k == r.e.k && s.e.n == r.e.n && s.e.pending == [] && s.e.blockId == (r.e.blockId + 1) % 65536
    requires s.sent == r.sent + [packets] && s.shards == r.shards + [out]
    requires Packets(r.sent) + packets == s.accepted
    ensures EncInv(F, s)
  {
    PacketsSnoc(r.sent, packets);
    assert (|r.sent| % 65536 + 1) % 65536 == (|r.sent| + 1) % 65536;
    hide SentAs;
    hide Packets;
  }

  lemma Collect(F: Field, r: EncRun, s: EncRun)
    requires EncInv(F, r)
    requires s.e.k == r.e.k && s.e.n == r.e.n && s.e.blockId == r.e.blockId
    requires |s.e.pending| < s.e.k && Fits(s.e.pending)
    requires s.sent == r.sent && s.shards == r.shards && Packets(r.sent) + s.e.pending == s.accepted
    ensures EncInv(F, s)
  {
    hide SentAs;
    hide Packets;
  }

  /** The encoder never discards an accepted packet: at every point the blocks sent and the
      pending packets are, in order, exactly the packets accepted. */
  lemma EncoderKeeps(F: Field, r: EncRun, ev: EncEvent)
    requires EncInv(F, r)
    ensures EncInv(F, RunEnc(F, r, ev))
    ensures RunEnc(F, r, ev).e.k == r.e.k && RunEnc(F, r, ev).e.n == r.e.n
  {
    var packets := r.e.pending + (if Accepted(ev) then [ev.data] else []);
    StepShape(F, r.e, ev);
    var s := RunEnc(F, r, ev);
    var out := EncStep(F, r.e, ev).1;
    assert Packets(r.sent) + packets == s.accepted;
    hide EncStep;
    if out == [] {
      Collect(F, r, s);
    } else {
      EncodeSucceeds(F, r.e.k, r.e.n, packets, r.e.blockId);
      hide Shard;
      hide EncodeBlock;
      SendBlock(F, r, s, packets, out);
    }
    hide EncInv;
  }

  lemma PacketsSnoc(blocks: seq<seq<seq<byte>>>, packets: seq<seq<byte>>)
    ensures Packets(blocks + [packets]) == Packets(blocks) + packets
    ensures Packets(blocks) + packets == Packets(blocks + [packets]) + []
  {
    assert (blocks + [packets])[..|blocks|] == blocks;
  }

  function StartEnc(k: nat, n: nat, timeoutMs: nat): EncRun {
    EncRun(Enc(k, n, timeoutMs, [], false, 0, 0, 0, 0), [], [], [])
  }

  function EncAfter(F: Field, r: EncRun, evs: seq<EncEvent>): (s: EncRun)
    requires Params(r.e.k, r.e.n) && EncInv(F, r)
    ensures Params(s.e.k, s.e.n) && EncInv(F, s) && s.e.k == r.e.k && s.e.n == r.e.n
  {
    if evs == [] then r
    else
      var before := EncAfter(F, r, evs[..|evs| - 1]);
      EncoderKeeps(F, before, evs[|evs| - 1]);
      RunEnc(F, before, evs[|evs| - 1])
  }

  /** All packets of a run that pass the size check. */
  function AcceptedOf(evs: seq<EncEvent>): seq<seq<byte>> {
    if evs == [] then []
    else AcceptedOf(evs[..|evs| - 1]) + (if Accepted(evs[|evs| - 1]) then [evs[|evs| - 1].data] else [])
  }

  /** Over every run from the start: the packets in the blocks sent and those still pending are,
      in order, exactly the packets that passed the size check; no flush failed. */
  lemma {:induction false} EncoderRun(F: Field, k: nat, n: nat, timeoutMs: nat, evs: seq<EncEvent>)
    requires Params(k, n)
    ensures EncInv(F, StartEnc(k, n, timeoutMs))
    ensures var s := EncAfter(F, StartEnc(k, n, timeoutMs), evs);
            Packets(s.sent) + s.e.pending == AcceptedOf(evs)
  {
    StartInv(F, k, n, timeoutMs);
    AcceptedRun(F, StartEnc(k, n, timeoutMs), evs);
    hide RunEnc;
    hide Packets;
  }

  lemma StartInv(F: Field, k: nat, n: nat, timeoutMs: nat)
    requires Params(k, n)
    ensures EncInv(F, StartEnc(k, n, timeoutMs))
  {
  }

  lemma {:induction false} AcceptedRun(F: Field, r: EncRun, evs: seq<EncEvent>)
    requires Params(r.e.k, r.e.n) && EncInv(F, r) && r.accepted == []
    ensures EncAfter(F, r, evs).accepted == AcceptedOf(evs)
  {
    hide EncStep;
    hide EncInv;
    if evs != [] { AcceptedRun(F, r, evs[..|evs| - 1]); }
  }
}
