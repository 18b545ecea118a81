/** The receiving side of the air path: unpack a frame and hand each PDU to its stream. */
module AirRx {
  import opened Bytes
  import opened AirFrame
  import opened AirSeq

  /** One scheduler slot as the receiver sees it; `given` are the payloads handed to the stream. */
  datatype Lane = Lane(up: bool, busRx: byte, seqs: State, given: seq<seq<byte>>)

  predicate Takes(l: Lane, bus: byte) { l.up && l.busRx != 0 && l.busRx == bus }

  /** The first lane that listens on the bus. */
  function Target(lanes: seq<Lane>, bus: byte, from: nat): (r: Option<nat>)
    requires from <= |lanes|
    ensures r.Some? ==> from <= r.value < |lanes| && Takes(lanes[r.value], bus)
    ensures forall j :: from <= j < (if r.Some? then r.value else |lanes|) ==> !Takes(lanes[j], bus)
    decreases |lanes| - from
  {
    if from == |lanes| then None
    else if Takes(lanes[from], bus) then Some(from)
    else Target(lanes, bus, from + 1)
  }

  function Give(l: Lane, data: seq<byte>): Lane {
    var (s, p) := Accept(l.seqs, data);
    l.(seqs := s, given := if p.None? then l.given else l.given + [p.value])
  }

  function TakePdu(lanes: seq<Lane>, p: Pdu): (r: seq<Lane>)
    ensures |r| == |lanes| && forall j :: 0 <= j < |r| ==> r[j].up == lanes[j].up && r[j].busRx == lanes[j].busRx
  {
    var j := Target(lanes, p.bus, 0);
    if j.None? then lanes else lanes[j.value := Give(lanes[j.value], p.data)]
  }

  function TakeAll(lanes: seq<Lane>, pdus: seq<Pdu>): (r: seq<Lane>)
    ensures |r| == |lanes| && forall j :: 0 <= j < |r| ==> r[j].up == lanes[j].up && r[j].busRx == lanes[j].busRx
  {
    if pdus == [] then lanes else TakePdu(TakeAll(lanes, pdus[..|pdus| - 1]), pdus[|pdus| - 1])
  }

  function OnMpduRx(lanes: seq<Lane>, mpdu: seq<byte>): (r: seq<Lane>)
    ensures |r| == |lanes| && forall j :: 0 <= j < |r| ==> r[j].up == lanes[j].up && r[j].busRx == lanes[j].busRx
  {
    var u := UnpackMpdu(mpdu);
    if u.None? then lanes else TakeAll(lanes, PdusOf(u.value.slots, u.value.body))
  }

  class Receiver {
    var lanes: seq<Lane>

    constructor (lanes: seq<Lane>)
      ensures this.lanes == lanes
    {
      this.lanes := lanes;
    }

    /** Inner loop of on_mpdu_rx: the first matching lane takes the PDU or drops it. */
    method Dispatch(p: Pdu)
      modifies this
      ensures lanes == TakePdu(old(lanes), p)
    {
      ghost var all := lanes;
      var i := 0;
      while i < |lanes|
        invariant lanes == all && i <= |all|
        invariant Target(all, p.bus, 0) == Target(all, p.bus, i)
      {
        var s := lanes[i];
        if !s.up || s.busRx == 0 || s.busRx != p.bus {
          i := i + 1;
          continue;
        }
        var (seqs, payload) := Accept(s.seqs, p.data);
        lanes := lanes[i := s.(seqs := seqs, given := if payload.None? then s.given else s.given + [payload.value])];
        return;
      }
    }

    /** on_mpdu_rx. */
    method OnMpdu(mpdu: seq<byte>)
      modifies this
      ensures lanes == OnMpduRx(old(lanes), mpdu)
    {
      hide TakePdu;
      hide UnpackMpdu;
      hide PdusOf;
      hide Sum;
      var u := MpduUnpack(mpdu);
      if u.None? { return; }
      ghost var all := lanes;
      var slots, body := u.value.slots, u.value.body;
      UnpackedSum(mpdu);
      NoPdus(slots, body);
      ghost var pdus: seq<Pdu> := [];
      var off := 0;
      assert TakeAll(all, []) == all;
      for i := 0 to SLOTS
        invariant off == Sum(slots[..i]) <= |body| && pdus == PdusOf(slots[..i], body[..off])
        invariant lanes == TakeAll(all, pdus)
      {
        PdusStep(slots, body, i);
        if slots[i].size == 0 { continue; }
        assert off + slots[i].size <= |body|;
        var p := Pdu(slots[i].bus, body[off..off + slots[i].size]);
        off := off + slots[i].size;
        Dispatch(p);
        assert (pdus + [p])[..|pdus|] == pdus;
        pdus := pdus + [p];
      }
      assert slots[..SLOTS] == slots && body[..off] == body;
    }
  }

  lemma UnpackedSum(mpdu: seq<byte>)
    ensures var u := UnpackMpdu(mpdu); u.Some? ==> |u.value.slots| == SLOTS && |u.value.body| == Sum(u.value.slots)
  {
  }

  // ---- What one lane sees ----------------------------------------------

  /** The PDUs of a list that go to lane j. */
  function For(lanes: seq<Lane>, pdus: seq<Pdu>, j: nat): seq<seq<byte>> {
    if pdus == [] then []
    else
      var n := |pdus| - 1;
      For(lanes, pdus[..n], j) + (if Target(lanes, pdus[n].bus, 0) == Some(j) then [pdus[n].data] else [])
  }

  function GiveAll(l: Lane, datas: seq<seq<byte>>): Lane {
    if datas == [] then l else Give(GiveAll(l, datas[..|datas| - 1]), datas[|datas| - 1])
  }

  predicate SameBuses(a: seq<Lane>, b: seq<Lane>) {
    |a| == |b| && forall j :: 0 <= j < |a| ==> a[j].up == b[j].up && a[j].busRx == b[j].busRx
  }

  lemma {:induction false} SameTarget(a: seq<Lane>, b: seq<Lane>, bus: byte, from: nat)
    requires SameBuses(a, b) && from <= |a|
    ensures Target(a, bus, from) == Target(b, bus, from)
    decreases |a| - from
  {
    if from < |a| { SameTarget(a, b, bus, from + 1); }
  }

  /** Each lane ends as if only its own PDUs had arrived; no PDU reaches two lanes. */
  lemma {:induction false} LaneSees(lanes: seq<Lane>, pdus: seq<Pdu>, j: nat)
    requires j < |lanes|
    ensures TakeAll(lanes, pdus)[j] == GiveAll(lanes[j], For(lanes, pdus, j))
  {
    hide Give;
    hide Takes;
    if pdus != [] {
      var n := |pdus| - 1;
      LaneSees(lanes, pdus[..n], j);
      var before := TakeAll(lanes, pdus[..n]);
      SameTarget(lanes, before, pdus[n].bus, 0);
      var mine := For(lanes, pdus[..n], j);
      assert (mine + [pdus[n].data])[..|mine|] == mine && mine + [] == mine;
    }
  }

  /** With distinct receive buses a PDU goes to exactly the lane of its bus. */
  lemma TargetIs(lanes: seq<Lane>, bus: byte, j: nat)
    requires j < |lanes| && Takes(lanes[j], bus)
    requires forall i :: 0 <= i < |lanes| && i != j ==> !Takes(lanes[i], bus)
    ensures Target(lanes, bus, 0) == Some(j)
  {
  }

  // ---- From sender to receiver -----------------------------------------

  /** A frame as its sender built it. */
  datatype Frame = Frame(max: nat, slots: seq<Slot>, bodies: Bodies, domain: u16, prefix: seq<byte>, txSeq: u16)

  ghost predicate Buildable(f: Frame) {
    && |f.slots| == SLOTS && |f.prefix| == 4 && BodiesHold(f.slots, f.bodies)
    && Build(f.max, f.slots, f.bodies, f.domain, f.prefix, f.txSeq).Some?
  }

  function OnAir(f: Frame): seq<byte>
    requires Buildable(f)
  {
    Build(f.max, f.slots, f.bodies, f.domain, f.prefix, f.txSeq).value
  }

  function SentBy(f: Frame): seq<Pdu>
    requires Buildable(f)
  {
    Sent(f.slots, f.bodies)
  }

  function Receive(lanes: seq<Lane>, frames: seq<Frame>): (r: seq<Lane>)
    requires forall i :: 0 <= i < |frames| ==> Buildable(frames[i])
    ensures |r| == |lanes|
  {
    if frames == [] then lanes
    else OnMpduRx(Receive(lanes, frames[..|frames| - 1]), OnAir(frames[|frames| - 1]))
  }

  function SentAll(frames: seq<Frame>): seq<Pdu>
    requires forall i :: 0 <= i < |frames| ==> Buildable(frames[i])
  {
    if frames == [] then [] else SentAll(frames[..|frames| - 1]) + SentBy(frames[|frames| - 1])
  }

  lemma {:induction false} TakeAllAppend(lanes: seq<Lane>, a: seq<Pdu>, b: seq<Pdu>)
    ensures TakeAll(lanes, a + b) == TakeAll(TakeAll(lanes, a), b)
  {
    if b == [] {
      assert a + b == a;
    } else {
      TakeAllAppend(lanes, a, b[..|b| - 1]);
      assert (a + b)[..|a + b| - 1] == a + b[..|b| - 1];
    }
  }

  /** Whatever frames arrive, in whatever order and however often: the lanes end as if the
      senders' PDUs had been handed over directly, byte for byte and in slot order. */
  lemma {:induction false} AirRoundTrip(lanes: seq<Lane>, frames: seq<Frame>)
    requires forall i :: 0 <= i < |frames| ==> Buildable(frames[i])
    ensures Receive(lanes, frames) == TakeAll(lanes, SentAll(frames))
  {
    if frames != [] {
      var n := |frames| - 1;
      var f := frames[n];
      AirRoundTrip(lanes, frames[..n]);
      FrameCarries(f.max, f.slots, f.bodies, f.domain, f.prefix, f.txSeq);
      TakeAllAppend(lanes, SentAll(frames[..n]), SentBy(f));
    }
  }

  /** One numbered payload of a sender's stream. */
  datatype Item = Item(t: int, payload: seq<byte>)

  function Stamped(items: seq<Item>): seq<seq<byte>> {
    seq(|items|, i requires 0 <= i < |items| => Be16(Wrapped(items[i].t)) + items[i].payload)
  }

  function Numbers(items: seq<Item>): seq<int> { seq(|items|, i requires 0 <= i < |items| => items[i].t) }

  /** The payloads handed on: all but those that repeat the highest number so far. */
  function Handed(k: Track, items: seq<Item>): seq<seq<byte>> {
    if items == [] then []
    else
      var n := |items| - 1;
      Handed(k, items[..n])
      + (if items[n].t == Run(k, Numbers(items[..n])).high then [] else [items[n].payload])
  }

  /** One more item at the end of a run. */
  lemma ItemsSnoc(k: Track, before: seq<Item>, last: Item)
    ensures Numbers(before + [last]) == Numbers(before) + [last.t]
    ensures Stamped(before + [last]) == Stamped(before) + [Be16(Wrapped(last.t)) + last.payload]
    ensures Run(k, Numbers(before + [last])) == Arrive(Run(k, Numbers(before)), last.t)
    ensures Handed(k, before + [last]) == Handed(k, before)
              + (if last.t == Run(k, Numbers(before)).high then [] else [last.payload])
  {
    assert Numbers(before + [last]) == Numbers(before) + [last.t];
    assert (Numbers(before) + [last.t])[..|before|] == Numbers(before);
    assert (before + [last])[..|before|] == before;
    hide Arrive;
  }

  lemma GiveAllSnoc(l: Lane, datas: seq<seq<byte>>, d: seq<byte>)
    ensures GiveAll(l, datas + [d]) == Give(GiveAll(l, datas), d)
  {
    assert (datas + [d])[..|datas|] == datas;
  }

  /** A lane that has seen its first PDU hands on exactly the later ones that are not repeats of
      the highest, in order of arrival, and keeps its loss count exact. */
  lemma {:induction false} LaneDelivers(l: Lane, k: Track, items: seq<Item>)
    requires l.seqs == k.s && Exact(k) && Windowed(k, Numbers(items))
    ensures GiveAll(l, Stamped(items))
            == l.(seqs := Run(k, Numbers(items)).s, given := l.given + Handed(k, items))
    ensures Exact(Run(k, Numbers(items)))
  {
    if items == [] {
      assert Numbers(items) == [] && Stamped(items) == [];
    } else {
      var n := |items| - 1;
      var before, last := items[..n], items[n];
      assert items == before + [last];
      ItemsSnoc(k, before, last);
      WindowedPrefix(k, Numbers(before), last.t);
      LaneDelivers(l, k, before);
      GiveAllSnoc(l, Stamped(before), Be16(Wrapped(last.t)) + last.payload);
      var m := Run(k, Numbers(before));
      CountExact(m, last.t);
      DroppedIff(m, last.t, last.payload);
      hide Run;
      hide Numbers;
      hide Stamped;
      hide Handed;
      hide GiveAll;
      hide Accept;
      hide Exact;
      hide NoteRx;
      hide Windowed;
      assert l.given + Handed(k, before) + [] == l.given + Handed(k, before);
    }
  }

  /** The payloads that do not repeat the highest number before them. */
  function Kept(items: seq<Item>): seq<seq<byte>> {
    if items == [] then []
    else
      var n := |items| - 1;
      Kept(items[..n]) + (if IsHighest(Numbers(items[..n]), items[n].t) then [] else [items[n].payload])
  }

  lemma KeptSnoc(before: seq<Item>, last: Item)
    ensures Kept(before + [last]) == Kept(before) + (if IsHighest(Numbers(before), last.t) then [] else [last.payload])
  {
    assert (before + [last])[..|before|] == before;
  }

  lemma NumbersSnoc(before: seq<Item>, last: Item)
    ensures Numbers(before + [last]) == Numbers(before) + [last.t]
    ensures Stamped(before + [last]) == Stamped(before) + [Be16(Wrapped(last.t)) + last.payload]
  {
  }

  /** A lane that has seen nothing hands on the first PDU and all later ones that do not repeat
      the highest, in order of arrival, and counts the losses exactly. */
  lemma {:induction false} FreshDelivers(l: Lane, items: seq<Item>)
    requires !l.seqs.have && l.seqs.lost == 0 && Paced(l.seqs, Numbers(items))
    ensures var seqs := if items == [] then l.seqs else TrackOf(l.seqs, Numbers(items)).s;
            GiveAll(l, Stamped(items)) == l.(seqs := seqs, given := l.given + Kept(items))
    ensures items != [] ==> Exact(TrackOf(l.seqs, Numbers(items)))
  {
    hide Paced;
    hide TrackOf;
    hide Accept;
    hide Exact;
    hide IsHighest;
    if items == [] {
      assert Stamped(items) == [];
    } else {
      var n := |items| - 1;
      var before, last := items[..n], items[n];
      assert items == before + [last];
      NumbersSnoc(before, last);
      KeptSnoc(before, last);
      PacedPrefix(l.seqs, Numbers(before), last.t);
      FreshDelivers(l, before);
      GiveAllSnoc(l, Stamped(before), Be16(Wrapped(last.t)) + last.payload);
      AcceptNext(l.seqs, Numbers(before), last.t, last.payload);
      hide Stamped;
      hide Numbers;
      hide Kept;
      hide GiveAll;
      assert l.given + Kept(before) + [] == l.given + Kept(before);
    }
  }
}
