/** What one transmission does: the frame always fits and builds, each lane adds at most one
    PDU, acknowledgements run out, and a UDP packet leaves only inside an accepted frame. */
module TxFrame {
  import opened Bytes
  import opened AirFrame
  import opened TxSpec
  import AirSeq
  import Arq = ArqSpec
  import AirRx

  // ---- Pulling ---------------------------------------------------------

  function AckCount(u: Up): nat { if u.Tcp? then |u.s.ctrlq| + (if u.s.ackPending then 1 else 0) else 0 }

  /** A pull stays within its limit; while a stream has acknowledgements it gives nothing else,
      and each one pulled is one less. */
  lemma PullSound(u: Up, max: nat, now: int)
    ensures var p := PullFrom(u, max, now);
            && |p.bytes| <= max
            && AckCount(p.up) <= AckCount(u)
            && (p.bytes != [] && p.isAck ==> AckCount(p.up) < AckCount(u))
            && (HasAck(u) && p.bytes != [] ==> p.isAck)
            && (p.isAck ==> HasAck(u))
            && (u.Udp? ==> p.up == u && (p.bytes != [] ==> u.q != [] && p.bytes == u.q[0]))
  {
    if u.Tcp? && max >= Arq.HEADER && !HasAck(u) {
      var i := Arq.FirstReady(u.s.unacked, max);
      if i < |u.s.unacked| { assert Arq.Ready(u.s.unacked[i], max); }
    }
  }

  function Acks(lanes: seq<Lane>): nat {
    if lanes == [] then 0 else Acks(lanes[..|lanes| - 1]) + AckCount(lanes[|lanes| - 1].up)
  }

  lemma {:induction false} AcksUpdate(lanes: seq<Lane>, i: nat, l: Lane)
    requires i < |lanes|
    ensures Acks(lanes[i := l]) + AckCount(lanes[i].up) == Acks(lanes) + AckCount(l.up)
  {
    var n := |lanes| - 1;
    if i < n {
      AcksUpdate(lanes[..n], i, l);
      assert lanes[i := l][..n] == lanes[..n][i := l];
    } else {
      assert lanes[i := l][..n] == lanes[..n];
    }
  }

  // ---- Drafts ----------------------------------------------------------

  /** The PDUs of a draft: distinct lanes, real bodies, and never more than a frame can hold. */
  ghost predicate DraftOk(d: Draft) {
    && |d.lanes| == |d.remain| && |d.slots| == |d.bodies| == |d.acks| == |d.used| <= SLOTS
    && Total(d) <= PAYLOAD_MAX
    && (forall k :: 0 <= k < |d.slots| ==> 3 <= d.slots[k].size == |d.bodies[k]|)
    && (forall k :: 0 <= k < |d.used| ==> d.used[k] < |d.lanes| && d.slots[k].bus == d.lanes[d.used[k]].busTx != 0)
    && (forall j, k :: 0 <= j < k < |d.used| ==> d.used[j] != d.used[k])
  }

  lemma SumSnoc(slots: seq<Slot>, s: Slot)
    ensures Sum(slots + [s]) == Sum(slots) + s.size
  {
    assert (slots + [s])[..|slots|] == slots;
  }

  /** The pull limit keeps the PDU inside the frame. */
  lemma PullFits(d: Draft, i: nat, acksOnly: bool, now: int)
    requires i < |d.lanes| == |d.remain| && Pulls(d, i, acksOnly, now)
    ensures var p := PullFrom(d.lanes[i].up, MaxPull(d, i, acksOnly), now);
            && 1 <= |p.bytes| <= STREAM_MAX && Total(d) + |p.bytes| + AirSeq.SEQ_LEN <= PAYLOAD_MAX
            && (!acksOnly ==> |p.bytes| <= d.tokens)
            && (acksOnly ==> p.isAck)
            && (!acksOnly && d.remain[i] != d.lanes[i].budget ==> |p.bytes| <= d.remain[i])
  {
    PullSound(d.lanes[i].up, MaxPull(d, i, acksOnly), now);
    hide PullFrom;
  }

  lemma DraftSnoc(d: Draft, r: Draft, i: nat, slot: Slot)
    requires DraftOk(d) && i < |d.lanes| == |r.lanes| == |r.remain| && i !in d.used && |d.slots| < SLOTS
    requires r.used == d.used + [i] && r.slots == d.slots + [slot] && |r.acks| == |d.acks| + 1
    requires |r.bodies| == |d.bodies| + 1 && r.bodies[..|d.bodies|] == d.bodies && |r.bodies[|d.bodies|]| == slot.size
    requires forall j :: 0 <= j < |d.lanes| ==> r.lanes[j].busTx == d.lanes[j].busTx
    requires slot.size >= 3 && slot.bus == d.lanes[i].busTx != 0 && Sum(r.slots) <= PAYLOAD_MAX
    ensures DraftOk(r)
  {
    hide Sum;
    forall k | 0 <= k < |r.slots| ensures 3 <= r.slots[k].size == |r.bodies[k]| {
      if k < |d.slots| { assert r.bodies[k] == d.bodies[k]; }
    }
  }

  /** A pull appends one PDU and touches no lane's bus. */
  lemma TryShape(d: Draft, i: nat, acksOnly: bool, now: int)
    requires i < |d.lanes| == |d.remain| && Pulls(d, i, acksOnly, now)
    ensures var r := TryPull(d, i, acksOnly, now);
            var p := PullFrom(d.lanes[i].up, MaxPull(d, i, acksOnly), now);
            var slot := Slot(d.lanes[i].busTx, |p.bytes| + AirSeq.SEQ_LEN);
            && 1 <= |p.bytes| <= STREAM_MAX && Total(d) + |p.bytes| + AirSeq.SEQ_LEN <= PAYLOAD_MAX
            && d.lanes[i].busTx != 0 && |d.slots| < SLOTS
            && r.used == d.used + [i] && r.slots == d.slots + [slot] && |r.acks| == |d.acks| + 1
            && |r.bodies| == |d.bodies| + 1 && r.bodies[..|d.bodies|] == d.bodies && |r.bodies[|d.bodies|]| == slot.size
            && (forall j :: 0 <= j < |d.lanes| ==> r.lanes[j].busTx == d.lanes[j].busTx)
  {
    PullFits(d, i, acksOnly, now);
    hide PullFrom;
    hide MaxPull;
    hide Sum;
  }

  lemma TryPullOk(d: Draft, i: nat, acksOnly: bool, now: int)
    requires DraftOk(d) && i < |d.lanes| && i !in d.used
    ensures DraftOk(TryPull(d, i, acksOnly, now))
    ensures Pulls(d, i, acksOnly, now) ==> TryPull(d, i, acksOnly, now).used == d.used + [i]
    ensures !Pulls(d, i, acksOnly, now) ==> TryPull(d, i, acksOnly, now) == d
  {
    DraftLanes(d);
    if Pulls(d, i, acksOnly, now) {
      var r := TryPull(d, i, acksOnly, now);
      var n := |PullFrom(d.lanes[i].up, MaxPull(d, i, acksOnly), now).bytes| + AirSeq.SEQ_LEN;
      var slot := Slot(d.lanes[i].busTx, n % 65536);
      TryShape(d, i, acksOnly, now);
      SumSnoc(d.slots, slot);
      hide DraftOk;
      hide TryPull;
      hide Pulls;
      hide PullFrom;
      hide MaxPull;
      hide Sum;
      DraftSnoc(d, r, i, slot);
    }
  }

  /** What a lane looks like after one draft: untouched, or advanced by exactly its own PDU. */
  ghost predicate Advanced(before: seq<Lane>, d: Draft, now: int) {
    && |before| == |d.lanes|
    && (forall i :: 0 <= i < |before| && i !in d.used ==> d.lanes[i] == before[i])
    && (forall k :: 0 <= k < |d.used| ==>
          (|d.bodies| == |d.used| && d.used[k] < |before|
           && LaneAdvanced(before[d.used[k]], d.lanes[d.used[k]], d.bodies[k], now)))
  }

  ghost predicate LaneAdvanced(a: Lane, b: Lane, body: seq<byte>, now: int) {
    && b == a.(up := b.up, seqs := a.seqs.(tx := (a.seqs.tx + 1) % 65536))
    && (exists max: nat :: GivesBody(a, b, body, max, now))
  }

  ghost predicate GivesBody(a: Lane, b: Lane, body: seq<byte>, max: nat, now: int) {
    var p := PullFrom(a.up, max, now);
    p.up == b.up && p.bytes != [] && body == Be16(a.seqs.tx) + p.bytes
  }

  lemma TryPullAdvances(before: seq<Lane>, d: Draft, i: nat, acksOnly: bool, now: int)
    requires DraftOk(d) && i < |d.lanes| && i !in d.used && Advanced(before, d, now)
    ensures Advanced(before, TryPull(d, i, acksOnly, now), now)
  {
    hide LaneAdvanced;
    hide DraftOk;
    DraftShape(d);
    if Pulls(d, i, acksOnly, now) {
      var r := TryPull(d, i, acksOnly, now);
      BodyGiven(before[i], d, i, acksOnly, now);
      hide PullFrom;
      hide MaxPull;
      hide Pulls;
    }
  }

  lemma DraftShape(d: Draft)
    requires DraftOk(d)
    ensures |d.lanes| == |d.remain|
    ensures |d.bodies| == |d.used| && forall k :: 0 <= k < |d.used| ==> d.used[k] < |d.lanes|
  {
  }

  lemma BodyGiven(a: Lane, d: Draft, i: nat, acksOnly: bool, now: int)
    requires i < |d.lanes| == |d.remain| && Pulls(d, i, acksOnly, now) && d.lanes[i] == a
    ensures var r := TryPull(d, i, acksOnly, now);
            |r.bodies| == |d.bodies| + 1 && LaneAdvanced(a, r.lanes[i], r.bodies[|d.bodies|], now)
  {
    var r := TryPull(d, i, acksOnly, now);
    assert GivesBody(a, r.lanes[i], r.bodies[|d.bodies|], MaxPull(d, i, acksOnly), now);
  }

  /** The lanes visited so far in the round that starts at the primary one. */
  ghost predicate Round(d: Draft, primary: nat, step: nat) {
    forall k :: 0 <= k < |d.used| ==> HadTurn(d, primary, step, d.used[k])
  }

  ghost predicate HadTurn(d: Draft, primary: nat, step: nat, v: nat) {
    exists s: nat :: s < step && Turn(d, primary, s) == v
  }

  function Turn(d: Draft, primary: nat, step: nat): nat {
    if |d.lanes| == 0 then 0 else (primary + step) % |d.lanes|
  }

  lemma TurnsDiffer(n: nat, primary: nat, a: nat, b: nat)
    requires a < b < n && primary < n
    ensures (primary + a) % n != (primary + b) % n
  {
    var x := if primary + a < n then primary + a else primary + a - n;
    var y := if primary + b < n then primary + b else primary + b - n;
    Once(n, primary + a);
    Once(n, primary + b);
  }

  lemma MulLe(a: int, b: int, d: int)
    requires d > 0
    ensures a < b ==> (a + 1) * d <= b * d
  {
  }

  lemma ModOf(v: int, d: int, q: int, r: int)
    requires d > 0 && v == q * d + r && 0 <= r < d
    ensures v % d == r
  {
    MulLe(v / d, q, d);
    MulLe(q, v / d, d);
  }

  lemma Once(n: nat, v: nat)
    requires v < 2 * n
    ensures v % n == if v < n then v else v - n
  {
    if v >= n { ModOf(v, n, 1, v - n); }
  }

  lemma {:induction false} PullRestOk(before: seq<Lane>, d: Draft, primary: nat, step: nat, acksOnly: bool, now: int)
    requires primary < |d.lanes| && step <= |d.lanes| && DraftOk(d) && Round(d, primary, step)
    requires Advanced(before, d, now)
    ensures var r := PullRest(d, primary, step, acksOnly, now);
            DraftOk(r) && Advanced(before, r, now) && d.used <= r.used
    decreases |d.lanes| - step
  {
    hide DraftOk;
    hide Advanced;
    assert |d.lanes| == |d.remain| by { DraftLanes(d); }
    if step < |d.lanes| && |d.slots| < SLOTS {
      var i := (primary + step) % |d.lanes|;
      if i in d.used {
        var k :| 0 <= k < |d.used| && d.used[k] == i;
        assert HadTurn(d, primary, step, d.used[k]);
        var s: nat :| s < step && Turn(d, primary, s) == d.used[k];
        TurnsDiffer(|d.lanes|, primary, s, step);
        assert false;
      }
      var e := TryPull(d, i, acksOnly, now);
      TryPullOk(d, i, acksOnly, now);
      TryPullAdvances(before, d, i, acksOnly, now);
      hide Pulls;
      hide TryPull;
      RoundMore(d, e, primary, step);
      PullRestOk(before, e, primary, step + 1, acksOnly, now);
    }
  }

  lemma DraftLanes(d: Draft)
    requires DraftOk(d)
    ensures |d.lanes| == |d.remain|
  {
  }

  lemma RoundMore(d: Draft, e: Draft, primary: nat, step: nat)
    requires |d.lanes| == |e.lanes| > 0 && Round(d, primary, step)
    requires e.used == d.used || e.used == d.used + [(primary + step) % |d.lanes|]
    ensures Round(e, primary, step + 1)
  {
    forall k | 0 <= k < |e.used| ensures HadTurn(e, primary, step + 1, e.used[k]) {
      if k < |d.used| {
        assert HadTurn(d, primary, step, d.used[k]);
        var s: nat :| s < step && Turn(d, primary, s) == d.used[k];
        assert Turn(e, primary, s) == e.used[k];
      } else {
        assert Turn(e, primary, step) == e.used[k];
      }
    }
  }

  lemma FilledOk(s: Sched, primary: nat, acksOnly: bool, remain: seq<nat>, now: int)
    requires primary < |s.lanes| == |remain| && Pulls(Empty(s, remain), primary, acksOnly, now)
    ensures var d := Filled(s, primary, acksOnly, remain, now);
            DraftOk(d) && Advanced(s.lanes, d, now) && |d.used| >= 1 && d.used[0] == primary
  {
    var e := Empty(s, remain);
    TryPullOk(e, primary, acksOnly, now);
    TryPullAdvances(s.lanes, e, primary, acksOnly, now);
    var d := TryPull(e, primary, acksOnly, now);
    assert Turn(d, primary, 0) == primary by { Once(|d.lanes|, primary); }
    assert Round(d, primary, 1);
    hide DraftOk;
    hide Advanced;
    hide Pulls;
    hide TryPull;
    PullRestOk(s.lanes, d, primary, 1, acksOnly, now);
  }

  // ---- The frame of a draft --------------------------------------------

  function FrameOf(s: Sched, d: Draft): AirRx.Frame
    requires |d.slots| <= SLOTS
  {
    AirRx.Frame(INJECT_MAX, PadSlots(d), PadBodies(d), s.domain, s.prefix, s.txSeq)
  }

  function DraftPdus(d: Draft): seq<Pdu>
    requires |d.slots| == |d.bodies|
  {
    seq(|d.slots|, k requires 0 <= k < |d.slots| => Pdu(d.slots[k].bus, d.bodies[k]))
  }

  lemma PadHolds(d: Draft)
    requires DraftOk(d)
    ensures BodiesHold(PadSlots(d), PadBodies(d)) && BodiesPresent(PadSlots(d), PadBodies(d))
  {
    hide Sum;
  }

  lemma {:induction false} PadPrefix(d: Draft, j: nat)
    requires DraftOk(d) && j <= SLOTS
    ensures Sum(PadSlots(d)[..j]) == Sum(d.slots[..Min(j, |d.slots|)])
  {
    var n := Min(j, |d.slots|);
    var slots := PadSlots(d);
    if j > 0 {
      PadPrefix(d, j - 1);
      assert slots[..j][..j - 1] == slots[..j - 1];
      if j <= |d.slots| { assert d.slots[..j][..j - 1] == d.slots[..j - 1]; }
    }
  }

  lemma {:induction false} PadSent(d: Draft, j: nat)
    requires DraftOk(d) && j <= SLOTS
    ensures BodiesHold(PadSlots(d)[..j], PadBodies(d)[..j]) && BodiesPresent(PadSlots(d)[..j], PadBodies(d)[..j])
    ensures Sent(PadSlots(d)[..j], PadBodies(d)[..j]) == DraftPdus(d)[..Min(j, |d.slots|)]
  {
    PadHolds(d);
    var slots, bodies := PadSlots(d), PadBodies(d);
    if j > 0 {
      PadSent(d, j - 1);
      assert slots[..j][..j - 1] == slots[..j - 1] && bodies[..j][..j - 1] == bodies[..j - 1];
      if j <= |d.slots| {
        assert bodies[j - 1].value[..slots[j - 1].size] == d.bodies[j - 1];
        assert DraftPdus(d)[..j] == DraftPdus(d)[..j - 1] + [DraftPdus(d)[j - 1]];
      }
    }
  }

  /** mpdu_build cannot fail after a pull, and the frame carries exactly the PDUs pulled. */
  lemma FrameBuilds(s: Sched, d: Draft)
    requires DraftOk(d) && |d.slots| >= 1 && s.domain != 0 && |s.prefix| == 4
    ensures AirRx.Buildable(FrameOf(s, d)) && AirRx.SentBy(FrameOf(s, d)) == DraftPdus(d)
  {
    PadHolds(d);
    PadPrefix(d, SLOTS);
    PadSent(d, SLOTS);
    var slots := PadSlots(d);
    assert slots[..SLOTS] == slots && PadBodies(d)[..SLOTS] == PadBodies(d);
    assert d.slots[..|d.slots|] == d.slots && DraftPdus(d)[..|d.slots|] == DraftPdus(d);
    SizeInSum(d.slots, 0);
    hide Sum;
    hide Sent;
    hide Joined;
    hide Header;
    hide PadSlots;
    hide PadBodies;
    hide DraftPdus;
  }

  // ---- Acknowledgements run out ----------------------------------------

  lemma TryPullAcks(d: Draft, i: nat, acksOnly: bool, now: int)
    requires i < |d.lanes| == |d.remain|
    ensures var r := TryPull(d, i, acksOnly, now);
            && Acks(r.lanes) <= Acks(d.lanes)
            && |r.acks| >= |d.acks| && r.acks[..|d.acks|] == d.acks
            && (|r.acks| > |d.acks| && r.acks[|d.acks|] ==> Acks(r.lanes) < Acks(d.lanes))
            && (|r.acks| > |d.acks| && acksOnly ==> r.acks[|d.acks|])
            && (|r.acks| > |d.acks| <==> Pulls(d, i, acksOnly, now))
  {
    if Pulls(d, i, acksOnly, now) {
      PullSound(d.lanes[i].up, MaxPull(d, i, acksOnly), now);
      var r := TryPull(d, i, acksOnly, now);
      AcksUpdate(d.lanes, i, r.lanes[i]);
    }
  }

  lemma {:induction false} PullRestAcks(d: Draft, primary: nat, step: nat, acksOnly: bool, now: int)
    requires primary < |d.lanes| == |d.remain| && step <= |d.lanes|
    ensures var r := PullRest(d, primary, step, acksOnly, now);
            && Acks(r.lanes) <= Acks(d.lanes)
            && |r.acks| >= |d.acks| && r.acks[..|d.acks|] == d.acks
            && (acksOnly ==> forall k :: |d.acks| <= k < |r.acks| ==> r.acks[k])
    decreases |d.lanes| - step
  {
    if step < |d.lanes| && |d.slots| < SLOTS {
      var i := (primary + step) % |d.lanes|;
      var e := TryPull(d, i, acksOnly, now);
      TryPullAcks(d, i, acksOnly, now);
      PullRestAcks(e, primary, step + 1, acksOnly, now);
      var r := PullRest(e, primary, step + 1, acksOnly, now);
      hide Pulls;
      hide TryPull;
      assert r.acks[..|d.acks|] == r.acks[..|e.acks|][..|d.acks|];
      forall k | acksOnly && |d.acks| <= k < |r.acks| ensures r.acks[k] {
        if k < |e.acks| { assert r.acks[k] == r.acks[..|e.acks|][k]; }
      }
    }
  }

  lemma {:induction false} CommitAcks(lanes: seq<Lane>, used: seq<nat>)
    ensures Acks(CommitAll(lanes, used)) == Acks(lanes)
  {
    if used != [] {
      CommitAcks(lanes, used[..|used| - 1]);
      var before := CommitAll(lanes, used[..|used| - 1]);
      var i := used[|used| - 1];
      if i < |before| { AcksUpdate(before, i, before[i].(up := Commit(before[i].up))); }
    }
  }

  /** Work left in one pass: acknowledgements queued and data frames still allowed. */
  function Work(s: Sched, dataSent: nat): int { Acks(s.lanes) + s.maxData - dataSent }

  lemma FilledAcks(s: Sched, primary: nat, acksOnly: bool, remain: seq<nat>, now: int)
    requires primary < |s.lanes| == |remain| && Pulls(Empty(s, remain), primary, acksOnly, now)
    ensures var f := Filled(s, primary, acksOnly, remain, now);
            && Acks(f.lanes) <= Acks(s.lanes) && Acks(CommitAll(f.lanes, f.used)) == Acks(f.lanes)
            && (AnyData(f) || Acks(f.lanes) < Acks(s.lanes))
            && (acksOnly ==> !AnyData(f))
  {
    var e := Empty(s, remain);
    var d := TryPull(e, primary, acksOnly, now);
    TryPullAcks(e, primary, acksOnly, now);
    hide TryPull;
    hide Pulls;
    PullRestAcks(d, primary, 1, acksOnly, now);
    var f := Filled(s, primary, acksOnly, remain, now);
    CommitAcks(f.lanes, f.used);
    hide PullRest;
    hide Acks;
    hide CommitAll;
    assert |d.acks| >= 1 && f.acks[0] == d.acks[0] by { assert f.acks[..|d.acks|][0] == d.acks[0]; }
    if acksOnly {
      forall k | 0 <= k < |f.acks| ensures f.acks[k] {
        if k < |d.acks| { assert f.acks[..|d.acks|][k] == d.acks[k]; }
      }
    }
  }

  /** Every successful transmission uses up an acknowledgement or a data frame of the tick's
      quota, and no transmission adds to either: both loops of a tick end. */
  lemma EmitProgress(s: Sched, primary: nat, acksOnly: bool, remain: seq<nat>, dataSent: nat, now: int, sent: bool,
                     noteAt: int)
    requires |remain| == |s.lanes|
    ensures var r := Emit(s, primary, acksOnly, remain, dataSent, now, sent, noteAt);
            && Acks(r.s.lanes) <= Acks(s.lanes) && r.s.maxData == s.maxData
            && (acksOnly ==> r.dataSent == dataSent)
            && (dataSent <= s.maxData ==> dataSent <= r.dataSent <= s.maxData || (acksOnly && r.dataSent == dataSent))
            && (r.ok && acksOnly ==> Acks(r.s.lanes) < Acks(s.lanes))
            && (r.ok ==> Work(r.s, r.dataSent) < Work(s, dataSent))
            && Work(r.s, r.dataSent) <= Work(s, dataSent)
  {
    if MayEmit(s, primary, acksOnly, dataSent, now) && Pulls(Empty(s, remain), primary, acksOnly, now) {
      FilledAcks(s, primary, acksOnly, remain, now);
    }
    assert MayEmit(s, primary, acksOnly, dataSent, now) && !acksOnly ==> dataSent < s.maxData;
    hide MayEmit;
    hide Pulls;
    hide Filled;
    hide CommitAll;
    hide AnyData;
    hide Acks;
  }
}
