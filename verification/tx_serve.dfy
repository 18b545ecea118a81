/** Service: a stream that offers something while the gate is open and tokens, quota and budget
    cover it gets its PDU into a frame, a frame leaves no room that a stream could use, and the
    gate opens again after every burst. */
module TxServe {
  import opened Bytes
  import opened AirFrame
  import opened TxSpec
  import opened TxFrame
  import opened TxRun
  import AirSeq
  import Arq = ArqSpec
  import Rx = AirRx

  // ---- What a stream offers ----------------------------------------------

  /** The queue's front packet fits, or the stream gives a frame. */
  predicate Offers(u: Up, max: nat, now: int) {
    match u
    case Absent => false
    case Udp(q) => q != [] && 1 <= |q[0]| <= max
    case Tcp(s) => Arq.PullTx(s, max, now).frame != []
  }

  function Offered(u: Up, max: nat, now: int): seq<byte>
    requires Offers(u, max, now)
  {
    match u
    case Udp(q) => q[0]
    case Tcp(s) => Arq.PullTx(s, max, now).frame
  }

  lemma OffersMore(u: Up, max: nat, more: nat, now: int)
    requires Offers(u, max, now) && max <= more
    ensures Offers(u, more, now)
  {
    if u.Tcp? { Arq.YieldsMore(u.s, max, more, now); }
    hide Arq.PullTx;
  }

  /** What frame, bucket and budget leave for the next PDU of lane i. */
  function RoomFor(total: nat, tokens: nat, remain: nat, budget: nat): nat {
    var room := if total + AirSeq.SEQ_LEN < PAYLOAD_MAX then PAYLOAD_MAX - AirSeq.SEQ_LEN - total else 0;
    Min(Min(room, tokens), if remain == budget then STREAM_MAX else remain)
  }

  predicate GateOpen(s: Sched, now: int) { now >= s.cooldown && s.burstSent < s.burstSize }

  predicate Wired(s: Sched, i: nat) {
    i < |s.lanes| && s.domain != 0 && s.lanes[i].radio && s.lanes[i].busTx != 0
  }

  /** Lane i could have a PDU in a data frame now. */
  predicate Servable(s: Sched, i: nat, remain: seq<nat>, dataSent: nat, now: int) {
    && |remain| == |s.lanes| && Wired(s, i) && GateOpen(s, now) && dataSent < s.maxData
    && Offers(s.lanes[i].up, RoomFor(0, s.tokens, remain[i], s.lanes[i].budget), now)
  }

  /** Lane i owes an acknowledgement or a control frame. */
  predicate OwesAck(s: Sched, i: nat, now: int) {
    Wired(s, i) && s.lanes[i].up.Tcp? && Arq.PullTx(s.lanes[i].up.s, STREAM_MAX, now).isAck
  }

  // ---- One PDU -----------------------------------------------------------

  /** What a lane offers within the room of a draft is pulled. */
  lemma OffersPulls(d: Draft, i: nat, now: int)
    requires i < |d.lanes| == |d.remain| && |d.slots| < SLOTS && d.lanes[i].busTx != 0
    requires Offers(d.lanes[i].up, RoomFor(Total(d), d.tokens, d.remain[i], d.lanes[i].budget), now)
    ensures Pulls(d, i, false, now)
    ensures PullFrom(d.lanes[i].up, MaxPull(d, i, false), now).bytes
            == Offered(d.lanes[i].up, RoomFor(Total(d), d.tokens, d.remain[i], d.lanes[i].budget), now)
  {
    hide Sum;
    hide Arq.PullTx;
    var u, max := d.lanes[i].up, RoomFor(Total(d), d.tokens, d.remain[i], d.lanes[i].budget);
    if u.Tcp? {
      Arq.YieldsHasTx(u.s, max, now);
      NothingInNothing(u.s, now);
    }
    assert max > 0;
    assert MaxPull(d, i, false) == max;
  }

  lemma NothingInNothing(s: Arq.Stream, now: int)
    ensures Arq.PullTx(s, 0, now).frame == []
  {
  }

  lemma AckPulls(d: Draft, i: nat, now: int)
    requires i < |d.lanes| == |d.remain| && d.slots == [] && d.lanes[i].busTx != 0
    requires d.lanes[i].up.Tcp? && Arq.PullTx(d.lanes[i].up.s, STREAM_MAX, now).isAck
    ensures Pulls(d, i, true, now) && HasAck(d.lanes[i].up)
    ensures PullFrom(d.lanes[i].up, MaxPull(d, i, true), now).bytes
            == Arq.PullTx(d.lanes[i].up.s, STREAM_MAX, now).frame
  {
    var u := d.lanes[i].up;
    assert Total(d) == 0;
    AckYields(u.s, STREAM_MAX, now);
    Arq.YieldsHasTx(u.s, STREAM_MAX, now);
    hide Arq.PullTx;
  }

  lemma AckYields(s: Arq.Stream, max: nat, now: int)
    requires Arq.PullTx(s, max, now).isAck
    ensures Arq.PullTx(s, max, now).frame != []
  {
  }

  // ---- The rest of the frame ---------------------------------------------

  /** Packing goes on from what is there: the PDUs stay, tokens only fall, and a lane that gave
      nothing is as it was. */
  ghost predicate Extends(d: Draft, r: Draft) {
    && |r.lanes| == |d.lanes| == |r.remain| == |d.remain|
    && d.used <= r.used && d.slots <= r.slots && d.bodies <= r.bodies && r.tokens <= d.tokens && Total(d) <= Total(r)
    && forall j :: 0 <= j < |d.lanes| && j !in r.used ==> r.lanes[j] == d.lanes[j] && r.remain[j] == d.remain[j]
  }

  lemma TryExtends(d: Draft, i: nat, acksOnly: bool, now: int)
    requires i < |d.lanes| == |d.remain|
    ensures Extends(d, TryPull(d, i, acksOnly, now))
    ensures Pulls(d, i, acksOnly, now) ==> i in TryPull(d, i, acksOnly, now).used
  {
    if Pulls(d, i, acksOnly, now) {
      var r := TryPull(d, i, acksOnly, now);
      SumSnoc(d.slots, r.slots[|d.slots|]);
      hide Pulls;
      hide Sum;
      hide PullFrom;
      hide MaxPull;
      assert r.used[|d.used|] == i;
      forall j | 0 <= j < |d.lanes| && j !in r.used ensures r.lanes[j] == d.lanes[j] && r.remain[j] == d.remain[j] {
        assert j != i;
      }
    }
  }

  lemma ExtendsTrans(a: Draft, b: Draft, c: Draft)
    requires Extends(a, b) && Extends(b, c)
    ensures Extends(a, c)
  {
    hide Sum;
    forall j | 0 <= j < |a.lanes| && j !in c.used ensures c.lanes[j] == a.lanes[j] && c.remain[j] == a.remain[j] {
      PrefixIn(b.used, c.used, j);
    }
  }

  lemma PrefixIn(a: seq<nat>, b: seq<nat>, j: nat)
    requires a <= b
    ensures j in a ==> j in b
  {
    assert forall k :: 0 <= k < |a| ==> a[k] == b[k];
  }

  lemma {:induction false} RestExtends(d: Draft, primary: nat, step: nat, acksOnly: bool, now: int)
    requires primary < |d.lanes| == |d.remain| && step <= |d.lanes|
    ensures Extends(d, PullRest(d, primary, step, acksOnly, now))
    decreases |d.lanes| - step
  {
    hide Extends;
    hide TryPull;
    if step == |d.lanes| || |d.slots| >= SLOTS {
      Same(d);
    } else {
      var i := (primary + step) % |d.lanes|;
      var e := TryPull(d, i, acksOnly, now);
      TryExtends(d, i, acksOnly, now);
      RestExtends(e, primary, step + 1, acksOnly, now);
      ExtendsTrans(d, e, PullRest(e, primary, step + 1, acksOnly, now));
    }
  }

  lemma Same(d: Draft)
    requires |d.lanes| == |d.remain|
    ensures Extends(d, d)
  {
  }

  /** Lane j could still add a PDU to the draft. */
  predicate CouldAdd(d: Draft, j: nat, now: int)
    requires j < |d.lanes| == |d.remain|
  {
    && |d.slots| < SLOTS && d.lanes[j].busTx != 0
    && Offers(d.lanes[j].up, RoomFor(Total(d), d.tokens, d.remain[j], d.lanes[j].budget), now)
  }

  /** A lane that could add to a later draft could have added to an earlier one. */
  lemma CouldBefore(d: Draft, r: Draft, j: nat, now: int)
    requires Extends(d, r) && j < |d.lanes| && j !in r.used && CouldAdd(r, j, now)
    ensures CouldAdd(d, j, now)
  {
    hide Sum;
    hide Offers;
    OffersMore(d.lanes[j].up, RoomFor(Total(r), r.tokens, r.remain[j], r.lanes[j].budget),
               RoomFor(Total(d), d.tokens, d.remain[j], d.lanes[j].budget), now);
  }

  /** The lanes from `step` on have had their turn: none of them could add anything. */
  lemma {:induction false} RestFull(d: Draft, primary: nat, step: nat, now: int, st: nat)
    requires primary < |d.lanes| == |d.remain| && step <= st < |d.lanes|
    ensures var r := PullRest(d, primary, step, false, now);
            var j := (primary + st) % |d.lanes|;
            j in r.used || !CouldAdd(r, j, now)
    decreases |d.lanes| - step
  {
    hide CouldAdd;
    hide TryPull;
    hide Extends;
    hide Pulls;
    if |d.slots| >= SLOTS {
      NoneFull(d, (primary + st) % |d.lanes|, now);
    } else {
      var i := (primary + step) % |d.lanes|;
      var e := TryPull(d, i, false, now);
      var r := PullRest(e, primary, step + 1, false, now);
      TryExtends(d, i, false, now);
      if step < st {
        RestFull(e, primary, step + 1, now, st);
      } else {
        RestExtends(e, primary, step + 1, false, now);
        ExtendsTrans(d, e, r);
        if i !in r.used && CouldAdd(r, i, now) {
          CouldBefore(d, r, i, now);
          CouldPulls(d, i, now);
          StillUsed(e, r, i);
        }
      }
    }
  }

  lemma NoneFull(d: Draft, j: nat, now: int)
    requires j < |d.lanes| == |d.remain| && |d.slots| >= SLOTS
    ensures !CouldAdd(d, j, now)
  {
  }

  lemma CouldPulls(d: Draft, i: nat, now: int)
    requires i < |d.lanes| == |d.remain| && CouldAdd(d, i, now)
    ensures Pulls(d, i, false, now)
  {
    OffersPulls(d, i, now);
  }

  lemma StillUsed(e: Draft, r: Draft, i: nat)
    requires Extends(e, r) && i in e.used
    ensures i in r.used
  {
    PrefixIn(e.used, r.used, i);
  }

  /** Every lane has a turn. */
  lemma HasTurn(n: nat, primary: nat, j: nat) returns (step: nat)
    requires primary < n && j < n
    ensures step < n && (primary + step) % n == j && (step == 0 ==> j == primary)
  {
    step := if j >= primary then j - primary else j + n - primary;
    Once(n, primary + step);
  }

  /** A data frame is as full as it can be: no stream that is not in it could still add a PDU. */
  lemma FrameFull(s: Sched, primary: nat, remain: seq<nat>, now: int, j: nat)
    requires primary < |s.lanes| == |remain| && Pulls(Empty(s, remain), primary, false, now) && j < |s.lanes|
    ensures var d := Filled(s, primary, false, remain, now);
            j in d.used || !CouldAdd(d, j, now)
  {
    hide CouldAdd;
    hide Pulls;
    hide TryPull;
    hide Extends;
    var e := TryPull(Empty(s, remain), primary, false, now);
    TryExtends(Empty(s, remain), primary, false, now);
    var step := HasTurn(|s.lanes|, primary, j);
    if step == 0 {
      RestExtends(e, primary, 1, false, now);
      StillUsed(e, PullRest(e, primary, 1, false, now), primary);
    } else {
      RestFull(e, primary, 1, now, step);
    }
  }

  // ---- One transmission --------------------------------------------------

  /** The first PDU of a draft is what lane i offered, behind the lane's next number. */
  ghost predicate CarriesFirst(d: Draft, i: nat, bus: byte, tx: u16, bytes: seq<byte>) {
    && |d.used| >= 1 && |d.slots| >= 1 && |d.bodies| >= 1
    && d.used[0] == i && d.slots[0].bus == bus && d.bodies[0] == Be16(tx) + bytes
  }

  lemma FirstPdu(s: Sched, i: nat, acksOnly: bool, remain: seq<nat>, now: int)
    requires i < |s.lanes| == |remain| && Pulls(Empty(s, remain), i, acksOnly, now)
    ensures CarriesFirst(Filled(s, i, acksOnly, remain, now), i, s.lanes[i].busTx, s.lanes[i].seqs.tx,
                         PullFrom(s.lanes[i].up, MaxPull(Empty(s, remain), i, acksOnly), now).bytes)
  {
    var e := TryPull(Empty(s, remain), i, acksOnly, now);
    assert CarriesFirst(e, i, s.lanes[i].busTx, s.lanes[i].seqs.tx,
                        PullFrom(s.lanes[i].up, MaxPull(Empty(s, remain), i, acksOnly), now).bytes);
    RestExtends(e, i, 1, acksOnly, now);
    var r := PullRest(e, i, 1, acksOnly, now);
    hide TryPull;
    hide PullRest;
    hide Pulls;
    hide PullFrom;
    hide MaxPull;
    hide Sum;
    assert e.used[0] == r.used[0] && e.slots[0] == r.slots[0] && e.bodies[0] == r.bodies[0];
  }

  /** A lane that can be served is served: a frame is built, its first PDU is what the lane
      offers, and only the radio can refuse it. */
  lemma EmitServes(s: Sched, i: nat, remain: seq<nat>, dataSent: nat, now: int, sent: bool, noteAt: int)
    requires Servable(s, i, remain, dataSent, now)
    ensures var r := Emit(s, i, false, remain, dataSent, now, sent, noteAt);
            var l := s.lanes[i];
            && r.ok == sent && r.draft.Some?
            && CarriesFirst(r.draft.value, i, l.busTx, l.seqs.tx,
                            Offered(l.up, RoomFor(0, s.tokens, remain[i], l.budget), now))
  {
    hide Filled;
    hide CommitAll;
    hide AnyData;
    hide NoteBurst;
    var e := Empty(s, remain);
    assert Total(e) == 0;
    OffersPulls(e, i, now);
    FirstPdu(s, i, false, remain, now);
    OffersWants(s.lanes[i].up, RoomFor(0, s.tokens, remain[i], s.lanes[i].budget), now);
    hide Pulls;
    hide Offers;
    hide PullFrom;
  }

  lemma OffersWants(u: Up, max: nat, now: int)
    requires Offers(u, max, now)
    ensures u != Absent && HasTx(u) && max > 0
  {
    if u.Tcp? {
      Arq.YieldsHasTx(u.s, max, now);
      NothingInNothing(u.s, now);
    }
    hide Arq.PullTx;
  }

  /** The same for a lane that owes an acknowledgement; tokens, quota and the gate do not matter. */
  lemma EmitAcks(s: Sched, i: nat, remain: seq<nat>, dataSent: nat, now: int, sent: bool, noteAt: int)
    requires OwesAck(s, i, now) && |remain| == |s.lanes|
    ensures var r := Emit(s, i, true, remain, dataSent, now, sent, noteAt);
            var l := s.lanes[i];
            && r.ok == sent && r.draft.Some?
            && CarriesFirst(r.draft.value, i, l.busTx, l.seqs.tx, Arq.PullTx(l.up.s, STREAM_MAX, now).frame)
  {
    hide Filled;
    hide CommitAll;
    hide AnyData;
    hide NoteBurst;
    hide Arq.PullTx;
    var e := Empty(s, remain);
    AckPulls(e, i, now);
    FirstPdu(s, i, true, remain, now);
    hide Pulls;
    hide PullFrom;
  }

  /** If a willing radio was offered nothing, the state is as it was. */
  lemma RefusedSame(s: Sched, i: nat, acksOnly: bool, remain: seq<nat>, dataSent: nat, now: int, noteAt: int)
    requires |remain| == |s.lanes|
    ensures var r := Emit(s, i, acksOnly, remain, dataSent, now, true, noteAt);
            !r.ok ==> r.s == s && r.remain == remain && r.dataSent == dataSent
                      && (if acksOnly then !OwesAck(s, i, now) else !Servable(s, i, remain, dataSent, now))
  {
    hide Filled;
    hide CommitAll;
    hide AnyData;
    hide NoteBurst;
    hide Pulls;
    hide MayEmit;
    hide Servable;
    hide OwesAck;
    if acksOnly && OwesAck(s, i, now) { EmitAcks(s, i, remain, dataSent, now, true, noteAt); }
    if !acksOnly && Servable(s, i, remain, dataSent, now) { EmitServes(s, i, remain, dataSent, now, true, noteAt); }
  }

  // ---- The gate opens again ----------------------------------------------

  /** The cooldown is the first one or ends one interval after some frame of the run. */
  ghost predicate GateInv(s: Sched, r: Sched, shots: seq<Shot>) {
    && r.burstSent < r.burstSize && r.burstSize == s.burstSize && r.intervalUs == s.intervalUs
    && (r.cooldown == s.cooldown
        || exists i :: 0 <= i < |shots| && shots[i].noteAt + s.intervalUs * 1000 == r.cooldown)
  }

  lemma GateShot(s: Sched, m: Sched, r: Sched, shots: seq<Shot>, now: int, noteAt: int)
    requires GateInv(s, m, shots) && r.burstSize == m.burstSize && r.intervalUs == m.intervalUs
    requires r.burstSent == NoteBurst(m, noteAt).burstSent && r.cooldown == NoteBurst(m, noteAt).cooldown
    ensures GateInv(s, r, shots + [Shot(now, noteAt)])
  {
    var all := shots + [Shot(now, noteAt)];
    if r.cooldown == m.cooldown && m.cooldown != s.cooldown {
      var i :| 0 <= i < |shots| && shots[i].noteAt + s.intervalUs * 1000 == m.cooldown;
      assert all[i] == shots[i];
    } else if r.cooldown != m.cooldown {
      assert all[|shots|].noteAt + s.intervalUs * 1000 == r.cooldown;
    }
  }

  lemma GateStill(s: Sched, m: Sched, r: Sched, shots: seq<Shot>)
    requires GateInv(s, m, shots) && r.burstSize == m.burstSize && r.intervalUs == m.intervalUs
    requires r.burstSent == m.burstSent && r.cooldown == m.cooldown
    ensures GateInv(s, r, shots)
  {
  }

  lemma {:induction false} GateKeeps(s: Sched, es: seq<Event>)
    requires s.burstSent < s.burstSize
    ensures GateInv(s, Exec(s, es), Shots(s, es))
  {
    hide GateInv;
    hide EmitAt;
    hide Fires;
    hide BurstAllows;
    hide NoteBurst;
    if es == [] {
      GateStart(s);
    } else {
      var before, e := es[..|es| - 1], es[|es| - 1];
      GateKeeps(s, before);
      var m, shots := Exec(s, before), Shots(s, before);
      assert shots + [] == shots;
      if e.Tried? {
        EmitGate(m, e);
        if Fires(m, e) {
          GateShot(s, m, Step(m, e), shots, e.now, e.noteAt);
        } else {
          GateStill(s, m, Step(m, e), shots);
        }
      } else {
        NoFire(m, e);
        GateStill(s, m, Step(m, e), shots);
      }
    }
  }

  lemma GateStart(s: Sched)
    requires s.burstSent < s.burstSize
    ensures GateInv(s, s, [])
  {
  }

  /** Over any run with fixed pacing the gate is open once an interval has passed since the last
      data frame. */
  lemma GateReopens(s: Sched, es: seq<Event>, now: int)
    requires s.burstSent < s.burstSize && s.cooldown <= now
    requires forall i :: 0 <= i < |Shots(s, es)| ==> Shots(s, es)[i].noteAt + s.intervalUs * 1000 <= now
    ensures GateOpen(Exec(s, es), now)
  {
    GateKeeps(s, es);
    hide Exec;
    hide Shots;
  }

  // ---- The end of a pass -------------------------------------------------

  /** Where the data loop of a pass ended: budgets left, data frames sent, and for each lane the
      clock reading at which it was last asked. */
  datatype End = End(left: seq<nat>, dataSent: nat, at: seq<int>)

  /** No lane could be served when it was last asked. */
  ghost predicate Exhausted(s: Sched, e: End) {
    |e.left| == |e.at| == |s.lanes|
    && forall i :: 0 <= i < |s.lanes| ==> !Servable(s, i, e.left, e.dataSent, e.at[i])
  }

  /** Without tokens or quota no lane can be served. */
  lemma NothingLeft(s: Sched, e: End)
    requires |e.left| == |e.at| == |s.lanes| && (s.tokens == 0 || e.dataSent >= s.maxData)
    ensures Exhausted(s, e)
  {
    forall i | 0 <= i < |s.lanes| ensures !Servable(s, i, e.left, e.dataSent, e.at[i]) {
      if Servable(s, i, e.left, e.dataSent, e.at[i]) {
        OffersWants(s.lanes[i].up, RoomFor(0, s.tokens, e.left[i], s.lanes[i].budget), e.at[i]);
      }
    }
    hide Offers;
  }

  /** No lane owed an acknowledgement when it was last asked. */
  ghost predicate AllAcked(s: Sched, at: seq<int>) {
    |at| == |s.lanes| && forall i :: 0 <= i < |s.lanes| ==> !OwesAck(s, i, at[i])
  }
}
