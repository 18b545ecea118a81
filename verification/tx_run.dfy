/** Whole runs of the scheduler: the rate bound, the burst bound and the UDP ledger. */
module TxRun {
  import opened Bytes
  import opened AirFrame
  import opened TxSpec
  import opened TxFrame
  import AirSeq

  /** One step of a run. Between transmissions streams change as they like. */
  datatype Event =
    | Refilled(now: int)
    | Tried(primary: nat, acksOnly: bool, remain: seq<nat>, dataSent: nat, now: int, sent: bool, noteAt: int)
    | Offered(lane: nat, pkt: seq<byte>)
    | Changed(lane: nat, tcp: Up)

  function EmitAt(s: Sched, e: Event): (r: Emitted)
    requires e.Tried?
  {
    if |e.remain| != |s.lanes| then Emitted(false, s, e.remain, e.dataSent, None)
    else Emit(s, e.primary, e.acksOnly, e.remain, e.dataSent, e.now, e.sent, e.noteAt)
  }

  function Step(s: Sched, e: Event): Sched {
    match e
    case Refilled(now) => Refill(s, now)
    case Tried(_, _, _, _, _, _, _) => EmitAt(s, e).s
    case Offered(i, pkt) =>
      if i < |s.lanes| && s.lanes[i].up.Udp?
      then s.(lanes := s.lanes[i := s.lanes[i].(up := Udp(Enqueue(s.lanes[i].up.q, pkt)))]) else s
    case Changed(i, tcp) =>
      if i < |s.lanes| && s.lanes[i].up.Tcp? && tcp.Tcp? then s.(lanes := s.lanes[i := s.lanes[i].(up := tcp)]) else s
  }

  function Exec(s: Sched, es: seq<Event>): Sched {
    if es == [] then s else Step(Exec(s, es[..|es| - 1]), es[|es| - 1])
  }

  /** The clock never runs backwards; `t` is the last reading. */
  function Clock(t: int, e: Event): int {
    match e
    case Refilled(now) => now
    case Tried(_, _, _, _, _, _, noteAt) => noteAt
    case Offered(_, _) => t
    case Changed(_, _) => t
  }

  predicate Later(t: int, e: Event) {
    match e
    case Refilled(now) => t <= now
    case Tried(_, _, _, _, now, _, noteAt) => t <= now <= noteAt
    case Offered(_, _) => true
    case Changed(_, _) => true
  }

  function ClockAfter(t: int, es: seq<Event>): int {
    if es == [] then t else Clock(ClockAfter(t, es[..|es| - 1]), es[|es| - 1])
  }

  predicate Timely(t: int, es: seq<Event>) {
    es == [] || (Timely(t, es[..|es| - 1]) && Later(ClockAfter(t, es[..|es| - 1]), es[|es| - 1]))
  }

  // ---- Rate bound ------------------------------------------------------

  /** Bytes of the PDUs that count against the rate, and how many there are. */
  function ChargedBytes(slots: seq<Slot>, acks: seq<bool>): nat
    requires |slots| == |acks|
  {
    if slots == [] then 0
    else
      var n := |slots| - 1;
      ChargedBytes(slots[..n], acks[..n]) + (if acks[n] then 0 else slots[n].size)
  }

  function Count(acks: seq<bool>): nat {
    if acks == [] then 0 else Count(acks[..|acks| - 1]) + (if acks[|acks| - 1] then 0 else 1)
  }

  function DraftBytes(d: Option<Draft>): nat {
    if d.Some? && |d.value.slots| == |d.value.acks| then ChargedBytes(d.value.slots, d.value.acks) else 0
  }

  function DraftCount(d: Option<Draft>): nat { if d.Some? then Count(d.value.acks) else 0 }

  function DataBytes(s: Sched, es: seq<Event>): nat {
    if es == [] then 0
    else
      var before, e := es[..|es| - 1], es[|es| - 1];
      DataBytes(s, before) + EventBytes(Exec(s, before), e)
  }

  function DataPdus(s: Sched, es: seq<Event>): nat {
    if es == [] then 0
    else
      var before, e := es[..|es| - 1], es[|es| - 1];
      DataPdus(s, before) + EventPdus(Exec(s, before), e)
  }

  /** Tokens pay for all data bytes of a draft but two per PDU. */
  ghost predicate Paid(tokens: nat, d: Draft) {
    && |d.slots| == |d.acks| && d.tokens <= tokens
    && ChargedBytes(d.slots, d.acks) + d.tokens <= tokens + 2 * Count(d.acks)
  }

  lemma Appended(slots: seq<Slot>, acks: seq<bool>, slot: Slot, ack: bool)
    requires |slots| == |acks|
    ensures ChargedBytes(slots + [slot], acks + [ack]) == ChargedBytes(slots, acks) + (if ack then 0 else slot.size)
    ensures Count(acks + [ack]) == Count(acks) + (if ack then 0 else 1)
  {
    assert (slots + [slot])[..|slots|] == slots && (acks + [ack])[..|acks|] == acks;
  }

  lemma PaidMore(tokens: nat, d: Draft, r: Draft, slot: Slot, ack: bool)
    requires Paid(tokens, d) && r.slots == d.slots + [slot] && r.acks == d.acks + [ack]
    requires if ack then r.tokens == d.tokens else slot.size <= d.tokens + 2 && r.tokens == Less(d.tokens, slot.size)
    ensures Paid(tokens, r)
  {
    Appended(d.slots, d.acks, slot, ack);
    hide ChargedBytes;
    hide Count;
  }

  lemma PullTokens(d: Draft, i: nat, acksOnly: bool, now: int)
    requires i < |d.lanes| == |d.remain| && Pulls(d, i, acksOnly, now)
    ensures var r := TryPull(d, i, acksOnly, now);
            var p := PullFrom(d.lanes[i].up, MaxPull(d, i, acksOnly), now);
            var slot := Slot(d.lanes[i].busTx, (|p.bytes| + 2) % 65536);
            && r.slots == d.slots + [slot] && r.acks == d.acks + [p.isAck]
            && if p.isAck then r.tokens == d.tokens
               else slot.size <= d.tokens + 2 && r.tokens == Less(d.tokens, slot.size)
  {
    PullFits(d, i, acksOnly, now);
    hide Pulls;
    hide PullFrom;
    hide MaxPull;
    hide Sum;
  }

  lemma TryPullPaid(tokens: nat, d: Draft, i: nat, acksOnly: bool, now: int)
    requires i < |d.lanes| == |d.remain| && Paid(tokens, d)
    ensures Paid(tokens, TryPull(d, i, acksOnly, now))
  {
    if Pulls(d, i, acksOnly, now) {
      PullTokens(d, i, acksOnly, now);
      hide TryPull;
      hide Pulls;
      hide PullFrom;
      hide MaxPull;
      hide Paid;
      var r := TryPull(d, i, acksOnly, now);
      PaidMore(tokens, d, r, r.slots[|d.slots|], r.acks[|d.acks|]);
    }
  }

  lemma {:induction false} PullRestPaid(tokens: nat, d: Draft, primary: nat, step: nat, acksOnly: bool, now: int)
    requires primary < |d.lanes| == |d.remain| && step <= |d.lanes| && Paid(tokens, d)
    ensures Paid(tokens, PullRest(d, primary, step, acksOnly, now))
    decreases |d.lanes| - step
  {
    hide Paid;
    hide TryPull;
    if step < |d.lanes| && |d.slots| < SLOTS {
      var i := (primary + step) % |d.lanes|;
      TryPullPaid(tokens, d, i, acksOnly, now);
      PullRestPaid(tokens, TryPull(d, i, acksOnly, now), primary, step + 1, acksOnly, now);
    }
  }

  /** What a step leaves alone. */
  predicate SameSetup(a: Sched, b: Sched) {
    && a.rate == b.rate && a.burstSize == b.burstSize && a.intervalUs == b.intervalUs && a.domain == b.domain
    && a.prefix == b.prefix && a.maxData == b.maxData && |a.lanes| == |b.lanes|
  }

  lemma FilledPaid(s: Sched, primary: nat, acksOnly: bool, remain: seq<nat>, now: int)
    requires primary < |s.lanes| == |remain|
    ensures Paid(s.tokens, Filled(s, primary, acksOnly, remain, now))
  {
    var e := Empty(s, remain);
    assert Paid(s.tokens, e);
    hide Paid;
    hide TryPull;
    TryPullPaid(s.tokens, e, primary, acksOnly, now);
    PullRestPaid(s.tokens, TryPull(e, primary, acksOnly, now), primary, 1, acksOnly, now);
  }

  lemma PaidDraft(tokens: nat, d: Draft)
    requires Paid(tokens, d)
    ensures DraftBytes(Some(d)) + d.tokens <= tokens + 2 * DraftCount(Some(d)) && d.tokens <= tokens
  {
  }

  lemma EmitPaid(s: Sched, e: Event)
    requires e.Tried?
    ensures var r := EmitAt(s, e);
            && DraftBytes(r.draft) + r.s.tokens <= s.tokens + 2 * DraftCount(r.draft) && r.s.tokens <= s.tokens
            && r.s.lastRefill == s.lastRefill && SameSetup(r.s, s)
  {
    hide Filled;
    hide Pulls;
    hide CommitAll;
    hide AnyData;
    hide Paid;
    if |e.remain| == |s.lanes| && MayEmit(s, e.primary, e.acksOnly, e.dataSent, e.now) {
      FilledPaid(s, e.primary, e.acksOnly, e.remain, e.now);
      PaidDraft(s.tokens, Filled(s, e.primary, e.acksOnly, e.remain, e.now));
    }
    hide MayEmit;
    hide ChargedBytes;
    hide Count;
    assert DraftBytes(None) == 0 && DraftCount(None) == 0;
    hide DraftBytes;
    hide DraftCount;
  }

  /** One refill never credits more than the exact rate: the product's wrap and the two
      truncating divisions only lose. */
  lemma CreditBound(rate: nat, last: int, now: int)
    requires last <= now
    ensures 8_000_000 * Credit(rate, ElapsedUs(last, now)) <= rate * (now - last)
  {
    var us := ElapsedUs(last, now);
    var raw := rate * us;
    assert raw % UINT64 <= raw;
    assert 8000 * Credit(rate, us) <= raw;
    assert rate * (us * 1000) <= rate * (now - last);
  }

  /** What a refill may lose at most: less than 1 us of the time and less than one token. */
  ghost predicate Credited(rate: nat, time: int, tokens: nat) {
    rate * time <= 8_000_000 * tokens + 7_999_000 + 999 * rate
  }

  /** A refill credits all of the rate but that remainder if and only if the product of rate and
      microseconds does not wrap. */
  lemma CreditExact(rate: nat, last: int, now: int)
    requires last <= now && rate < UINT64
    ensures rate * ElapsedUs(last, now) < UINT64 <==> Credited(rate, now - last, Credit(rate, ElapsedUs(last, now)))
  {
    var us := ElapsedUs(last, now);
    var rest := now - last - 1000 * us;
    Split(rate, us, rest);
    Remainder(rate * us, rate * rest, rate);
  }

  /** The two truncations, on the product itself. */
  lemma Remainder(product: nat, rest: int, rate: nat)
    requires 0 <= rest <= 999 * rate && rate < UINT64
    ensures product < UINT64
            <==> 1000 * product + rest <= 8_000_000 * (product % UINT64 / 8000) + 7_999_000 + 999 * rate
  {
    if product >= UINT64 { assert product % UINT64 == (product - UINT64) % UINT64 <= product - UINT64; }
  }

  lemma Split(rate: nat, us: nat, rest: int)
    requires 0 <= rest <= 999
    ensures rate * (1000 * us + rest) == 1000 * (rate * us) + rate * rest
    ensures 0 <= rate * rest <= 999 * rate
  {
  }

  /** So a refill fills the bucket or adds the rate but for that remainder. */
  lemma RefillReaches(s: Sched, now: int)
    requires Ok(s) && s.lastRefill <= now && s.rate < UINT64 && s.rate * ElapsedUs(s.lastRefill, now) < UINT64
    ensures var t := Refill(s, now);
            t.tokens >= s.tokens
            && (t.tokens == BURST || Credited(s.rate, now - s.lastRefill, t.tokens - s.tokens))
  {
    CreditExact(s.rate, s.lastRefill, now);
    hide Credit;
    hide ElapsedUs;
    hide Credited;
  }

  function EventBytes(s: Sched, e: Event): nat { if e.Tried? then DraftBytes(EmitAt(s, e).draft) else 0 }

  function EventPdus(s: Sched, e: Event): nat { if e.Tried? then DraftCount(EmitAt(s, e).draft) else 0 }

  /** Between two states: bytes within the tokens spent, the exact rate times the time, and two
      bytes per PDU. Rate is in kbit/s and time in ns, so both sides are scaled by 8,000,000. */
  ghost predicate WithinRate(a: Sched, b: Sched, bytes: nat, pdus: nat) {
    8_000_000 * (bytes + b.tokens) <= 8_000_000 * (a.tokens + 2 * pdus) + a.rate * (b.lastRefill - a.lastRefill)
  }

  lemma RateAdds(a: Sched, b: Sched, c: Sched, bytes: nat, pdus: nat, bytes': nat, pdus': nat)
    requires WithinRate(a, b, bytes, pdus) && WithinRate(b, c, bytes', pdus') && a.rate == b.rate
    ensures WithinRate(a, c, bytes + bytes', pdus + pdus')
  {
    Spread(a.rate, a.lastRefill, b.lastRefill, c.lastRefill);
  }

  lemma Spread(rate: nat, a: int, b: int, c: int)
    ensures rate * (c - a) == rate * (b - a) + rate * (c - b)
  {
  }

  lemma SameTime(a: Sched, b: Sched, bytes: nat, pdus: nat)
    requires bytes + b.tokens <= a.tokens + 2 * pdus && a.lastRefill == b.lastRefill
    ensures WithinRate(a, b, bytes, pdus)
  {
  }

  lemma RefillPaid(s: Sched, now: int)
    requires Ok(s) && s.lastRefill <= now
    ensures var r := Refill(s, now); Ok(r) && r.lastRefill == now && SameSetup(r, s) && WithinRate(s, r, 0, 0)
  {
    CreditBound(s.rate, s.lastRefill, now);
    hide Credit;
    hide ElapsedUs;
  }

  lemma StepPaid(s: Sched, t: int, e: Event)
    requires Ok(s) && s.lastRefill <= t && Later(t, e)
    ensures var r := Step(s, e);
            && Ok(r) && SameSetup(r, s) && s.lastRefill <= r.lastRefill <= Clock(t, e)
            && WithinRate(s, r, EventBytes(s, e), EventPdus(s, e))
  {
    hide WithinRate;
    match e
    case Tried(_, _, _, _, _, _, _) =>
      EmitPaid(s, e);
      hide EmitAt;
      SameTime(s, Step(s, e), EventBytes(s, e), EventPdus(s, e));
    case Refilled(now) =>
      RefillPaid(s, now);
      hide Refill;
    case Offered(i, pkt) =>
      SameTime(s, Step(s, e), 0, 0);
    case Changed(i, tcp) =>
      SameTime(s, Step(s, e), 0, 0);
  }

  /** Over any run with fixed settings the data bytes sent stay within the starting tokens plus
      the exact rate times the elapsed time plus two bytes per data PDU, and the bucket never
      overflows. */
  lemma {:induction false} RateBound(s: Sched, es: seq<Event>)
    requires Ok(s) && Timely(s.lastRefill, es)
    ensures var t := Exec(s, es);
            && Ok(t) && SameSetup(t, s) && s.lastRefill <= t.lastRefill <= ClockAfter(s.lastRefill, es)
            && WithinRate(s, t, DataBytes(s, es), DataPdus(s, es))
  {
    hide Step;
    hide EventBytes;
    hide EventPdus;
    hide Clock;
    hide Later;
    hide WithinRate;
    if es == [] {
      NoTime(s);
    } else {
      var before, e := es[..|es| - 1], es[|es| - 1];
      RateBound(s, before);
      var m := Exec(s, before);
      StepPaid(m, ClockAfter(s.lastRefill, before), e);
      RateAdds(s, m, Step(m, e), DataBytes(s, before), DataPdus(s, before), EventBytes(m, e), EventPdus(m, e));
    }
  }

  lemma NoTime(s: Sched)
    ensures WithinRate(s, s, 0, 0)
  {
  }

  // ---- Burst bound -----------------------------------------------------

  /** A data frame on the air: when the gate let it through and when it was counted. */
  datatype Shot = Shot(allowAt: int, noteAt: int)

  predicate Fires(s: Sched, e: Event) {
    e.Tried? && EmitAt(s, e).ok && EmitAt(s, e).draft.Some? && AnyData(EmitAt(s, e).draft.value)
  }

  function Shots(s: Sched, es: seq<Event>): seq<Shot> {
    if es == [] then []
    else
      var before, e := es[..|es| - 1], es[|es| - 1];
      Shots(s, before) + (if Fires(Exec(s, before), e) then [Shot(e.now, e.noteAt)] else [])
  }

  /** Frames further apart than one burst are at least one interval apart. */
  ghost predicate Spaced(shots: seq<Shot>, size: nat, gap: int) {
    forall i, j :: 0 <= i && i + size <= j < |shots| ==> shots[i].noteAt + gap <= shots[j].allowAt
  }

  ghost predicate BurstInv(s: Sched, t: int, shots: seq<Shot>) {
    && s.burstSent < s.burstSize && s.burstSent <= |shots|
    && (forall i :: 0 <= i < |shots| ==> shots[i].allowAt <= shots[i].noteAt <= t)
    && (forall i :: 0 <= i < |shots| - s.burstSent ==> shots[i].noteAt + s.intervalUs * 1000 <= s.cooldown)
    && Spaced(shots, s.burstSize, s.intervalUs * 1000)
  }

  /** Acks-only transmissions never carry data; data transmissions passed the gate. */
  lemma EmitGate(s: Sched, e: Event)
    requires e.Tried?
    ensures var r := EmitAt(s, e);
            && SameSetup(r.s, s)
            && (Fires(s, e) ==>
                  (BurstAllows(s, e.now) && r.s.burstSent == NoteBurst(s, e.noteAt).burstSent
                   && r.s.cooldown == NoteBurst(s, e.noteAt).cooldown))
            && (!Fires(s, e) ==> r.s.burstSent == s.burstSent && r.s.cooldown == s.cooldown)
  {
    EmitPaid(s, e);
    if |e.remain| == |s.lanes| && MayEmit(s, e.primary, e.acksOnly, e.dataSent, e.now)
       && Pulls(Empty(s, e.remain), e.primary, e.acksOnly, e.now) && e.acksOnly {
      var d := Empty(s, e.remain);
      var f := TryPull(d, e.primary, true, e.now);
      TryPullAcks(d, e.primary, true, e.now);
      PullRestAcks(f, e.primary, 1, true, e.now);
      var g := Filled(s, e.primary, true, e.remain, e.now);
      forall k | 0 <= k < |g.acks| ensures g.acks[k] {
        if k < |f.acks| { assert g.acks[..|f.acks|][k] == f.acks[k]; }
      }
    }
    hide TryPull;
    hide PullRest;
    hide Pulls;
    hide CommitAll;
  }

  lemma ShotFired(s: Sched, r: Sched, t: int, shots: seq<Shot>, now: int, noteAt: int)
    requires BurstInv(s, t, shots) && t <= now <= noteAt && BurstAllows(s, now)
    requires r.burstSize == s.burstSize && r.intervalUs == s.intervalUs
    requires r.burstSent == NoteBurst(s, noteAt).burstSent && r.cooldown == NoteBurst(s, noteAt).cooldown
    ensures BurstInv(r, noteAt, shots + [Shot(now, noteAt)])
  {
    var all := shots + [Shot(now, noteAt)];
    var gap := s.intervalUs * 1000;
    forall i, j | 0 <= i && i + s.burstSize <= j < |all| ensures all[i].noteAt + gap <= all[j].allowAt {
      if j == |shots| { assert all[i] == shots[i]; }
    }
  }

  lemma BurstLater(s: Sched, r: Sched, t: int, u: int, shots: seq<Shot>)
    requires BurstInv(s, t, shots) && t <= u
    requires r.burstSize == s.burstSize && r.intervalUs == s.intervalUs
    requires r.burstSent == s.burstSent && r.cooldown == s.cooldown
    ensures BurstInv(r, u, shots)
  {
  }

  lemma {:induction false} BurstKeeps(s: Sched, t: int, es: seq<Event>)
    requires s.burstSent == 0 && s.burstSize >= 1 && Timely(t, es)
    ensures BurstInv(Exec(s, es), ClockAfter(t, es), Shots(s, es)) && SameSetup(Exec(s, es), s)
  {
    hide BurstInv;
    hide EmitAt;
    hide Fires;
    hide BurstAllows;
    hide NoteBurst;
    if es == [] {
      BurstStart(s, t);
    } else {
      var before, e := es[..|es| - 1], es[|es| - 1];
      BurstKeeps(s, t, before);
      var m, u := Exec(s, before), ClockAfter(t, before);
      var shots := Shots(s, before);
      if e.Tried? {
        EmitGate(m, e);
        if Fires(m, e) {
          ShotFired(m, Step(m, e), u, shots, e.now, e.noteAt);
        } else {
          BurstLater(m, Step(m, e), u, Clock(u, e), shots);
          assert shots + [] == shots;
        }
      } else {
        assert !Fires(m, e) by { NoFire(m, e); }
        BurstLater(m, Step(m, e), u, Clock(u, e), shots);
        assert shots + [] == shots;
      }
    }
  }

  lemma NoFire(s: Sched, e: Event)
    ensures !e.Tried? ==> !Fires(s, e)
  {
  }

  lemma BurstStart(s: Sched, t: int)
    requires s.burstSent == 0 && s.burstSize >= 1
    ensures BurstInv(s, t, [])
  {
  }

  /** A send time for every frame, somewhere between the gate and the count. */
  predicate SentWithin(at: seq<int>, shots: seq<Shot>) {
    |at| == |shots| && forall i :: 0 <= i < |at| ==> shots[i].allowAt <= at[i] <= shots[i].noteAt
  }

  function InWindow(at: seq<int>, from: int, gap: int): set<nat> {
    set i: nat | i < |at| && from <= at[i] < from + gap
  }

  function Indices(m: nat, n: nat): (r: set<nat>)
    ensures |r| == n
    ensures forall i: nat :: i in r <==> m <= i < m + n
  {
    if n == 0 then {} else Indices(m, n - 1) + {m + n - 1}
  }

  lemma {:induction false} SubsetSize(a: set<nat>, b: set<nat>)
    requires a <= b
    ensures |a| <= |b|
  {
    if a != {} {
      var x :| x in a;
      SubsetSize(a - {x}, b - {x});
    }
  }

  lemma {:induction false} Least(a: set<nat>) returns (m: nat)
    requires a != {}
    ensures m in a && forall i :: i in a ==> m <= i
    decreases |a|
  {
    var x :| x in a;
    if a == {x} {
      m := x;
    } else {
      var y := Least(a - {x});
      assert forall i :: i in a ==> i == x || i in a - {x};
      m := if x < y then x else y;
    }
  }

  lemma WindowCount(at: seq<int>, shots: seq<Shot>, size: nat, gap: int, from: int)
    requires SentWithin(at, shots) && Spaced(shots, size, gap)
    ensures |InWindow(at, from, gap)| <= size
  {
    var w := InWindow(at, from, gap);
    if w != {} {
      var m := Least(w);
      assert forall i :: m + size <= i < |shots| ==> at[m] + gap <= at[i];
      SubsetSize(w, Indices(m, size));
    }
  }

  /** Over any run with fixed pacing every half-open time window of the interval's length holds
      at most one burst of data frames. */
  lemma BurstBound(s: Sched, t: int, es: seq<Event>, at: seq<int>, from: int)
    requires s.burstSent == 0 && s.burstSize >= 1 && Timely(t, es) && SentWithin(at, Shots(s, es))
    ensures |InWindow(at, from, s.intervalUs * 1000)| <= s.burstSize
  {
    BurstKeeps(s, t, es);
    WindowCount(at, Shots(s, es), s.burstSize, s.intervalUs * 1000, from);
  }

  // ---- UDP ledger ------------------------------------------------------

  /** How a packet left its queue: inside an accepted frame, or dropped as the oldest. */
  datatype Departure = Flown(pkt: seq<byte>, draft: Draft) | Dropped(pkt: seq<byte>)

  predicate IsUdp(s: Sched, u: nat) { u < |s.lanes| && s.lanes[u].up.Udp? }

  predicate Commits(r: Emitted, u: nat) { r.ok && r.draft.Some? && u in r.draft.value.used }

  function Left(s: Sched, e: Event, u: nat): seq<Departure>
    requires IsUdp(s, u)
  {
    var q := s.lanes[u].up.q;
    match e
    case Tried(_, _, _, _, _, _, _) =>
      var r := EmitAt(s, e);
      if Commits(r, u) && q != [] then [Flown(q[0], r.draft.value)] else []
    case Offered(i, pkt) => if i == u && pkt != [] && |q| >= UDP_QUEUE then [Dropped(q[0])] else []
    case Refilled(_) => []
    case Changed(_, _) => []
  }

  function Came(e: Event, u: nat): seq<seq<byte>> {
    if e.Offered? && e.lane == u && e.pkt != [] then [e.pkt] else []
  }

  function Pkts(ds: seq<Departure>): seq<seq<byte>> { seq(|ds|, i requires 0 <= i < |ds| => ds[i].pkt) }

  /** The draft carries the packet on this lane's bus behind a sequence number. */
  ghost predicate Carries(d: Departure, u: nat) {
    d.Flown? ==> exists k :: 0 <= k < |d.draft.used| && CarriesAt(d, u, k)
  }

  predicate CarriesAt(d: Departure, u: nat, k: nat)
    requires d.Flown?
  {
    && k < |d.draft.used| && d.draft.used[k] == u && k < |d.draft.bodies|
    && |d.draft.bodies[k]| >= 2 && d.draft.bodies[k][2..] == d.pkt
  }

  lemma {:induction false} CommitOnce(lanes: seq<Lane>, used: seq<nat>, u: nat)
    requires u < |lanes| && (forall k :: 0 <= k < |used| ==> used[k] < |lanes|)
    requires forall j, k :: 0 <= j < k < |used| ==> used[j] != used[k]
    ensures CommitAll(lanes, used)[u]
            == if u in used then lanes[u].(up := Commit(lanes[u].up)) else lanes[u]
  {
    if used != [] {
      var n := |used| - 1;
      CommitOnce(lanes, used[..n], u);
      assert used == used[..n] + [used[n]];
      if used[n] == u { assert u !in used[..n]; }
    }
  }

  lemma DraftUdp(before: seq<Lane>, d: Draft, u: nat, now: int)
    requires Advanced(before, d, now) && u < |before| && before[u].up.Udp?
    ensures d.lanes[u].up == before[u].up
    ensures forall k :: 0 <= k < |d.used| && d.used[k] == u ==>
              (|d.bodies| == |d.used| && before[u].up.q != [] && |d.bodies[k]| >= 2
               && d.bodies[k] == Be16(before[u].seqs.tx) + before[u].up.q[0]
               && d.lanes[u].seqs.tx == (before[u].seqs.tx + 1) % 65536)
  {
    forall k | 0 <= k < |d.used| && d.used[k] == u
      ensures |d.bodies| == |d.used| && before[u].up.q != [] && |d.bodies[k]| >= 2
      ensures d.bodies[k] == Be16(before[u].seqs.tx) + before[u].up.q[0]
      ensures d.lanes[u].seqs.tx == (before[u].seqs.tx + 1) % 65536 && d.lanes[u].up == before[u].up
    {
      assert LaneAdvanced(before[u], d.lanes[u], d.bodies[k], now);
      var max: nat :| GivesBody(before[u], d.lanes[u], d.bodies[k], max, now);
    }
    if u in d.used {
      var k :| 0 <= k < |d.used| && d.used[k] == u;
    }
  }

  /** Where the draft used lane u, its body is the front of the queue behind the next number. */
  ghost predicate FrontUsed(l: Lane, after: Lane, d: Draft, u: nat) {
    forall k :: 0 <= k < |d.used| && d.used[k] == u ==>
      (l.up.Udp? && l.up.q != [] && k < |d.bodies| && |d.bodies[k]| >= 2
       && d.bodies[k] == Be16(l.seqs.tx) + l.up.q[0] && after.seqs.tx == (l.seqs.tx + 1) % 65536)
  }

  lemma FilledUdp(s: Sched, primary: nat, acksOnly: bool, remain: seq<nat>, now: int, u: nat)
    requires primary < |s.lanes| == |remain| && Pulls(Empty(s, remain), primary, acksOnly, now) && IsUdp(s, u)
    ensures var d := Filled(s, primary, acksOnly, remain, now);
            var l := s.lanes[u];
            && d.lanes[u].up == l.up && FrontUsed(l, d.lanes[u], d, u)
            && CommitAll(d.lanes, d.used)[u]
               == if u in d.used then d.lanes[u].(up := Commit(l.up)) else d.lanes[u]
  {
    hide Filled;
    hide Pulls;
    hide CommitAll;
    hide DraftOk;
    hide Advanced;
    hide Commit;
    FilledOk(s, primary, acksOnly, remain, now);
    var d := Filled(s, primary, acksOnly, remain, now);
    DraftUdp(s.lanes, d, u, now);
    DraftCommit(d, u);
  }

  lemma DraftCommit(d: Draft, u: nat)
    requires DraftOk(d) && u < |d.lanes|
    ensures CommitAll(d.lanes, d.used)[u]
            == if u in d.used then d.lanes[u].(up := Commit(d.lanes[u].up)) else d.lanes[u]
  {
    CommitOnce(d.lanes, d.used, u);
  }

  /** The next PDU of lane `l` has its number in front. */
  ghost predicate NumberInFront(l: Lane, d: Draft, u: nat) {
    && |d.bodies| == |d.used|
    && forall k :: 0 <= k < |d.used| && d.used[k] == u ==>
         |d.bodies[k]| >= 3 && d.bodies[k] == Be16(l.seqs.tx) + d.bodies[k][2..]
  }

  lemma DraftNumbers(before: seq<Lane>, d: Draft, u: nat, now: int)
    requires Advanced(before, d, now) && u < |before| && |d.bodies| == |d.used|
    ensures d.lanes[u].busTx == before[u].busTx && d.lanes[u].budget == before[u].budget
    ensures NumberInFront(before[u], d, u)
    ensures d.lanes[u].seqs.tx == if u in d.used then (before[u].seqs.tx + 1) % 65536 else before[u].seqs.tx
  {
    hide PullFrom;
    forall k | 0 <= k < |d.used| && d.used[k] == u
      ensures |d.bodies[k]| >= 3 && d.bodies[k] == Be16(before[u].seqs.tx) + d.bodies[k][2..]
      ensures d.lanes[u].seqs.tx == (before[u].seqs.tx + 1) % 65536
      ensures d.lanes[u].busTx == before[u].busTx && d.lanes[u].budget == before[u].budget
    {
      assert LaneAdvanced(before[u], d.lanes[u], d.bodies[k], now);
      var max: nat :| GivesBody(before[u], d.lanes[u], d.bodies[k], max, now);
    }
    if u in d.used {
      var k :| 0 <= k < |d.used| && d.used[k] == u;
    }
  }

  /** What a transmission that built a frame is made of. */
  lemma EmitShape(s: Sched, e: Event)
    requires e.Tried? && EmitAt(s, e).draft.Some?
    ensures var r := EmitAt(s, e);
            var d := r.draft.value;
            && DraftOk(d) && Advanced(s.lanes, d, e.now) && |d.used| >= 1 && s.domain != 0
            && r.s.lanes == if r.ok then CommitAll(d.lanes, d.used) else d.lanes
  {
    hide Pulls;
    hide Filled;
    hide CommitAll;
    hide DraftOk;
    hide Advanced;
    MayPrimary(s, e);
    FilledOk(s, e.primary, e.acksOnly, e.remain, e.now);
  }

  /** A lane's next number moves exactly when the lane has a PDU in a frame that was built,
      whether the radio then takes the frame or not. */
  lemma EmitNumbers(s: Sched, e: Event, u: nat)
    requires e.Tried? && u < |s.lanes|
    ensures var r := EmitAt(s, e);
            var used := r.draft.Some? && u in r.draft.value.used;
            && |r.s.lanes| == |s.lanes| && r.s.lanes[u].busTx == s.lanes[u].busTx
            && r.s.lanes[u].budget == s.lanes[u].budget
            && r.s.lanes[u].seqs.tx == (if used then (s.lanes[u].seqs.tx + 1) % 65536 else s.lanes[u].seqs.tx)
            && (r.draft.Some? ==> NumberInFront(s.lanes[u], r.draft.value, u))
  {
    var r := EmitAt(s, e);
    EmitPaid(s, e);
    if r.draft.Some? {
      var d := r.draft.value;
      EmitShape(s, e);
      FullDraft(d);
      DraftNumbers(s.lanes, d, u, e.now);
      DraftCommit(d, u);
      hide EmitAt;
      hide Advanced;
      hide DraftOk;
      hide CommitAll;
      hide NumberInFront;
    } else {
      NoDraft(s, e);
    }
  }

  lemma FullDraft(d: Draft)
    requires DraftOk(d)
    ensures |d.bodies| == |d.used| == |d.slots| && |d.lanes| == |d.remain|
  {
  }

  lemma NoDraft(s: Sched, e: Event)
    requires e.Tried? && EmitAt(s, e).draft.None?
    ensures EmitAt(s, e).s == s && !EmitAt(s, e).ok
  {
    hide Pulls;
    hide Filled;
    hide CommitAll;
    hide MayEmit;
  }

  lemma EmitQueue(s: Sched, e: Event, u: nat)
    requires e.Tried? && IsUdp(s, u)
    ensures var r := EmitAt(s, e);
            var q := s.lanes[u].up.q;
            && IsUdp(r.s, u)
            && r.s.lanes[u].up.q == (if Commits(r, u) && q != [] then q[1..] else q)
            && (Commits(r, u) ==> q != [])
            && (r.draft.Some? ==> FrontUsed(s.lanes[u], r.s.lanes[u], r.draft.value, u))
  {
    hide Pulls;
    hide Filled;
    hide CommitAll;
    hide MayEmit;
    if |e.remain| == |s.lanes| && MayEmit(s, e.primary, e.acksOnly, e.dataSent, e.now) {
      MayPrimary(s, e);
      if Pulls(Empty(s, e.remain), e.primary, e.acksOnly, e.now) {
        FilledUdp(s, e.primary, e.acksOnly, e.remain, e.now, u);
        var d := Filled(s, e.primary, e.acksOnly, e.remain, e.now);
        if u in d.used {
          var k :| 0 <= k < |d.used| && d.used[k] == u;
        }
      }
    }
  }

  /** A packet leaves its queue exactly when the frame that carries it was accepted. A number is
      spent with the packet still queued exactly when the lane was in a frame that was refused. */
  lemma EmitUdp(s: Sched, e: Event, u: nat)
    requires e.Tried? && IsUdp(s, u)
    ensures var r := EmitAt(s, e);
            var q := s.lanes[u].up.q;
            var used := r.draft.Some? && u in r.draft.value.used;
            && IsUdp(r.s, u)
            && r.s.lanes[u].up.q == (if Commits(r, u) && q != [] then q[1..] else q)
            && (Commits(r, u) ==> q != [])
            && (r.draft.Some? ==> FrontUsed(s.lanes[u], r.s.lanes[u], r.draft.value, u))
            && (r.s.lanes[u].seqs.tx != s.lanes[u].seqs.tx <==> used)
            && (r.s.lanes[u].seqs.tx != s.lanes[u].seqs.tx && r.s.lanes[u].up.q == q <==> used && !r.ok)
  {
    hide EmitAt;
    hide NumberInFront;
    hide FrontUsed;
    EmitQueue(s, e, u);
    EmitNumbers(s, e, u);
  }

  /** A frame that the radio refuses: the packet stays queued, its number is spent. */
  lemma RefusedSpends()
    ensures var lane := Lane(Udp([[7]]), true, 1, 1000, AirSeq.Fresh());
            var s := Sched(64, 1, [0, 0, 0, 0], 8, 1, 0, BURST, 0, 0, 0, 0, [lane]);
            var r := EmitAt(s, Tried(0, false, [1000], 0, 0, false, 0));
            !r.ok && r.draft.Some? && r.s.lanes[0] == lane.(seqs := lane.seqs.(tx := 1))
  {
    var lane := Lane(Udp([[7]]), true, 1, 1000, AirSeq.Fresh());
    var s := Sched(64, 1, [0, 0, 0, 0], 8, 1, 0, BURST, 0, 0, 0, 0, [lane]);
    var e := Empty(s, [1000]);
    assert Total(e) == 0 && MaxPull(e, 0, false) == 1474;
    var d := TryPull(e, 0, false, 0);
    assert d.lanes == [lane.(seqs := lane.seqs.(tx := 1))];
  }

  lemma MayPrimary(s: Sched, e: Event)
    requires e.Tried? && MayEmit(s, e.primary, e.acksOnly, e.dataSent, e.now)
    ensures e.primary < |s.lanes|
  {
  }

  ghost predicate LedgerOk(s: Sched, u: nat, came: seq<seq<byte>>, gone: seq<Departure>) {
    && IsUdp(s, u) && came == Pkts(gone) + s.lanes[u].up.q
    && forall i :: 0 <= i < |gone| ==> Carries(gone[i], u)
  }

  /** The ledger of lane u over a run. */
  function CameAll(es: seq<Event>, u: nat): seq<seq<byte>> {
    if es == [] then [] else CameAll(es[..|es| - 1], u) + Came(es[|es| - 1], u)
  }

  function GoneAll(s: Sched, es: seq<Event>, u: nat): seq<Departure> {
    if es == [] then []
    else
      var before, e := es[..|es| - 1], es[|es| - 1];
      var m := Exec(s, before);
      GoneAll(s, before, u) + (if IsUdp(m, u) then Left(m, e, u) else [])
  }

  lemma TriedLedger(s: Sched, e: Event, u: nat)
    requires IsUdp(s, u) && e.Tried?
    ensures IsUdp(Step(s, e), u)
    ensures s.lanes[u].up.q == Pkts(Left(s, e, u)) + Step(s, e).lanes[u].up.q
    ensures forall i :: 0 <= i < |Left(s, e, u)| ==> Carries(Left(s, e, u)[i], u)
  {
    hide EmitAt;
    hide NumberInFront;
    EmitQueue(s, e, u);
    var q, r := s.lanes[u].up.q, EmitAt(s, e);
    if Commits(r, u) {
      FlownCarries(s.lanes[u], r.s.lanes[u], r.draft.value, u);
      assert q == [q[0]] + q[1..];
    }
  }

  lemma FlownCarries(l: Lane, after: Lane, d: Draft, u: nat)
    requires FrontUsed(l, after, d, u) && u in d.used && l.up.Udp? && l.up.q != []
    ensures Carries(Flown(l.up.q[0], d), u)
  {
    var k :| 0 <= k < |d.used| && d.used[k] == u;
    assert d.bodies[k][2..] == l.up.q[0];
    assert CarriesAt(Flown(l.up.q[0], d), u, k);
  }

  lemma StepLedger(s: Sched, e: Event, u: nat)
    requires IsUdp(s, u)
    ensures IsUdp(Step(s, e), u)
    ensures s.lanes[u].up.q + Came(e, u) == Pkts(Left(s, e, u)) + Step(s, e).lanes[u].up.q
    ensures forall i :: 0 <= i < |Left(s, e, u)| ==> Carries(Left(s, e, u)[i], u)
  {
    hide EmitAt;
    var q := s.lanes[u].up.q;
    match e
    case Tried(_, _, _, _, _, _, _) =>
      TriedLedger(s, e, u);
      assert q + Came(e, u) == q;
    case Offered(i, pkt) =>
      assert q == [] || q == [q[0]] + q[1..];
    case Refilled(_) =>
    case Changed(_, _) =>
  }

  /** Every packet offered to a UDP stream is, in order, one that flew in an accepted frame, one
      dropped as the oldest of a full queue, or one still queued; nothing is lost or repeated. */
  lemma {:induction false} Ledger(s: Sched, es: seq<Event>, u: nat)
    requires IsUdp(s, u) && s.lanes[u].up.q == []
    ensures LedgerOk(Exec(s, es), u, CameAll(es, u), GoneAll(s, es, u))
  {
    if es != [] {
      var before, e := es[..|es| - 1], es[|es| - 1];
      Ledger(s, before, u);
      var m := Exec(s, before);
      StepLedger(m, e, u);
      LedgerAdds(m, Step(m, e), u, CameAll(before, u), GoneAll(s, before, u), Came(e, u), Left(m, e, u));
      hide Step;
      hide Left;
      hide LedgerOk;
    }
  }

  lemma LedgerAdds(s: Sched, r: Sched, u: nat, came: seq<seq<byte>>, gone: seq<Departure>, more: seq<seq<byte>>,
                   left: seq<Departure>)
    requires LedgerOk(s, u, came, gone) && IsUdp(r, u)
    requires s.lanes[u].up.q + more == Pkts(left) + r.lanes[u].up.q
    requires forall i :: 0 <= i < |left| ==> Carries(left[i], u)
    ensures LedgerOk(r, u, came + more, gone + left)
  {
    hide Carries;
    assert Pkts(gone + left) == Pkts(gone) + Pkts(left);
    assert came + more == Pkts(gone) + (s.lanes[u].up.q + more);
  }
}
