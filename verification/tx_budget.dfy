/** One pass of the scheduler: what a stream may send of its per-tick budget. */
module TxBudget {
  import opened Bytes
  import opened AirFrame
  import opened TxSpec
  import opened TxFrame
  import R = TxRun

  /** Bytes and number of data PDUs that lane u has in a draft. */
  function Spent(used: seq<nat>, slots: seq<Slot>, acks: seq<bool>, u: nat): nat
    requires |used| == |slots| == |acks|
  {
    if used == [] then 0
    else
      var n := |used| - 1;
      Spent(used[..n], slots[..n], acks[..n], u) + (if used[n] == u && !acks[n] then slots[n].size else 0)
  }

  function Times(used: seq<nat>, acks: seq<bool>, u: nat): nat
    requires |used| == |acks|
  {
    if used == [] then 0
    else
      var n := |used| - 1;
      Times(used[..n], acks[..n], u) + (if used[n] == u && !acks[n] then 1 else 0)
  }

  /** Untouched, or: what was spent and what is left stay within the budget or one full PDU, and
      two bytes for every PDU after the first. */
  predicate Within(budget: nat, remain: nat, spent: nat, times: nat) {
    if times == 0 then spent == 0 && remain == budget
    else remain < budget && spent + remain <= Max(budget, PAYLOAD_MAX) + 2 * (times - 1)
  }

  /** Lane u of a draft, on top of what earlier frames of the pass spent. */
  ghost predicate DraftWithin(d: Draft, u: nat, budget: nat, spent: nat, times: nat) {
    && |d.lanes| == |d.remain| && u < |d.lanes| && d.lanes[u].budget == budget
    && |d.used| == |d.slots| == |d.acks|
    && Within(budget, d.remain[u], spent + Spent(d.used, d.slots, d.acks, u), times + Times(d.used, d.acks, u))
  }

  lemma Appended(used: seq<nat>, slots: seq<Slot>, acks: seq<bool>, i: nat, slot: Slot, ack: bool, u: nat)
    requires |used| == |slots| == |acks|
    ensures Spent(used + [i], slots + [slot], acks + [ack], u)
            == Spent(used, slots, acks, u) + (if i == u && !ack then slot.size else 0)
    ensures Times(used + [i], acks + [ack], u) == Times(used, acks, u) + (if i == u && !ack then 1 else 0)
  {
    assert (used + [i])[..|used|] == used && (slots + [slot])[..|slots|] == slots && (acks + [ack])[..|acks|] == acks;
  }

  lemma PullShape(d: Draft, i: nat, acksOnly: bool, now: int)
    requires i < |d.lanes| == |d.remain| && Pulls(d, i, acksOnly, now)
    ensures var r := TryPull(d, i, acksOnly, now);
            var p := PullFrom(d.lanes[i].up, MaxPull(d, i, acksOnly), now);
            var framed := |p.bytes| + 2;
            && 3 <= framed <= PAYLOAD_MAX
            && r.used == d.used + [i] && r.slots == d.slots + [Slot(d.lanes[i].busTx, framed)]
            && r.acks == d.acks + [p.isAck]
            && r.remain == (if p.isAck then d.remain else d.remain[i := Less(d.remain[i], framed)])
            && (!p.isAck && d.remain[i] != d.lanes[i].budget ==> framed <= d.remain[i] + 2)
            && |r.lanes| == |d.lanes| && (forall j :: 0 <= j < |d.lanes| ==> r.lanes[j].budget == d.lanes[j].budget)
  {
    PullFits(d, i, acksOnly, now);
    hide Pulls;
    hide PullFrom;
    hide MaxPull;
    hide Sum;
  }

  lemma Charge(budget: nat, remain: nat, spent: nat, times: nat, framed: nat)
    requires budget > 0 && Within(budget, remain, spent, times) && 3 <= framed <= PAYLOAD_MAX
    requires remain != budget ==> framed <= remain + 2
    ensures Within(budget, Less(remain, framed), spent + framed, times + 1)
  {
  }

  lemma TryPullWithin(d: Draft, i: nat, acksOnly: bool, now: int, u: nat, budget: nat, spent: nat, times: nat)
    requires i < |d.lanes| && budget > 0 && DraftWithin(d, u, budget, spent, times)
    ensures DraftWithin(TryPull(d, i, acksOnly, now), u, budget, spent, times)
  {
    hide Pulls;
    hide PullFrom;
    hide MaxPull;
    hide Within;
    hide Spent;
    hide Times;
    if Pulls(d, i, acksOnly, now) {
      PullShape(d, i, acksOnly, now);
      hide TryPull;
      var r := TryPull(d, i, acksOnly, now);
      var n := |d.used|;
      Appended(d.used, d.slots, d.acks, i, r.slots[n], r.acks[n], u);
      if i == u && !r.acks[n] {
        Charge(budget, d.remain[u], spent + Spent(d.used, d.slots, d.acks, u), times + Times(d.used, d.acks, u),
               r.slots[n].size);
      }
    }
  }

  lemma {:induction false} PullRestWithin(d: Draft, primary: nat, step: nat, acksOnly: bool, now: int, u: nat,
                                          budget: nat, spent: nat, times: nat)
    requires primary < |d.lanes| && step <= |d.lanes| && budget > 0 && DraftWithin(d, u, budget, spent, times)
    ensures DraftWithin(PullRest(d, primary, step, acksOnly, now), u, budget, spent, times)
    decreases |d.lanes| - step
  {
    assert |d.lanes| == |d.remain|;
    hide DraftWithin;
    hide TryPull;
    if step < |d.lanes| && |d.slots| < SLOTS {
      var i := (primary + step) % |d.lanes|;
      TryPullWithin(d, i, acksOnly, now, u, budget, spent, times);
      PullRestWithin(TryPull(d, i, acksOnly, now), primary, step + 1, acksOnly, now, u, budget, spent, times);
    }
  }

  lemma FilledWithin(s: Sched, primary: nat, acksOnly: bool, remain: seq<nat>, now: int, u: nat, budget: nat,
                     spent: nat, times: nat)
    requires primary < |s.lanes| == |remain| && u < |s.lanes| && s.lanes[u].budget == budget > 0
    requires Within(budget, remain[u], spent, times)
    ensures DraftWithin(Filled(s, primary, acksOnly, remain, now), u, budget, spent, times)
  {
    var e := Empty(s, remain);
    assert DraftWithin(e, u, budget, spent, times);
    hide DraftWithin;
    hide TryPull;
    TryPullWithin(e, primary, acksOnly, now, u, budget, spent, times);
    PullRestWithin(TryPull(e, primary, acksOnly, now), primary, 1, acksOnly, now, u, budget, spent, times);
  }

  lemma {:induction false} CommitBudgets(lanes: seq<Lane>, used: seq<nat>)
    ensures forall j :: 0 <= j < |lanes| ==> CommitAll(lanes, used)[j].budget == lanes[j].budget
  {
    if used != [] { CommitBudgets(lanes, used[..|used| - 1]); }
  }

  // ---- A pass ----------------------------------------------------------

  datatype Try = Try(primary: nat, acksOnly: bool, dataSent: nat, now: int, sent: bool, noteAt: int)

  /** The scheduler, the budgets left, and what lane u has sent in this pass. */
  datatype Pass = Pass(s: Sched, remain: seq<nat>, spent: nat, times: nat)

  function Start(s: Sched): Pass {
    Pass(s, seq(|s.lanes|, i requires 0 <= i < |s.lanes| => s.lanes[i].budget), 0, 0)
  }

  function Next(p: Pass, t: Try, u: nat): Pass
    requires |p.remain| == |p.s.lanes|
  {
    var r := Emit(p.s, t.primary, t.acksOnly, p.remain, t.dataSent, t.now, t.sent, t.noteAt);
    if r.draft.None? || !(|r.draft.value.used| == |r.draft.value.slots| == |r.draft.value.acks|)
    then p.(s := r.s, remain := r.remain)
    else
      var d := r.draft.value;
      Pass(r.s, r.remain, p.spent + Spent(d.used, d.slots, d.acks, u), p.times + Times(d.used, d.acks, u))
  }

  function Run(p: Pass, ts: seq<Try>, u: nat): (r: Pass)
    requires |p.remain| == |p.s.lanes|
    ensures |r.remain| == |r.s.lanes|
  {
    if ts == [] then p else Next(Run(p, ts[..|ts| - 1], u), ts[|ts| - 1], u)
  }

  ghost predicate PassOk(p: Pass, u: nat, budget: nat) {
    && |p.remain| == |p.s.lanes| && u < |p.remain| && p.s.lanes[u].budget == budget
    && Within(budget, p.remain[u], p.spent, p.times)
  }

  lemma NextWithin(p: Pass, t: Try, u: nat, budget: nat)
    requires PassOk(p, u, budget) && budget > 0
    ensures PassOk(Next(p, t, u), u, budget)
  {
    hide Within;
    hide Pulls;
    hide Filled;
    hide CommitAll;
    hide AnyData;
    if MayEmit(p.s, t.primary, t.acksOnly, t.dataSent, t.now) {
      FilledWithin(p.s, t.primary, t.acksOnly, p.remain, t.now, u, budget, p.spent, p.times);
      var d := Filled(p.s, t.primary, t.acksOnly, p.remain, t.now);
      CommitBudgets(d.lanes, d.used);
    }
    hide MayEmit;
    hide Spent;
    hide Times;
  }

  /** In one pass a stream with a budget sends at most its budget, or one full PDU if that is
      more, plus two bytes for every further PDU; whether frames are accepted or not. */
  lemma {:induction false} BudgetBound(s: Sched, ts: seq<Try>, u: nat)
    requires u < |s.lanes| && s.lanes[u].budget > 0
    ensures var p := Run(Start(s), ts, u);
            && PassOk(p, u, s.lanes[u].budget)
            && p.spent <= Max(s.lanes[u].budget, PAYLOAD_MAX) + 2 * p.times
  {
    if ts != [] {
      BudgetBound(s, ts[..|ts| - 1], u);
      NextWithin(Run(Start(s), ts[..|ts| - 1], u), ts[|ts| - 1], u, s.lanes[u].budget);
      hide Next;
    }
  }

  // ---- The tries of a pass as events of a run -----------------------------

  /** The tries as the events that a run records. */
  function Events(s: Sched, ts: seq<Try>): seq<R.Event> {
    if ts == [] then []
    else
      var before, t := ts[..|ts| - 1], ts[|ts| - 1];
      Events(s, before)
      + [R.Tried(t.primary, t.acksOnly, Run(Start(s), before, 0).remain, t.dataSent, t.now, t.sent, t.noteAt)]
  }

  /** Which lane is watched changes neither the scheduler nor the budgets left. */
  lemma {:induction false} RunSame(s: Sched, ts: seq<Try>, u: nat)
    ensures Run(Start(s), ts, u).s == Run(Start(s), ts, 0).s
    ensures Run(Start(s), ts, u).remain == Run(Start(s), ts, 0).remain
  {
    hide Emit;
    if ts != [] { RunSame(s, ts[..|ts| - 1], u); }
  }

  lemma RunSnoc(s: Sched, ts: seq<Try>, t: Try)
    ensures Run(Start(s), ts + [t], 0) == Next(Run(Start(s), ts, 0), t, 0)
    ensures Events(s, ts + [t])
            == Events(s, ts)
               + [R.Tried(t.primary, t.acksOnly, Run(Start(s), ts, 0).remain, t.dataSent, t.now, t.sent, t.noteAt)]
  {
    assert (ts + [t])[..|ts|] == ts;
  }

  lemma NextShape(p: Pass, t: Try)
    requires |p.remain| == |p.s.lanes|
    ensures var r := Emit(p.s, t.primary, t.acksOnly, p.remain, t.dataSent, t.now, t.sent, t.noteAt);
            Next(p, t, 0).s == r.s && Next(p, t, 0).remain == r.remain
  {
    hide Emit;
  }

  predicate SameBudgets(a: seq<Lane>, b: seq<Lane>) {
    |a| == |b| && forall j :: 0 <= j < |a| ==> a[j].budget == b[j].budget
  }

  /** Transmissions leave the budgets alone. */
  lemma {:induction false} RunBudgets(s: Sched, ts: seq<Try>)
    ensures SameBudgets(Run(Start(s), ts, 0).s.lanes, s.lanes)
  {
    hide Emit;
    hide Next;
    if ts != [] {
      var before, t := ts[..|ts| - 1], ts[|ts| - 1];
      RunBudgets(s, before);
      var p := Run(Start(s), before, 0);
      NextShape(p, t);
      EmitBudgets(p, t);
    }
  }

  lemma EmitBudgets(p: Pass, t: Try)
    requires |p.remain| == |p.s.lanes|
    ensures var r := Emit(p.s, t.primary, t.acksOnly, p.remain, t.dataSent, t.now, t.sent, t.noteAt);
            SameBudgets(r.s.lanes, p.s.lanes)
  {
    hide Emit;
    var e := R.Tried(t.primary, t.acksOnly, p.remain, t.dataSent, t.now, t.sent, t.noteAt);
    forall j | 0 <= j < |p.s.lanes| ensures R.EmitAt(p.s, e).s.lanes[j].budget == p.s.lanes[j].budget {
      R.EmitNumbers(p.s, e, j);
    }
  }

  /** A pass of the scheduler: where it began, what had happened by then, and its tries. */
  datatype Passing = Passing(s: Sched, es: seq<R.Event>, ts: seq<Try>)

  /** The run so far ends with the tries of this pass, which lead to this state and these budgets. */
  ghost predicate PassIs(p: Passing, es: seq<R.Event>, now: Sched, remain: seq<nat>) {
    es == p.es + Events(p.s, p.ts) && Run(Start(p.s), p.ts, 0).s == now && Run(Start(p.s), p.ts, 0).remain == remain
  }

  lemma PassStarts(s: Sched, es: seq<R.Event>, remain: seq<nat>)
    requires |remain| == |s.lanes| && forall i :: 0 <= i < |remain| ==> remain[i] == s.lanes[i].budget
    ensures PassIs(Passing(s, es, []), es, s, remain)
  {
    assert Start(s).remain == remain;
  }

  /** One more transmission. */
  lemma PassGrows(p: Passing, es: seq<R.Event>, now: Sched, remain: seq<nat>, t: Try)
    requires PassIs(p, es, now, remain) && |remain| == |now.lanes|
    ensures var e := R.Tried(t.primary, t.acksOnly, remain, t.dataSent, t.now, t.sent, t.noteAt);
            var r := Emit(now, t.primary, t.acksOnly, remain, t.dataSent, t.now, t.sent, t.noteAt);
            PassIs(p.(ts := p.ts + [t]), es + [e], r.s, r.remain)
  {
    hide Emit;
    hide Next;
    RunSnoc(p.s, p.ts, t);
    NextShape(Run(Start(p.s), p.ts, 0), t);
    var e := R.Tried(t.primary, t.acksOnly, remain, t.dataSent, t.now, t.sent, t.noteAt);
    assert es + [e] == p.es + Events(p.s, p.ts + [t]);
  }

  /** What each stream with a budget sent in the pass is within that budget. */
  ghost predicate PassBounded(p: Passing) {
    forall u: nat :: u < |p.s.lanes| && p.s.lanes[u].budget > 0 ==> SpentWithin(p, u)
  }

  ghost predicate SpentWithin(p: Passing, u: nat)
    requires u < |p.s.lanes|
  {
    var r := Run(Start(p.s), p.ts, u);
    r.spent <= Max(p.s.lanes[u].budget, PAYLOAD_MAX) + 2 * r.times
  }

  lemma PassBound(p: Passing)
    ensures PassBounded(p)
  {
    forall u: nat | u < |p.s.lanes| && p.s.lanes[u].budget > 0 ensures SpentWithin(p, u) {
      BudgetBound(p.s, p.ts, u);
    }
  }
}
