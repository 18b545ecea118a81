/** tx_scheduler.cpp as an object: its loops and buffers, against the functions of TxSpec. */
module TxScheduler {
  import opened Bytes
  import opened AirFrame
  import opened TxSpec
  import opened TxFrame
  import AirSeq
  import AirRx
  import Arq = ArqSpec
  import E = ArqEnd
  import R = TxRun
  import B = TxBudget
  import S = TxServe

  // ---- try_pull --------------------------------------------------------

  /** The largest payload the next PDU of lane i may have. */
  method PullLimit(d: Draft, i: nat, acksOnly: bool) returns (max: nat)
    requires i < |d.lanes| == |d.remain| && Total(d) <= PAYLOAD_MAX
    ensures !acksOnly && d.remain[i] != d.lanes[i].budget && d.remain[i] == 0 ==> max == 0
    ensures max == MaxPull(d, i, acksOnly)
  {
    hide Sum;
    max := STREAM_MAX;
    var bodyTotal := PayloadBytes(d.slots);
    if !acksOnly {
      var firstData := d.remain[i] == d.lanes[i].budget;
      if !firstData && d.remain[i] == 0 { return 0; }
      var room := PAYLOAD_MAX - bodyTotal;
      if room < AirSeq.SEQ_LEN + 1 { return 0; }
      var roomPayload := room - AirSeq.SEQ_LEN;
      if d.tokens < max { max := d.tokens; }
      if !firstData && d.remain[i] < max { max := d.remain[i]; }
      if roomPayload < max { max := roomPayload; }
    } else {
      var room := PAYLOAD_MAX - bodyTotal;
      if room < AirSeq.SEQ_LEN + 1 { return 0; }
      max := room - AirSeq.SEQ_LEN;
      if max > STREAM_MAX { max := STREAM_MAX; }
    }
  }

  method PullOne(d: Draft, i: nat, acksOnly: bool, now: int) returns (r: Draft)
    requires i < |d.lanes| && DraftOk(d) && i !in d.used
    ensures r == TryPull(d, i, acksOnly, now)
  {
    DraftTotal(d);
    hide DraftOk;
    hide Sum;
    hide PullFrom;
    hide MaxPull;
    r := d;
    if |d.slots| >= SLOTS { return; }
    var l := d.lanes[i];
    if l.up == Absent || l.busTx == 0 { return; }
    if acksOnly {
      if !HasAck(l.up) { return; }
    } else if !HasTx(l.up) && !HasAck(l.up) {
      return;
    }
    var max := PullLimit(d, i, acksOnly);
    if max == 0 { return; }
    var p := PullFrom(l.up, max, now);
    if |p.bytes| == 0 { return; }
    PullFits(d, i, acksOnly, now);
    r := AddPdu(d, i, p);
  }

  /** Stamp the PDU and charge it to the lane's budget and the bucket. */
  method AddPdu(d: Draft, i: nat, p: Pull) returns (r: Draft)
    requires i < |d.lanes| == |d.remain| && 1 <= |p.bytes| <= STREAM_MAX
    ensures var l := d.lanes[i];
            var framed := |p.bytes| + AirSeq.SEQ_LEN;
            r == d.(lanes := d.lanes[i := l.(up := p.up, seqs := l.seqs.(tx := (l.seqs.tx + 1) % 65536))],
                    remain := if p.isAck then d.remain else d.remain[i := Less(d.remain[i], framed)],
                    tokens := if p.isAck then d.tokens else Less(d.tokens, framed),
                    used := d.used + [i], slots := d.slots + [Slot(l.busTx, framed % 65536)],
                    bodies := d.bodies + [Be16(l.seqs.tx) + p.bytes], acks := d.acks + [p.isAck])
  {
    var l := d.lanes[i];
    var stamped := AirSeq.Stamp(l.seqs, FRAMED_BUF, p.bytes);
    assert stamped.Some?;
    var framed := |stamped.value.1|;
    var remain, tokens := d.remain, d.tokens;
    if !p.isAck {
      remain := remain[i := if framed <= remain[i] then remain[i] - framed else 0];
      tokens := if framed <= tokens then tokens - framed else 0;
    }
    r := Draft(d.lanes[i := l.(up := p.up, seqs := stamped.value.0)], remain, tokens, d.used + [i],
               d.slots + [Slot(l.busTx, framed)], d.bodies + [stamped.value.1], d.acks + [p.isAck]);
  }

  lemma DraftTotal(d: Draft)
    requires DraftOk(d)
    ensures Total(d) <= PAYLOAD_MAX && |d.lanes| == |d.remain|
  {
  }

  /** The packing loop behind the primary lane. */
  method PackRest(d1: Draft, primary: nat, acksOnly: bool, now: int) returns (d: Draft)
    requires primary < |d1.lanes| == |d1.remain| && DraftOk(d1) && Round(d1, primary, 1)
    ensures d == PullRest(d1, primary, 1, acksOnly, now)
  {
    hide DraftOk;
    hide TryPull;
    hide Round;
    d := d1;
    var step := 1;
    while step < |d1.lanes| && |d.slots| < SLOTS
      invariant 1 <= step <= |d1.lanes| == |d.lanes| == |d.remain|
      invariant DraftOk(d) && Round(d, primary, step)
      invariant PullRest(d, primary, step, acksOnly, now) == PullRest(d1, primary, 1, acksOnly, now)
    {
      var i := (primary + step) % |d1.lanes|;
      FreshTurn(d, primary, step);
      ghost var before := d;
      TryPullOk(d, i, acksOnly, now);
      d := PullOne(d, i, acksOnly, now);
      RoundMore(before, d, primary, step);
      step := step + 1;
    }
  }

  /** The primary lane must give a PDU; then the others may add theirs. */
  method PackFrame(s: Sched, primary: nat, acksOnly: bool, remain: seq<nat>, now: int) returns (d: Draft, any: bool)
    requires primary < |s.lanes| == |remain|
    ensures any <==> Pulls(Empty(s, remain), primary, acksOnly, now)
    ensures any ==> d == Filled(s, primary, acksOnly, remain, now)
  {
    hide PullRest;
    var e := Empty(s, remain);
    EmptyOk(s, remain);
    TryPullOk(e, primary, acksOnly, now);
    d := PullOne(e, primary, acksOnly, now);
    any := |d.slots| > 0;
    if !any { return; }
    FirstRound(d, primary);
    hide Pulls;
    hide DraftOk;
    d := PackRest(d, primary, acksOnly, now);
  }

  lemma EmptyOk(s: Sched, remain: seq<nat>)
    requires |s.lanes| == |remain|
    ensures DraftOk(Empty(s, remain))
  {
  }

  lemma FirstRound(d: Draft, primary: nat)
    requires primary < |d.lanes| && d.used == [primary]
    ensures Round(d, primary, 1)
  {
    Once(|d.lanes|, primary);
    assert Turn(d, primary, 0) == primary;
    assert HadTurn(d, primary, 1, primary);
  }

  lemma FreshTurn(d: Draft, primary: nat, step: nat)
    requires primary < |d.lanes| && step < |d.lanes| && Round(d, primary, step)
    ensures (primary + step) % |d.lanes| !in d.used
  {
    var i := (primary + step) % |d.lanes|;
    forall k | 0 <= k < |d.used| ensures d.used[k] != i {
      assert HadTurn(d, primary, step, d.used[k]);
      var s: nat :| s < step && Turn(d, primary, s) == d.used[k];
      TurnsDiffer(|d.lanes|, primary, s, step);
    }
  }

  /** The commit loop: every lane whose packet was only peeked at drops it from its queue. */
  method CommitPeeked(d: Draft) returns (lanes: seq<Lane>)
    requires DraftOk(d)
    ensures lanes == CommitAll(d.lanes, d.used)
  {
    hide CommitAll;
    hide DraftOk;
    lanes := d.lanes;
    for i := 0 to |d.lanes|
      invariant |lanes| == |d.lanes|
      invariant forall j :: i <= j < |lanes| ==> lanes[j] == d.lanes[j]
      invariant forall j :: 0 <= j < i ==> lanes[j] == CommitAll(d.lanes, d.used)[j]
    {
      R.DraftCommit(d, i);
      if lanes[i].up.Udp? && i in d.used { lanes := lanes[i := lanes[i].(up := Commit(lanes[i].up))]; }
    }
  }

  lemma StartShape(s: Sched, primary: nat, acksOnly: bool, dataSent: nat, now: int)
    ensures MayEmit(s, primary, acksOnly, dataSent, now) ==> primary < |s.lanes| && s.domain != 0
  {
  }

  lemma FilledSize(d: Draft)
    requires DraftOk(d)
    ensures |d.slots| == |d.used| <= SLOTS && |d.lanes| == |d.remain|
  {
  }

  // ---- The object ------------------------------------------------------

  class TxScheduler {
    const rate: nat
    const domain: u16
    const prefix: seq<byte>
    const maxData: nat
    const burstSize: nat
    const intervalUs: nat
    const mpdu: array<byte>
    var tokens: nat
    var burstSent: nat
    var cooldown: int
    var lastRefill: int
    var txSeq: u16
    var lanes: seq<Lane>
    var next: nat
    var ticking: bool
    var tickAgain: bool

    ghost function View(): Sched
      reads this
    {
      Sched(rate, domain, prefix, maxData, burstSize, intervalUs, tokens, burstSent, cooldown, lastRefill, txSeq,
            lanes)
    }

    ghost predicate Valid()
      reads this
    {
      Ok(View()) && mpdu.Length == INJECT_MAX && next <= |lanes|
    }

    /** configure: settings are clamped into their ranges. */
    constructor (kbps: nat, domain: u16, prefix: seq<byte>, perTick: nat, burst: nat, intervalUs: nat, now: int,
                 lanes: seq<Lane>)
      requires |prefix| == 4
      ensures Valid() && fresh(mpdu) && !ticking
      ensures this.lanes == lanes && this.intervalUs == intervalUs && tokens == BURST && burstSent == 0
      ensures rate >= 64 && (kbps >= 64 ==> rate == kbps)
      ensures (1 <= perTick <= 32 ==> maxData == perTick) && (1 <= burst <= 20 ==> burstSize == burst)
      ensures lastRefill == now && cooldown == 0
    {
      this.rate := if kbps < 64 then 64 else kbps;
      this.domain, this.prefix := domain, prefix;
      this.maxData := if perTick < 1 then 1 else if perTick > 32 then 32 else perTick;
      this.burstSize := if burst < 1 then 1 else if burst > 20 then 20 else burst;
      this.intervalUs := intervalUs;
      this.mpdu := new byte[INJECT_MAX];
      tokens, burstSent, cooldown, lastRefill, txSeq, next := BURST, 0, 0, now, 0, 0;
      this.lanes := lanes;
      ticking, tickAgain := false, false;
    }

    method RefillTokens(now: int)
      modifies this`tokens, this`lastRefill
      ensures View() == Refill(old(View()), now)
    {
      var us := if now - lastRefill < 0 then 0 else (now - lastRefill) / 1000;
      lastRefill := now;
      tokens := tokens + rate * us % UINT64 / 8000;
      if tokens > BURST { tokens := BURST; }
    }

    method NoteBurstEmit(now: int)
      modifies this`burstSent, this`cooldown
      ensures View() == NoteBurst(old(View()), now)
    {
      burstSent := burstSent + 1;
      if burstSent < burstSize { return; }
      cooldown := now + intervalUs * 1000;
      burstSent := 0;
    }

    /** emit_mpdu. `sent` is the radio's answer; the frame offered to it comes back as `frame`. */
    method EmitMpdu(primary: nat, acksOnly: bool, remain: seq<nat>, dataSent: nat, now: int, sent: bool, noteAt: int)
      returns (ok: bool, remain': seq<nat>, dataSent': nat, frame: seq<byte>, ghost draft: Option<Draft>)
      requires Valid() && |remain| == |lanes|
      modifies this`tokens, this`lanes, this`txSeq, this`burstSent, this`cooldown, mpdu
      ensures Emitted(ok, View(), remain', dataSent', draft)
              == Emit(old(View()), primary, acksOnly, remain, dataSent, now, sent, noteAt)
      ensures draft.None? ==> frame == []
      ensures draft.Some? ==>
                |draft.value.slots| <= SLOTS && AirRx.Buildable(FrameOf(old(View()), draft.value))
                && frame == AirRx.OnAir(FrameOf(old(View()), draft.value))
    {
      hide Pulls;
      hide Filled;
      hide MayEmit;
      hide CommitAll;
      hide DraftOk;
      hide Advanced;
      hide AnyData;
      hide NoteBurst;
      ok, remain', dataSent', frame, draft := false, remain, dataSent, [], None;
      var s := Sched(rate, domain, prefix, maxData, burstSize, intervalUs, tokens, burstSent, cooldown, lastRefill,
                     txSeq, lanes);
      var may := MayStart(primary, acksOnly, dataSent, now);
      if !may { return; }
      StartShape(s, primary, acksOnly, dataSent, now);
      var d, any := PackFrame(s, primary, acksOnly, remain, now);
      if !any { return; }
      FilledOk(s, primary, acksOnly, remain, now);
      FilledSize(d);
      frame := BuildFrame(s, d);
      remain', draft := d.remain, Some(d);
      lanes, tokens := d.lanes, d.tokens;
      if !sent { return; }
      var left := CommitPeeked(d);
      lanes := left;
      if AnyData(d) {
        dataSent' := dataSent + 1;
        NoteBurstEmit(noteAt);
      }
      ok := true;
    }

    /** mpdu_build cannot fail here; it stamps the next frame number. */
    method BuildFrame(ghost s: Sched, d: Draft) returns (frame: seq<byte>)
      requires Valid() && s == View() && DraftOk(d) && |d.slots| >= 1 && domain != 0 && |d.slots| <= SLOTS
      modifies mpdu, this`txSeq
      ensures AirRx.Buildable(FrameOf(s, d)) && frame == AirRx.OnAir(FrameOf(s, d))
      ensures txSeq == (s.txSeq + 1) % 65536
    {
      FrameBuilds(s, d);
      hide DraftOk;
      hide Build;
      var built, len := MpduBuild(mpdu, mpdu.Length, PadSlots(d), PadBodies(d), domain, prefix, txSeq);
      assert built;
      txSeq := (txSeq + 1) % 65536;
      frame := mpdu[..len];
    }

    /** The checks at the head of emit_mpdu. */
    method MayStart(primary: nat, acksOnly: bool, dataSent: nat, now: int) returns (b: bool)
      ensures b == MayEmit(View(), primary, acksOnly, dataSent, now)
    {
      if primary >= |lanes| || domain == 0 { return false; }
      var s0 := lanes[primary];
      if s0.up == Absent || !s0.radio || s0.busTx == 0 { return false; }
      if acksOnly { return HasAck(s0.up); }
      if now < cooldown || burstSent >= burstSize { return false; }
      if tokens == 0 || dataSent >= maxData { return false; }
      b := HasTx(s0.up) || HasAck(s0.up);
    }

    /** One transmission as a step of the run and of the pass. */
    method Try(primary: nat, acksOnly: bool, remain: seq<nat>, dataSent: nat, env: Env, k: nat, ghost run: Run,
               ghost pass: B.Passing)
      returns (ok: bool, remain': seq<nat>, dataSent': nat, k': nat, ghost run': Run, ghost pass': B.Passing)
      requires Valid() && |remain| == |lanes| && RunOk(run, View(), env, k) && dataSent <= maxData
      requires B.PassIs(pass, run.es, View(), remain)
      modifies this`tokens, this`lanes, this`txSeq, this`burstSent, this`cooldown, mpdu
      ensures Valid() && |remain'| == |lanes| && RunOk(run', View(), env, k')
      ensures run'.start == run.start && run'.from == run.from
      ensures B.PassIs(pass', run'.es, View(), remain') && SamePass(pass, pass')
      ensures dataSent <= dataSent' <= maxData && (acksOnly ==> dataSent' == dataSent)
      ensures Acks(lanes) <= Acks(old(lanes)) && |lanes| == |old(lanes)|
      ensures ok && acksOnly ==> Acks(lanes) < Acks(old(lanes))
      ensures ok ==> Acks(lanes) + (maxData - dataSent') < Acks(old(lanes)) + (maxData - dataSent)
      ensures Acks(lanes) + (maxData - dataSent') <= Acks(old(lanes)) + (maxData - dataSent)
      ensures Willing(env) && !ok ==> View() == old(View()) && remain' == remain && dataSent' == dataSent
      ensures Willing(env) && !ok && acksOnly ==> !S.OwesAck(View(), primary, env.clock(k))
      ensures Willing(env) && !ok && !acksOnly ==> !S.Servable(View(), primary, remain, dataSent, env.clock(k))
    {
      hide B.PassIs;
      hide S.OwesAck;
      hide S.Servable;
      hide Timed;
      hide Emit;
      hide Acks;
      hide RunOk;
      hide R.Step;
      ghost var s := View();
      ghost var t := B.Try(primary, acksOnly, dataSent, env.clock(k), env.radio(k), env.clock(k + 1));
      ghost var e := R.Tried(primary, acksOnly, remain, dataSent, env.clock(k), env.radio(k), env.clock(k + 1));
      TryFacts(s, e);
      S.RefusedSame(s, primary, acksOnly, remain, dataSent, env.clock(k), env.clock(k + 1));
      TimedTry(env, k, e);
      B.PassGrows(pass, run.es, s, remain, t);
      var frame;
      ghost var draft;
      ok, remain', dataSent', frame, draft :=
        EmitMpdu(primary, acksOnly, remain, dataSent, env.clock(k), env.radio(k), env.clock(k + 1));
      k' := k + 2;
      run' := run.(es := run.es + [e]);
      pass' := pass.(ts := pass.ts + [t]);
      RunGrows(run, s, env, k, e, k');
    }

    /** First half of a pass: drain the acknowledgements of every lane. */
    method AckPhase(remain: seq<nat>, env: Env, k: nat, ghost run: Run, ghost pass: B.Passing)
      returns (remain': seq<nat>, k': nat, ghost run': Run, ghost pass': B.Passing, ghost at: seq<int>)
      requires Valid() && |remain| == |lanes| && RunOk(run, View(), env, k) && B.PassIs(pass, run.es, View(), remain)
      modifies this`tokens, this`lanes, this`txSeq, this`burstSent, this`cooldown, mpdu
      ensures Valid() && |remain'| == |lanes| == |old(lanes)| && RunOk(run', View(), env, k')
      ensures run'.start == run.start && run'.from == run.from
      ensures B.PassIs(pass', run'.es, View(), remain') && SamePass(pass, pass')
      ensures Willing(env) ==> S.AllAcked(View(), at)
    {
      hide RunOk;
      hide Acks;
      hide B.PassIs;
      hide S.OwesAck;
      remain', k', run', pass' := remain, k, run, pass;
      at := seq(|lanes|, i => 0);
      var dataSent := 0;
      var progress := true;
      while progress
        invariant Valid() && |remain'| == |lanes| == |old(lanes)| && RunOk(run', View(), env, k')
        invariant run'.start == run.start && run'.from == run.from && dataSent == 0
        invariant B.PassIs(pass', run'.es, View(), remain') && SamePass(pass, pass')
        invariant !progress && Willing(env) ==> S.AllAcked(View(), at)
        decreases Acks(lanes), progress
      {
        progress := false;
        at := seq(|lanes|, i => 0);
        ghost var before := Acks(lanes);
        for i := 0 to |lanes|
          invariant Valid() && |remain'| == |lanes| == |old(lanes)| == |at| && RunOk(run', View(), env, k')
          invariant run'.start == run.start && run'.from == run.from && dataSent == 0
          invariant B.PassIs(pass', run'.es, View(), remain') && SamePass(pass, pass')
          invariant Acks(lanes) <= before && (progress ==> Acks(lanes) < before)
          invariant !progress && Willing(env) ==> forall j :: 0 <= j < i ==> !S.OwesAck(View(), j, at[j])
        {
          at := at[i := env.clock(k')];
          var ok;
          ok, remain', dataSent, k', run', pass' := Try(i, true, remain', dataSent, env, k', run', pass');
          if ok { progress := true; }
        }
      }
    }

    /** Second half of a pass: data frames until tokens, quota or progress run out. */
    method DataPhase(remain: seq<nat>, env: Env, k: nat, ghost run: Run, ghost pass: B.Passing)
      returns (left: seq<nat>, k': nat, ghost run': Run, ghost pass': B.Passing, ghost end: S.End)
      requires Valid() && |remain| == |lanes| && RunOk(run, View(), env, k) && B.PassIs(pass, run.es, View(), remain)
      modifies this`tokens, this`lanes, this`txSeq, this`burstSent, this`cooldown, this`next, mpdu
      ensures Valid() && |lanes| == |old(lanes)| && RunOk(run', View(), env, k')
      ensures run'.start == run.start && run'.from == run.from
      ensures B.PassIs(pass', run'.es, View(), left) && SamePass(pass, pass')
      ensures Willing(env) ==> S.Exhausted(View(), end)
    {
      hide RunOk;
      hide Acks;
      hide B.PassIs;
      hide S.Servable;
      left, k', run', pass' := remain, k, run, pass;
      var dataSent := 0;
      var progress := true;
      ghost var at: seq<int> := seq(|lanes|, i => 0);
      while progress && tokens > 0 && dataSent < maxData
        invariant Valid() && |left| == |lanes| == |old(lanes)| == |at| && RunOk(run', View(), env, k')
        invariant run'.start == run.start && run'.from == run.from && dataSent <= maxData
        invariant B.PassIs(pass', run'.es, View(), left) && SamePass(pass, pass')
        invariant !progress && Willing(env) ==>
                    S.Exhausted(View(), S.End(left, dataSent, at)) || tokens == 0 || dataSent >= maxData
        decreases Acks(lanes) + (maxData - dataSent), progress
      {
        progress := false;
        ghost var before := Acks(lanes) + (maxData - dataSent);
        ghost var asked: set<nat> := {};
        var n := 0;
        while n < |lanes| && tokens > 0 && dataSent < maxData
          invariant Valid() && |left| == |lanes| == |old(lanes)| == |at| && RunOk(run', View(), env, k')
          invariant run'.start == run.start && run'.from == run.from && dataSent <= maxData
          invariant B.PassIs(pass', run'.es, View(), left) && SamePass(pass, pass')
          invariant Acks(lanes) + (maxData - dataSent) <= before
          invariant progress ==> Acks(lanes) + (maxData - dataSent) < before
          invariant n <= |lanes|
          invariant !progress ==> forall m: nat :: m < n ==> Asked(|lanes|, next, m) in asked
          invariant !progress && Willing(env) ==>
                      forall j :: j in asked && j < |lanes| ==> !S.Servable(View(), j, left, dataSent, at[j])
          decreases |lanes| - n
        {
          var i := (next + n) % |lanes|;
          at := at[i := env.clock(k')];
          asked := asked + {i};
          var ok;
          ok, left, dataSent, k', run', pass' := Try(i, false, left, dataSent, env, k', run', pass');
          if ok {
            progress := true;
            next := (i + 1) % |lanes|;
          }
          n := n + 1;
        }
        if !progress && n == |lanes| {
          AllAsked(|lanes|, next, asked);
          if Willing(env) { NoneServed(View(), S.End(left, dataSent, at), asked); }
        }
      }
      end := S.End(left, dataSent, at);
      if tokens == 0 || dataSent >= maxData { S.NothingLeft(View(), end); }
    }

    /** enqueue_air of lane i. */
    method EnqueueAir(i: nat, pkt: seq<byte>)
      requires i < |lanes| && lanes[i].up.Udp?
      modifies this`lanes
      ensures View() == R.Step(old(View()), R.Offered(i, pkt)) && |lanes| == |old(lanes)|
      ensures B.SameBudgets(lanes, old(lanes))
    {
      var q := lanes[i].up.q;
      if |pkt| == 0 {
        assert lanes[i := lanes[i].(up := Udp(q))] == lanes;
        return;
      }
      if |q| >= UDP_QUEUE { q := q[1..]; }
      lanes := lanes[i := lanes[i].(up := Udp(q + [pkt]))];
    }

    /** on_tick of every stream: TCP timers, the give-up and what the socket takes, and shards that
        a FEC timer flushes. */
    method TickStreams(env: Env, k: nat, ghost run: Run) returns (ghost run': Run)
      requires Valid() && RunOk(run, View(), env, k)
      modifies this`lanes
      ensures Valid() && |lanes| == |old(lanes)| && RunOk(run', View(), env, k) && B.SameBudgets(lanes, old(lanes))
      ensures run'.start == run.start && run'.from == run.from && run.es <= run'.es
    {
      hide RunOk;
      hide Timed;
      hide TickTcp;
      run' := run;
      for i := 0 to |lanes|
        invariant Valid() && |lanes| == |old(lanes)| && RunOk(run', View(), env, k) && B.SameBudgets(lanes, old(lanes))
        invariant run'.start == run.start && run'.from == run.from && run.es <= run'.es
      {
        var u := lanes[i].up;
        if u.Tcp? {
          var t := Tcp(TickTcp(u.s, env.clock(k), env.socket(k, i)));
          ghost var e := R.Changed(i, t);
          TimedStill(env, k, e);
          RunGrows(run', View(), env, k, e, k);
          lanes := lanes[i := lanes[i].(up := t)];
          run' := run'.(es := run'.es + [e]);
        } else if u.Udp? {
          var pkts := env.shards(k, i);
          for j := 0 to |pkts|
            invariant Valid() && |lanes| == |old(lanes)| && lanes[i].up.Udp? && RunOk(run', View(), env, k)
            invariant run'.start == run.start && run'.from == run.from && run.es <= run'.es
            invariant B.SameBudgets(lanes, old(lanes))
          {
            ghost var e := R.Offered(i, pkts[j]);
            TimedStill(env, k, e);
            RunGrows(run', View(), env, k, e, k);
            EnqueueAir(i, pkts[j]);
            run' := run'.(es := run'.es + [e]);
          }
        }
      }
    }

    /** tick: always ends, and is a run of the events that the bounds are proved about. A nested
        call only asks for one more pass; `nested` says whether one came during pass number p. */
    method Tick(env: Env, nested: nat -> bool) returns (ghost run: Run, ghost passes: seq<B.Passing>, ghost end: S.End)
      requires Valid()
      modifies this, mpdu
      ensures Valid() && run.start == old(View()) && View() == R.Exec(old(View()), run.es)
      ensures ticking == old(ticking)
      ensures Steady(env) && old(lastRefill) <= env.clock(0) ==> R.Timely(old(lastRefill), run.es)
      ensures |passes| <= 2 && forall p :: p in passes ==> PartOf(p, run, old(lanes))
      ensures |lanes| > 0 && !ticking ==> passes != []
      ensures |lanes| > 0 && !ticking && Willing(env) ==> S.Exhausted(View(), end)
    {
      hide S.Exhausted;
      run, passes, end := Run(View(), lastRefill, []), [], S.End([], 0, []);
      if |lanes| == 0 { return; }
      if ticking {
        tickAgain := true;
        return;
      }
      ticking := true;
      var k, count := 0, 0;
      var more := true;
      hide PartOf;
      while more
        invariant Valid() && |lanes| == |old(lanes)| && RunOk(run, View(), env, k) && B.SameBudgets(lanes, old(lanes))
        invariant run.start == old(View()) && run.from == old(lastRefill) && count <= 2 && (more ==> count < 2)
        invariant !more && Willing(env) ==> S.Exhausted(View(), end)
        invariant |passes| == count && (!more ==> count > 0) && forall p :: p in passes ==> PartOf(p, run, old(lanes))
        decreases 2 - count, more
      {
        ghost var before := run;
        ghost var pass;
        k, run, pass, end := Pass(env, k, run);
        PartsKept(passes, before, run, old(lanes));
        PartAdded(pass, run, old(lanes));
        passes := passes + [pass];
        tickAgain := nested(count);
        count := count + 1;
        more := tickAgain && count < 2;
      }
      tickAgain := false;
      ticking := false;
    }

    /** Before a pass: refill the bucket, tick the streams. */
    method Prepare(env: Env, k: nat, ghost run: Run) returns (ghost run': Run)
      requires Valid() && RunOk(run, View(), env, k)
      modifies this`tokens, this`lanes, this`lastRefill, this`tickAgain
      ensures Valid() && B.SameBudgets(lanes, old(lanes)) && RunOk(run', View(), env, k + 1)
      ensures run'.start == run.start && run'.from == run.from && run.es <= run'.es
    {
      tickAgain := false;
      ghost var e := R.Refilled(env.clock(k));
      TimedRefill(env, k);
      hide Timed;
      hide RunOk;
      RunGrows(run, View(), env, k, e, k + 1);
      hide Refill;
      RefillTokens(env.clock(k));
      run' := run.(es := run.es + [e]);
      run' := TickStreams(env, k + 1, run');
    }

    /** One pass: refill, the streams' ticks, then tries that keep each stream within its budget. */
    method Pass(env: Env, k: nat, ghost run: Run)
      returns (k': nat, ghost run': Run, ghost pass: B.Passing, ghost end: S.End)
      requires Valid() && RunOk(run, View(), env, k)
      modifies this`tokens, this`lanes, this`txSeq, this`burstSent, this`cooldown, this`next, this`lastRefill,
               this`tickAgain, mpdu
      ensures Valid() && |lanes| == |old(lanes)| && RunOk(run', View(), env, k')
      ensures run'.start == run.start && run'.from == run.from
      ensures run'.es == pass.es + B.Events(pass.s, pass.ts) && R.Exec(run'.start, pass.es) == pass.s
      ensures B.SameBudgets(pass.s.lanes, old(lanes)) && B.SameBudgets(lanes, old(lanes)) && B.PassBounded(pass)
      ensures run.es <= pass.es
      ensures Willing(env) ==> S.Exhausted(View(), end)
    {
      hide S.Exhausted;
      hide S.AllAcked;
      hide B.PassBounded;
      hide B.PassIs;
      hide RunOk;
      hide R.Exec;
      run' := Prepare(env, k, run);
      var remain := seq(|lanes|, i requires 0 <= i < |lanes| reads this => lanes[i].budget);
      pass := B.Passing(View(), run'.es, []);
      RunAt(run', View(), env, k + 1);
      B.PassStarts(View(), run'.es, remain);
      ghost var at;
      remain, k', run', pass, at := AckPhase(remain, env, k + 1, run', pass);
      remain, k', run', pass, end := DataPhase(remain, env, k', run', pass);
      B.PassBound(pass);
      PassEnds(pass, run'.es, View(), remain);
    }
  }

  lemma PassEnds(p: B.Passing, es: seq<R.Event>, s: Sched, remain: seq<nat>)
    requires B.PassIs(p, es, s, remain)
    ensures es == p.es + B.Events(p.s, p.ts) && B.SameBudgets(s.lanes, p.s.lanes)
  {
    hide B.Run;
    hide B.Events;
    B.RunBudgets(p.s, p.ts);
  }

  /** The pass is a stretch of the run, starts from the configured budgets and keeps within them. */
  ghost predicate PartOf(p: B.Passing, run: Run, lanes: seq<Lane>) {
    && p.es + B.Events(p.s, p.ts) <= run.es && R.Exec(run.start, p.es) == p.s
    && B.SameBudgets(p.s.lanes, lanes) && B.PassBounded(p)
  }

  lemma PartsKept(ps: seq<B.Passing>, before: Run, run: Run, lanes: seq<Lane>)
    requires run.start == before.start && before.es <= run.es
    requires forall p :: p in ps ==> PartOf(p, before, lanes)
    ensures forall p :: p in ps ==> PartOf(p, run, lanes)
  {
    hide B.PassBounded;
    hide B.SameBudgets;
    hide R.Exec;
  }

  lemma PartAdded(p: B.Passing, run: Run, lanes: seq<Lane>)
    requires run.es == p.es + B.Events(p.s, p.ts) && R.Exec(run.start, p.es) == p.s
    requires B.SameBudgets(p.s.lanes, lanes) && B.PassBounded(p)
    ensures PartOf(p, run, lanes)
  {
  }

  ghost predicate SamePass(p: B.Passing, q: B.Passing) { q.s == p.s && q.es == p.es }

  lemma RunAt(run: Run, s: Sched, env: Env, k: nat)
    requires RunOk(run, s, env, k)
    ensures R.Exec(run.start, run.es) == s
  {
  }

  /** The local socket of a TCP stream during one tick: is it open, how many bytes it takes, and
      whether writing to it fails. */
  datatype Socket = Socket(open: bool, takes: nat, fails: bool)

  /** on_tick of a TCP stream: a stream that gives up is ended, its client closed; any other
      writes what the socket takes. */
  function TickTcp(s: Arq.Stream, now: int, sock: Socket): Arq.Stream {
    var t := Arq.OnTick(s, now);
    if t.connectGiveUp || t.stallGiveUp then
      var u := if !sock.open then t else if t.stallGiveUp then Arq.LocalAbort(t) else Arq.LocalDown(t);
      u.(connectGiveUp := false, stallGiveUp := false)
    else if !sock.open then t
    else
      var u := t.(tcpOut := t.tcpOut[Min(sock.takes, |t.tcpOut|)..]);
      if sock.fails then Arq.LocalDown(u) else u
  }

  /** Waited too long for the peer, or for progress on what it has outstanding. */
  predicate TimedOut(s: Arq.Stream, now: int) {
    || (Arq.Connecting(s) && now - s.connectStarted >= Arq.CONNECT_TIMEOUT)
    || (s.Established() && s.unacked != [] && now - s.lastProgress >= Arq.STALL_TIMEOUT)
  }

  /** With its socket open and writable a stream that is up goes down in a tick if and only if it
      has timed out; then it drops what it holds and queues three CLOSE, or one ABORT if it had
      reached its peer. */
  lemma GiveUpIff(s: Arq.Stream, now: int, sock: Socket)
    requires s.local && !s.connectGiveUp && !s.stallGiveUp && sock.open && !sock.fails
    ensures var t := TickTcp(s, now, sock);
            && (!t.local <==> TimedOut(s, now)) && !t.connectGiveUp && !t.stallGiveUp
            && (TimedOut(s, now) ==>
                  && t.unacked == [] && t.tcpIn == [] && t.tcpOut == s.tcpOut
                  && t.ctrlq == s.ctrlq + E.Goodbye(s.peerConnect, s.txSeq))
  {
    hide Arq.ExpireAll;
    hide Arq.Cut;
    hide Arq.NewPending;
    hide Concat;
    hide Arq.HasConnect;
    ExpiredSame(s, now);
    var t := TickTcp(s, now, sock);
    if TimedOut(s, now) && !s.peerConnect {
      var c := Arq.Ctrl(Arq.TYPE_CLOSE, s.txSeq);
      assert t.ctrlq == s.ctrlq + [c] + [c] + [c];
    }
  }

  lemma ExpiredSame(s: Arq.Stream, now: int)
    ensures |Arq.ExpireAll(s.unacked, now)| == |s.unacked|
  {
  }

  /** The peer of a stream that timed out ends as soon as one of those frames arrives. */
  lemma {:induction false} GiveUpEnds(s: Arq.Stream, now: int, sock: Socket, asks: seq<(nat, int)>, max: nat, at: int,
                   peer: Arq.Stream, later: int)
    requires s.local && !s.connectGiveUp && !s.stallGiveUp && sock.open && !sock.fails && TimedOut(s, now)
    requires E.Roomy(asks) && max >= Arq.HEADER && peer.Established()
    requires |s.ctrlq| <= |asks| < |s.ctrlq| + E.Copies(s.peerConnect)
    ensures var frame := Arq.PullTx(E.AfterPulls(TickTcp(s, now, sock), asks), max, at).frame;
            && E.Ends(frame) && E.Ended(Arq.OnRadioRx(peer, frame, later))
  {
    hide TickTcp;
    hide E.AfterPulls;
    hide Arq.PullTx;
    hide Arq.OnRadioRx;
    hide E.SameBytes;
    GiveUpIff(s, now, sock);
    var d := TickTcp(s, now, sock);
    E.CtrlEnds(d, asks, max, at, peer, later);
  }

  /** The world as the scheduler meets it: clock reading k, radio answer k, the FEC shards that
      lane i flushes at reading k, and the socket that lane i meets then. */
  datatype Env = Env(clock: nat -> int, radio: nat -> bool, shards: (nat, nat) -> seq<seq<byte>>,
                     socket: (nat, nat) -> Socket)

  /** The radio takes every frame. */
  ghost predicate Willing(env: Env) { forall k: nat :: env.radio(k) }

  function Asked(n: nat, next: nat, m: nat): nat { if n == 0 then 0 else (next + m) % n }

  /** A sweep of the data loop asks every lane. */
  lemma AllAsked(n: nat, next: nat, asked: set<nat>)
    requires next <= n && forall m: nat :: m < n ==> Asked(n, next, m) in asked
    ensures forall j: nat :: j < n ==> j in asked
  {
    forall j: nat | j < n ensures j in asked {
      var m := if j >= next then j - next else j + n - next;
      if next == n {
        Once(n, n + j);
        assert Asked(n, next, j) == j;
      } else {
        Once(n, next + m);
        assert Asked(n, next, m) == j;
      }
    }
  }

  lemma NoneServed(s: Sched, e: S.End, asked: set<nat>)
    requires |e.left| == |e.at| == |s.lanes| && forall j: nat :: j < |s.lanes| ==> j in asked
    requires forall j :: j in asked && j < |s.lanes| ==> !S.Servable(s, j, e.left, e.dataSent, e.at[j])
    ensures S.Exhausted(s, e)
  {
    hide S.Servable;
    forall i | 0 <= i < |s.lanes| ensures !S.Servable(s, i, e.left, e.dataSent, e.at[i]) {
      assert i in asked;
    }
  }

  ghost predicate Steady(env: Env) { forall i: nat, j: nat :: i <= j ==> env.clock(i) <= env.clock(j) }

  /** The events so far, from where the tick began. */
  datatype Run = Run(start: Sched, from: int, es: seq<R.Event>)

  ghost predicate RunOk(run: Run, s: Sched, env: Env, k: nat) {
    && R.Exec(run.start, run.es) == s
    && (Steady(env) && run.from <= env.clock(0) ==>
          R.Timely(run.from, run.es) && R.ClockAfter(run.from, run.es) <= env.clock(k))
  }

  /** Between readings k and k' the clock fits the event. */
  ghost predicate Timed(env: Env, k: nat, e: R.Event, k': nat) {
    Steady(env) ==> forall t: int :: t <= env.clock(k) ==> R.Later(t, e) && R.Clock(t, e) <= env.clock(k')
  }

  lemma TimedTry(env: Env, k: nat, e: R.Event)
    requires e.Tried? && e.now == env.clock(k) && e.noteAt == env.clock(k + 1)
    ensures Timed(env, k, e, k + 2)
  {
  }

  lemma TimedRefill(env: Env, k: nat)
    ensures Timed(env, k, R.Refilled(env.clock(k)), k + 1)
  {
  }

  lemma TimedStill(env: Env, k: nat, e: R.Event)
    requires e.Offered? || e.Changed?
    ensures Timed(env, k, e, k)
  {
  }

  lemma RunGrows(run: Run, s: Sched, env: Env, k: nat, e: R.Event, k': nat)
    requires RunOk(run, s, env, k) && k <= k'
    requires Timed(env, k, e, k')
    ensures RunOk(run.(es := run.es + [e]), R.Step(s, e), env, k')
  {
    assert (run.es + [e])[..|run.es|] == run.es;
    hide R.Step;
  }

  /** One transmission: what it keeps and how it gets closer to the end of the tick. */
  lemma TryFacts(s: Sched, e: R.Event)
    requires e.Tried? && Ok(s) && |e.remain| == |s.lanes| && e.dataSent <= s.maxData
    ensures var r := Emit(s, e.primary, e.acksOnly, e.remain, e.dataSent, e.now, e.sent, e.noteAt);
            && R.Step(s, e) == r.s && Ok(r.s) && R.SameSetup(r.s, s)
            && e.dataSent <= r.dataSent <= s.maxData && (e.acksOnly ==> r.dataSent == e.dataSent)
            && Acks(r.s.lanes) <= Acks(s.lanes) && (r.ok && e.acksOnly ==> Acks(r.s.lanes) < Acks(s.lanes))
            && (r.ok ==> Acks(r.s.lanes) + (s.maxData - r.dataSent) < Acks(s.lanes) + (s.maxData - e.dataSent))
            && Acks(r.s.lanes) + (s.maxData - r.dataSent) <= Acks(s.lanes) + (s.maxData - e.dataSent)
  {
    EmitProgress(s, e.primary, e.acksOnly, e.remain, e.dataSent, e.now, e.sent, e.noteAt);
    R.EmitPaid(s, e);
    hide Emit;
    hide Acks;
    hide R.DraftBytes;
    hide R.DraftCount;
  }
}
