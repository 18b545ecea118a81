/** When the encoder sends: a block goes out as soon as it is full, and one that is not goes out
    at the first tick that comes a timeout after its oldest packet. */
module FecTimer {
  import opened Bytes
  import opened Gf
  import opened FecMatrix
  import opened FecCode
  import opened FecStream

  /** When each accepted packet came, in order. */
  function Times(evs: seq<EncEvent>): seq<int> {
    if evs == [] then []
    else
      var e := evs[|evs| - 1];
      Times(evs[..|evs| - 1]) + (if Accepted(e) then [e.now] else [])
  }

  function Clock(start: int, e: EncEvent): int {
    match e
    case App(_, now) => now
    case EncTick(now) => now
    case FlushNow => start
  }

  function ClockAt(start: int, evs: seq<EncEvent>): int {
    if evs == [] then start else Clock(ClockAt(start, evs[..|evs| - 1]), evs[|evs| - 1])
  }

  /** The clock never goes back. */
  predicate Forward(start: int, evs: seq<EncEvent>) {
    evs == []
    || (Forward(start, evs[..|evs| - 1])
        && ClockAt(start, evs[..|evs| - 1]) <= Clock(ClockAt(start, evs[..|evs| - 1]), evs[|evs| - 1]))
  }

  /** How many packets have gone out in blocks. */
  function SentCount(r: EncRun): nat { |Packets(r.sent)| }

  function Due(timeoutMs: nat, at: int): int { at + timeoutMs * MS }

  /** The deadline is set while packets wait, a timeout after the oldest of them. */
  ghost predicate TimerOk(r: EncRun, times: seq<int>) {
    && |times| == |r.accepted| == SentCount(r) + |r.e.pending|
    && (r.e.deadlineSet <==> r.e.pending != [])
    && (r.e.pending != [] ==> r.e.deadline == Due(r.e.timeoutMs, times[SentCount(r)]))
  }

  /** With c packets sent and these accepted, the event sends what waits: the block is full, or
      its oldest packet has waited the timeout, or a flush is asked for. */
  predicate Sends(k: nat, timeoutMs: nat, c: nat, times: seq<int>, e: EncEvent) {
    c <= |times| &&
    match e
    case App(_, _) => Accepted(e) && |times| - c + 1 >= k
    case EncTick(now) => c < |times| && timeoutMs > 0 && Due(timeoutMs, times[c]) <= now
    case FlushNow => c < |times|
  }

  /** One event of the encoder alone. */
  lemma EncSends(F: Field, e: Enc, ev: EncEvent)
    requires EncOk(e) && (e.deadlineSet <==> e.pending != [])
    ensures var (f, out) := EncStep(F, e, ev);
            && f.timeoutMs == e.timeoutMs && (f.deadlineSet <==> f.pending != [])
            && (out != [] <==>
                  match ev
                  case App(_, _) => Accepted(ev) && |e.pending| + 1 >= e.k
                  case EncTick(now) => e.pending != [] && e.timeoutMs > 0 && e.deadline <= now
                  case FlushNow => e.pending != [])
            && (out == [] && f.pending != [] ==>
                  f.deadline == if e.pending == [] && ev.App? then Due(e.timeoutMs, ev.now) else e.deadline)
  {
    hide EncodeBlock;
    var packets := e.pending + (if Accepted(ev) then [ev.data] else []);
    assert Fits(packets);
    EncodeSucceeds(F, e.k, e.n, packets, e.blockId);
    assert e.pending + [] == e.pending;
  }

  lemma WaitingOnes(r: EncRun)
    requires Packets(r.sent) + r.e.pending == r.accepted
    ensures |r.accepted| == SentCount(r) + |r.e.pending|
  {
    hide Packets;
  }

  /** What one event does to the timer and the blocks. */
  lemma StepTimer(F: Field, r: EncRun, e: EncEvent, times: seq<int>)
    requires EncInv(F, r) && TimerOk(r, times)
    ensures var s := RunEnc(F, r, e);
            var all := times + (if Accepted(e) then [e.now] else []);
            && TimerOk(s, all) && s.e.timeoutMs == r.e.timeoutMs && r.sent <= s.sent && SentCount(r) <= SentCount(s)
            && (s.sent != r.sent <==> Sends(r.e.k, r.e.timeoutMs, SentCount(r), times, e))
            && (s.sent != r.sent ==> SentCount(s) == |all|)
  {
    hide EncStep;
    hide Packets;
    EncoderKeeps(F, r, e);
    StepShape(F, r.e, e);
    EncSends(F, r.e, e);
    var s := RunEnc(F, r, e);
    InvCounts(F, r);
    InvCounts(F, s);
    hide EncInv;
    var packets := r.e.pending + (if Accepted(e) then [e.data] else []);
    var out := EncStep(F, r.e, e).1;
    if out != [] {
      PacketsSnoc(r.sent, packets);
      assert s.sent == r.sent + [packets] && |s.sent| == |r.sent| + 1;
    } else {
      assert s.sent == r.sent;
    }
  }

  lemma InvCounts(F: Field, r: EncRun)
    requires EncInv(F, r)
    ensures EncOk(r.e) && |r.accepted| == SentCount(r) + |r.e.pending|
  {
    WaitingOnes(r);
    hide SentAs;
  }

  // ---- Whole runs ----------------------------------------------------------

  /** The encoder after a run from the start. */
  function After(F: Field, k: nat, n: nat, timeoutMs: nat, evs: seq<EncEvent>): (r: EncRun)
    requires Params(k, n)
    ensures EncInv(F, r) && Params(r.e.k, r.e.n) && r.e.k == k && r.e.n == n
  {
    StartInv(F, k, n, timeoutMs);
    EncAfter(F, StartEnc(k, n, timeoutMs), evs)
  }

  lemma {:induction false} RunTimer(F: Field, k: nat, n: nat, timeoutMs: nat, evs: seq<EncEvent>)
    requires Params(k, n)
    ensures var r := After(F, k, n, timeoutMs, evs);
            TimerOk(r, Times(evs)) && r.e.timeoutMs == timeoutMs
  {
    hide TimerOk;
    hide RunEnc;
    hide EncInv;
    StartInv(F, k, n, timeoutMs);
    if evs == [] {
      StartTimer(k, n, timeoutMs);
    } else {
      RunTimer(F, k, n, timeoutMs, evs[..|evs| - 1]);
      StepTimer(F, After(F, k, n, timeoutMs, evs[..|evs| - 1]), evs[|evs| - 1], Times(evs[..|evs| - 1]));
    }
  }

  lemma StartTimer(k: nat, n: nat, timeoutMs: nat)
    ensures TimerOk(StartEnc(k, n, timeoutMs), [])
  {
  }

  /** Over every run: an event sends a block if and only if the block is full, or its oldest packet
      came a timeout ago, or a flush is asked for; and then all that was accepted has gone out. */
  lemma SendsExactly(F: Field, k: nat, n: nat, timeoutMs: nat, evs: seq<EncEvent>, e: EncEvent)
    requires Params(k, n)
    ensures var r, s := After(F, k, n, timeoutMs, evs), After(F, k, n, timeoutMs, evs + [e]);
            && r.sent <= s.sent && SentCount(r) <= SentCount(s)
            && (s.sent != r.sent <==> Sends(k, timeoutMs, SentCount(r), Times(evs), e))
            && (s.sent != r.sent ==> Packets(s.sent) == AcceptedOf(evs + [e]))
  {
    hide RunEnc;
    hide TimerOk;
    hide EncInv;
    RunTimer(F, k, n, timeoutMs, evs);
    assert (evs + [e])[..|evs|] == evs;
    StartInv(F, k, n, timeoutMs);
    StepTimer(F, After(F, k, n, timeoutMs, evs), e, Times(evs));
    EncoderRun(F, k, n, timeoutMs, evs + [e]);
    var s := After(F, k, n, timeoutMs, evs + [e]);
    TimesCount(evs + [e]);
    if SentCount(s) == |Times(evs + [e])| { AllSent(Packets(s.sent), s.e.pending, AcceptedOf(evs + [e])); }
    hide Packets;
  }

  lemma AllSent(sent: seq<seq<byte>>, pending: seq<seq<byte>>, all: seq<seq<byte>>)
    requires sent + pending == all && |sent| == |all|
    ensures sent == all
  {
  }

  lemma {:induction false} TimesCount(evs: seq<EncEvent>)
    ensures |Times(evs)| == |AcceptedOf(evs)|
  {
    if evs != [] { TimesCount(evs[..|evs| - 1]); }
  }

  /** On a forward clock the packets' times ascend. */
  lemma {:induction false} TimesAscend(start: int, evs: seq<EncEvent>)
    requires Forward(start, evs)
    ensures forall i :: 0 <= i < |Times(evs)| ==> Times(evs)[i] <= ClockAt(start, evs)
    ensures forall i, j :: 0 <= i <= j < |Times(evs)| ==> Times(evs)[i] <= Times(evs)[j]
  {
    if evs != [] { TimesAscend(start, evs[..|evs| - 1]); }
  }

  /** What has gone out stays out. */
  lemma {:induction false} SentGrows(F: Field, k: nat, n: nat, timeoutMs: nat, evs: seq<EncEvent>, more: seq<EncEvent>)
    requires Params(k, n)
    ensures SentCount(After(F, k, n, timeoutMs, evs)) <= SentCount(After(F, k, n, timeoutMs, evs + more))
  {
    hide After;
    hide SentCount;
    if more == [] {
      assert evs + more == evs;
    } else {
      var m := |more| - 1;
      SentGrows(F, k, n, timeoutMs, evs, more[..m]);
      SendsExactly(F, k, n, timeoutMs, evs + more[..m], more[m]);
      assert evs + more[..m] + [more[m]] == evs + more;
    }
  }

  /** Over every run with a forward clock: a packet is in a sent block after the first tick that
      comes a timeout after it was accepted, whatever comes between and behind. */
  lemma SentInTime(F: Field, k: nat, n: nat, timeoutMs: nat, start: int, before: seq<EncEvent>, tick: int,
                   more: seq<EncEvent>, p: nat)
    requires Params(k, n) && timeoutMs > 0 && Forward(start, before) && p < |Times(before)|
    requires Times(before)[p] + timeoutMs * MS <= tick
    ensures var s := After(F, k, n, timeoutMs, before + [EncTick(tick)] + more);
            && p < |Packets(s.sent)| && p < |AcceptedOf(before)|
            && Packets(s.sent)[p] == AcceptedOf(before)[p]
  {
    hide After;
    hide Packets;
    hide Forward;
    TimesAscend(start, before);
    TimesCount(before);
    var r := After(F, k, n, timeoutMs, before);
    var u := before + [EncTick(tick)];
    SendsExactly(F, k, n, timeoutMs, before, EncTick(tick));
    assert (before + [EncTick(tick)])[..|before|] == before;
    RunTimer(F, k, n, timeoutMs, before);
    assert SentCount(r) <= |Times(before)|;
    if p >= SentCount(r) {
      assert Times(before)[SentCount(r)] <= Times(before)[p];
      assert Sends(k, timeoutMs, SentCount(r), Times(before), EncTick(tick));
    }
    assert p < SentCount(After(F, k, n, timeoutMs, u));
    SentGrows(F, k, n, timeoutMs, u, more);
    SameAccepted(before, [EncTick(tick)] + more);
    assert before + ([EncTick(tick)] + more) == u + more;
    RunAccepted(F, k, n, timeoutMs, u + more);
  }

  lemma RunAccepted(F: Field, k: nat, n: nat, timeoutMs: nat, evs: seq<EncEvent>)
    requires Params(k, n)
    ensures var s := After(F, k, n, timeoutMs, evs);
            Packets(s.sent) + s.e.pending == AcceptedOf(evs) && Packets(s.sent) <= AcceptedOf(evs)
  {
    EncoderRun(F, k, n, timeoutMs, evs);
    hide Packets;
  }

  lemma {:induction false} SameAccepted(evs: seq<EncEvent>, more: seq<EncEvent>)
    ensures AcceptedOf(evs) <= AcceptedOf(evs + more)
  {
    if more == [] {
      assert evs + more == evs;
    } else {
      SameAccepted(evs, more[..|more| - 1]);
      assert (evs + more)[..|evs + more| - 1] == evs + more[..|more| - 1];
    }
  }
}
