/** The air path from end to end: what one scheduler stamps, packs and builds over a run, and
    what the stream listening on that bus is handed when the frames arrive in any order, some
    of them lost and some repeated. */
module AirEnd {
  import opened Bytes
  import opened AirFrame
  import opened AirSeq
  import opened TxSpec
  import opened TxFrame
  import opened TxRun
  import Rx = AirRx

  /** A frame as it was built, with the scheduler and the clock at that moment. */
  datatype Built = Built(s: Sched, d: Draft, now: int)

  /** All frames of a run that were built, accepted by the radio or not. */
  function Log(s: Sched, es: seq<Event>): seq<Built> {
    if es == [] then []
    else
      var before, e := es[..|es| - 1], es[|es| - 1];
      var m := Exec(s, before);
      Log(s, before)
      + (if e.Tried? && EmitAt(m, e).draft.Some? then [Built(m, EmitAt(m, e).draft.value, e.now)] else [])
  }

  /** How many of the frames hold a PDU of lane u. */
  function Count(log: seq<Built>, u: nat): nat {
    if log == [] then 0 else Count(log[..|log| - 1], u) + (if u in log[|log| - 1].d.used then 1 else 0)
  }

  function IndexOf(used: seq<nat>, u: nat): (k: nat)
    requires u in used
    ensures k < |used| && used[k] == u
  {
    if used[0] == u then 0 else 1 + IndexOf(used[1..], u)
  }

  /** The PDU of lane u in a draft, its number in front. */
  function PduOf(d: Draft, u: nat): seq<byte>
    requires u in d.used && |d.bodies| == |d.used|
  {
    d.bodies[IndexOf(d.used, u)]
  }

  /** A frame that builds, made of what its lanes gave. */
  ghost predicate Sound(b: Built, lanes: seq<Lane>) {
    && DraftOk(b.d) && |b.d.slots| >= 1 && b.s.domain != 0 && |b.s.prefix| == 4
    && Advanced(b.s.lanes, b.d, b.now)
    && |b.d.lanes| == |lanes| && forall v :: 0 <= v < |lanes| ==> b.d.lanes[v].busTx == lanes[v].busTx
  }

  /** If the frame holds a PDU of lane u, that PDU is number `t`, and a payload stands behind it. */
  ghost predicate Carried(b: Built, u: nat, t: nat) {
    u in b.d.used ==>
      && |b.d.bodies| == |b.d.used| && |PduOf(b.d, u)| >= 3
      && PduOf(b.d, u) == Be16(t % 65536) + PduOf(b.d, u)[2..]
  }

  /** PDU number i of lane u, counted over the whole log, is numbered tx + i. */
  ghost predicate Numbered(log: seq<Built>, u: nat, tx: nat) {
    forall n :: 0 <= n < |log| ==> Carried(log[n], u, tx + Count(log[..n], u))
  }

  ghost predicate SoundLog(log: seq<Built>, lanes: seq<Lane>) {
    forall n :: 0 <= n < |log| ==> Sound(log[n], lanes)
  }

  // ---- The sender's run --------------------------------------------------

  /** What no step changes. */
  ghost predicate Kin(a: Sched, b: Sched) {
    && a.domain == b.domain && a.prefix == b.prefix && |a.lanes| == |b.lanes|
    && forall v :: 0 <= v < |a.lanes| ==> a.lanes[v].busTx == b.lanes[v].busTx
  }

  lemma StepKin(s: Sched, e: Event)
    ensures Kin(Step(s, e), s)
  {
    if e.Tried? {
      EmitPaid(s, e);
      forall v | 0 <= v < |s.lanes| ensures Step(s, e).lanes[v].busTx == s.lanes[v].busTx {
        EmitNumbers(s, e, v);
      }
      hide EmitAt;
    }
  }

  /** Only transmissions move a lane's number. */
  lemma StepNumber(s: Sched, e: Event, u: nat)
    requires u < |s.lanes|
    ensures |Step(s, e).lanes| == |s.lanes|
    ensures Step(s, e).lanes[u].seqs.tx
            == if e.Tried? && EmitAt(s, e).draft.Some? && u in EmitAt(s, e).draft.value.used
               then (s.lanes[u].seqs.tx + 1) % 65536 else s.lanes[u].seqs.tx
  {
    if e.Tried? {
      EmitNumbers(s, e, u);
      hide EmitAt;
    }
  }

  lemma BuiltSound(s: Sched, e: Event)
    requires e.Tried? && EmitAt(s, e).draft.Some? && |s.prefix| == 4
    ensures Sound(Built(s, EmitAt(s, e).draft.value, e.now), s.lanes)
  {
    EmitShape(s, e);
    var d := EmitAt(s, e).draft.value;
    FullDraft(d);
    forall v | 0 <= v < |s.lanes| ensures d.lanes[v].busTx == s.lanes[v].busTx {
      DraftNumbers(s.lanes, d, v, e.now);
    }
    hide EmitAt;
    hide DraftOk;
    hide LaneAdvanced;
  }

  lemma {:induction false} RunKin(s: Sched, es: seq<Event>)
    ensures Kin(Exec(s, es), s)
  {
    hide Step;
    if es != [] {
      RunKin(s, es[..|es| - 1]);
      StepKin(Exec(s, es[..|es| - 1]), es[|es| - 1]);
    }
  }

  lemma SoundKin(b: Built, a: Sched, s: Sched)
    requires Sound(b, a.lanes) && Kin(a, s)
    ensures Sound(b, s.lanes)
  {
    hide DraftOk;
    hide Advanced;
  }

  lemma {:induction false} LogSound(s: Sched, es: seq<Event>)
    requires |s.prefix| == 4
    ensures SoundLog(Log(s, es), s.lanes)
  {
    hide Sound;
    hide Step;
    hide EmitAt;
    if es != [] {
      var before, e := es[..|es| - 1], es[|es| - 1];
      LogSound(s, before);
      RunKin(s, before);
      var m := Exec(s, before);
      if e.Tried? && EmitAt(m, e).draft.Some? {
        BuiltSound(m, e);
        SoundKin(Built(m, EmitAt(m, e).draft.value, e.now), m, s);
      }
    }
  }

  lemma CountSnoc(log: seq<Built>, b: Built, u: nat)
    ensures Count(log + [b], u) == Count(log, u) + (if u in b.d.used then 1 else 0)
  {
    assert (log + [b])[..|log|] == log;
  }

  lemma NumberedKeep(log: seq<Built>, b: Built, u: nat, tx: nat, n: nat)
    requires n <= |log| && Numbered(log, u, tx) && Carried(b, u, tx + Count(log, u))
    ensures Carried((log + [b])[n], u, tx + Count((log + [b])[..n], u))
  {
    hide Count;
    hide Carried;
    if n < |log| {
      assert (log + [b])[..n] == log[..n] && (log + [b])[n] == log[n];
    } else {
      assert (log + [b])[..n] == log;
    }
  }

  lemma NumberedSnoc(log: seq<Built>, b: Built, u: nat, tx: nat)
    requires Numbered(log, u, tx) && Carried(b, u, tx + Count(log, u))
    ensures Numbered(log + [b], u, tx)
  {
    hide Count;
    hide Carried;
    NumberedEach(log, b, u, tx);
  }

  lemma NumberedEach(log: seq<Built>, b: Built, u: nat, tx: nat)
    requires Numbered(log, u, tx) && Carried(b, u, tx + Count(log, u))
    ensures forall n :: 0 <= n < |log + [b]| ==> Carried((log + [b])[n], u, tx + Count((log + [b])[..n], u))
  {
    hide Numbered;
    hide Count;
    hide Carried;
    forall n | 0 <= n < |log + [b]| ensures Carried((log + [b])[n], u, tx + Count((log + [b])[..n], u)) {
      NumberedKeep(log, b, u, tx, n);
    }
  }

  lemma FrontCarried(l: Lane, b: Built, u: nat, t: nat)
    requires NumberInFront(l, b.d, u) && l.seqs.tx == t % 65536
    ensures Carried(b, u, t)
  {
  }

  lemma ModNext(tx: nat, n: nat)
    ensures ((tx + n) % 65536 + 1) % 65536 == (tx + n + 1) % 65536
  {
  }

  /** Over any run the PDUs of a lane carry consecutive numbers, refused frames included. */
  lemma {:induction false} LogNumbered(s: Sched, es: seq<Event>, u: nat)
    requires u < |s.lanes|
    ensures Numbered(Log(s, es), u, s.lanes[u].seqs.tx)
    ensures |Exec(s, es).lanes| == |s.lanes|
    ensures Exec(s, es).lanes[u].seqs.tx == (s.lanes[u].seqs.tx + Count(Log(s, es), u)) % 65536
  {
    hide Step;
    hide EmitAt;
    hide Numbered;
    hide Carried;
    hide NumberInFront;
    hide Count;
    var tx := s.lanes[u].seqs.tx;
    if es == [] {
      EmptyNumbered(u, tx);
    } else {
      var before, e := es[..|es| - 1], es[|es| - 1];
      LogNumbered(s, before, u);
      var m, log := Exec(s, before), Log(s, before);
      StepNumber(m, e, u);
      if e.Tried? && EmitAt(m, e).draft.Some? {
        var b := Built(m, EmitAt(m, e).draft.value, e.now);
        EmitNumbers(m, e, u);
        CountSnoc(log, b, u);
        ModNext(tx, Count(log, u));
        FrontCarried(m.lanes[u], b, u, tx + Count(log, u));
        NumberedSnoc(log, b, u, tx);
      } else {
        assert log + [] == log;
      }
    }
  }

  lemma EmptyNumbered(u: nat, tx: nat)
    ensures Numbered([], u, tx) && Count([], u) == 0
  {
  }

  // ---- The receiver ------------------------------------------------------

  /** Lane j of the receiver, and no other, listens on the bus that lane u of the sender, and no
      other, sends on. */
  ghost predicate Linked(from: seq<Lane>, u: nat, to: seq<Rx.Lane>, j: nat) {
    && u < |from| && j < |to| && Rx.Takes(to[j], from[u].busTx)
    && (forall v :: 0 <= v < |from| && v != u ==> from[v].busTx != from[u].busTx)
    && (forall i :: 0 <= i < |to| && i != j ==> !Rx.Takes(to[i], from[u].busTx))
  }

  /** A PDU reaches lane j exactly when lane u sent it. */
  lemma LinkTarget(from: seq<Lane>, u: nat, to: seq<Rx.Lane>, j: nat, v: nat)
    requires Linked(from, u, to, j) && v < |from|
    ensures Rx.Target(to, from[v].busTx, 0) == Some(j) <==> v == u
  {
    if v == u { Rx.TargetIs(to, from[u].busTx, j); }
  }

  lemma {:induction false} ForAppend(to: seq<Rx.Lane>, a: seq<Pdu>, b: seq<Pdu>, j: nat)
    ensures Rx.For(to, a + b, j) == Rx.For(to, a, j) + Rx.For(to, b, j)
  {
    if b == [] {
      assert a + b == a;
    } else {
      var n := |b| - 1;
      ForAppend(to, a, b[..n], j);
      assert (a + b)[..|a| + n] == a + b[..n] && (a + b)[|a| + n] == b[n];
    }
  }

  lemma ForSnoc(to: seq<Rx.Lane>, pdus: seq<Pdu>, p: Pdu, j: nat)
    ensures Rx.For(to, pdus + [p], j)
            == Rx.For(to, pdus, j) + (if Rx.Target(to, p.bus, 0) == Some(j) then [p.data] else [])
  {
    assert (pdus + [p])[..|pdus|] == pdus;
  }

  /** Each lane stands at most once in a draft. */
  lemma LastUse(d: Draft, u: nat, n: nat)
    requires DraftOk(d) && n < |d.used|
    ensures u in d.used[..n + 1] <==> u in d.used[..n] || u == d.used[n]
    ensures u == d.used[n] ==> u !in d.used[..n] && IndexOf(d.used, u) == n
  {
    assert d.used[..n + 1] == d.used[..n] + [d.used[n]];
    if u == d.used[n] { OncePerDraft(d, IndexOf(d.used, u), n); }
  }

  /** What the first n PDUs of a draft bring lane j: at most the one of lane u. */
  lemma {:induction false} ForDraft(b: Built, from: seq<Lane>, u: nat, to: seq<Rx.Lane>, j: nat, n: nat)
    requires Sound(b, from) && Linked(from, u, to, j) && |b.d.bodies| == |b.d.used| == |b.d.slots| && n <= |b.d.used|
    ensures Rx.For(to, DraftPdus(b.d)[..n], j) == if u in b.d.used[..n] then [PduOf(b.d, u)] else []
  {
    hide Rx.Target;
    hide Rx.For;
    hide Linked;
    hide Sound;
    hide DraftOk;
    var pdus := DraftPdus(b.d);
    if n == 0 {
      ForNone(to, j);
    } else {
      var m := n - 1;
      ForDraft(b, from, u, to, j, m);
      SlotLane(b, from, m);
      LinkTarget(from, u, to, j, b.d.used[m]);
      LastUse(b.d, u, m);
      ForSnoc(to, pdus[..m], pdus[m], j);
      assert pdus[..n] == pdus[..m] + [pdus[m]];
    }
  }

  lemma ForNone(to: seq<Rx.Lane>, j: nat)
    ensures Rx.For(to, [], j) == []
  {
  }

  lemma SlotLane(b: Built, from: seq<Lane>, k: nat)
    requires Sound(b, from) && k < |b.d.used|
    ensures k < |b.d.slots| && b.d.used[k] < |from| && b.d.slots[k].bus == from[b.d.used[k]].busTx
    ensures DraftOk(b.d)
  {
    hide Advanced;
  }

  lemma OncePerDraft(d: Draft, a: nat, b: nat)
    requires DraftOk(d) && a < |d.used| && b < |d.used| && d.used[a] == d.used[b]
    ensures a == b
  {
  }

  function FrameIn(b: Built): Rx.Frame
    requires |b.d.slots| <= SLOTS
  {
    FrameOf(b.s, b.d)
  }

  /** The frames that arrive: numbers into the log, in any order, some missing, some repeated. */
  predicate Arrivals(log: seq<Built>, arrive: seq<nat>) {
    forall a :: 0 <= a < |arrive| ==> arrive[a] < |log|
  }

  lemma FrameSound(b: Built, from: seq<Lane>)
    requires Sound(b, from)
    ensures |b.d.slots| == |b.d.bodies| == |b.d.used| <= SLOTS
    ensures Rx.Buildable(FrameIn(b)) && Rx.SentBy(FrameIn(b)) == DraftPdus(b.d)
  {
    FullDraft(b.d);
    FrameBuilds(b.s, b.d);
    hide Advanced;
  }

  lemma FramesSound(log: seq<Built>, from: seq<Lane>, arrive: seq<nat>)
    requires SoundLog(log, from) && Arrivals(log, arrive)
    ensures forall a :: 0 <= a < |arrive| ==> |log[arrive[a]].d.slots| <= SLOTS && Rx.Buildable(FrameIn(log[arrive[a]]))
  {
    hide Rx.Buildable;
    hide FrameIn;
    hide Sound;
    forall a | 0 <= a < |arrive|
      ensures |log[arrive[a]].d.slots| <= SLOTS && Rx.Buildable(FrameIn(log[arrive[a]]))
    {
      FrameSound(log[arrive[a]], from);
    }
  }

  ghost function AirFrames(log: seq<Built>, from: seq<Lane>, arrive: seq<nat>): (r: seq<Rx.Frame>)
    requires SoundLog(log, from) && Arrivals(log, arrive)
    ensures |r| == |arrive| && forall a :: 0 <= a < |r| ==> Rx.Buildable(r[a])
  {
    FramesSound(log, from, arrive);
    seq(|arrive|, a requires 0 <= a < |arrive| && arrive[a] < |log| && |log[arrive[a]].d.slots| <= SLOTS =>
      FrameIn(log[arrive[a]]))
  }

  /** The payload of lane u in a frame, behind the number. */
  function PayloadOf(b: Built, u: nat): seq<byte>
    requires u in b.d.used && |b.d.bodies| == |b.d.used|
  {
    var p := PduOf(b.d, u);
    if |p| < SEQ_LEN then [] else p[SEQ_LEN..]
  }

  function ItemOf(log: seq<Built>, a: nat, u: nat, tx: nat): seq<Rx.Item>
    requires a < |log|
  {
    if u in log[a].d.used && |log[a].d.bodies| == |log[a].d.used|
    then [Rx.Item(tx + Count(log[..a], u), PayloadOf(log[a], u))] else []
  }

  /** The PDUs of lane u in the order in which they arrive, with their true numbers. */
  function Arrived(log: seq<Built>, arrive: seq<nat>, u: nat, tx: nat): seq<Rx.Item>
    requires Arrivals(log, arrive)
  {
    if arrive == [] then []
    else
      var n := |arrive| - 1;
      Arrived(log, arrive[..n], u, tx) + ItemOf(log, arrive[n], u, tx)
  }

  lemma StampedAppend(a: seq<Rx.Item>, b: seq<Rx.Item>)
    ensures Rx.Stamped(a + b) == Rx.Stamped(a) + Rx.Stamped(b)
  {
  }

  /** One frame brings lane j the PDU of lane u, if it holds one. */
  lemma ForFrame(log: seq<Built>, from: seq<Lane>, a: nat, u: nat, to: seq<Rx.Lane>, j: nat, tx: nat)
    requires SoundLog(log, from) && a < |log| && Numbered(log, u, tx) && Linked(from, u, to, j)
    ensures |log[a].d.slots| <= SLOTS && Rx.Buildable(FrameIn(log[a]))
    ensures Rx.For(to, Rx.SentBy(FrameIn(log[a])), j) == Rx.Stamped(ItemOf(log, a, u, tx))
  {
    hide Sound;
    hide Linked;
    hide Rx.For;
    hide FrameIn;
    hide Rx.Buildable;
    var b := log[a];
    FrameSound(b, from);
    ForDraft(b, from, u, to, j, |b.d.used|);
    assert DraftPdus(b.d)[..|b.d.used|] == DraftPdus(b.d) && b.d.used[..|b.d.used|] == b.d.used;
    assert Carried(b, u, tx + Count(log[..a], u));
    hide Count;
  }

  lemma ArrivalsInit(log: seq<Built>, from: seq<Lane>, arrive: seq<nat>)
    requires SoundLog(log, from) && Arrivals(log, arrive) && arrive != []
    ensures var n := |arrive| - 1;
            && Arrivals(log, arrive[..n]) && arrive[n] < |log|
            && AirFrames(log, from, arrive)[..n] == AirFrames(log, from, arrive[..n])
            && |log[arrive[n]].d.slots| <= SLOTS && AirFrames(log, from, arrive)[n] == FrameIn(log[arrive[n]])
  {
    hide Sound;
    hide FrameIn;
    hide Rx.Buildable;
    FramesSound(log, from, arrive);
  }

  /** Whatever arrives, lane j sees exactly the PDUs of lane u in the arriving frames. */
  lemma {:induction false} ForFrames(log: seq<Built>, from: seq<Lane>, arrive: seq<nat>, u: nat,
                                     to: seq<Rx.Lane>, j: nat, tx: nat)
    requires SoundLog(log, from) && Arrivals(log, arrive) && Numbered(log, u, tx) && Linked(from, u, to, j)
    ensures Rx.For(to, Rx.SentAll(AirFrames(log, from, arrive)), j) == Rx.Stamped(Arrived(log, arrive, u, tx))
  {
    hide SoundLog;
    hide Numbered;
    hide Linked;
    hide Rx.For;
    hide Rx.SentBy;
    hide Rx.Buildable;
    hide FrameIn;
    hide ItemOf;
    hide Arrivals;
    hide AirFrames;
    var frames := AirFrames(log, from, arrive);
    if arrive == [] {
      assert frames == [] && Rx.SentAll(frames) == [];
      ForNone(to, j);
    } else {
      var n := |arrive| - 1;
      ArrivalsInit(log, from, arrive);
      ForFrames(log, from, arrive[..n], u, to, j, tx);
      ForFrame(log, from, arrive[n], u, to, j, tx);
      ForAppend(to, Rx.SentAll(frames[..n]), Rx.SentBy(frames[n]), j);
      StampedAppend(Arrived(log, arrive[..n], u, tx), ItemOf(log, arrive[n], u, tx));
      hide Rx.Stamped;
    }
  }

  /** A number that arrives for the first time is never suppressed. */
  lemma {:induction false} FirstSeenKept(items: seq<Rx.Item>, k: nat)
    requires k < |items| && items[k].t !in Rx.Numbers(items[..k])
    ensures items[k].payload in Rx.Kept(items)
  {
    hide Rx.Numbers;
    var n := |items| - 1;
    if k < n {
      assert items[..n][..k] == items[..k];
      FirstSeenKept(items[..n], k);
    }
  }

  /** From end to end. Over any run of the sender and any arrivals of its frames, a fresh stream
      of the receiver is handed, in order of arrival, the payloads of exactly the sender's stream
      on its bus: the first, and then all that do not repeat the highest number seen, so each
      that arrives for the first time; its loss count is exact. */
  lemma AirDelivers(s: Sched, es: seq<Event>, arrive: seq<nat>, to: seq<Rx.Lane>, u: nat, j: nat)
    requires |s.prefix| == 4 && Linked(s.lanes, u, to, j) && Arrivals(Log(s, es), arrive)
    requires !to[j].seqs.have && to[j].seqs.lost == 0
    requires Paced(to[j].seqs, Rx.Numbers(Arrived(Log(s, es), arrive, u, s.lanes[u].seqs.tx)))
    ensures SoundLog(Log(s, es), s.lanes)
    ensures var items := Arrived(Log(s, es), arrive, u, s.lanes[u].seqs.tx);
            var r := Rx.Receive(to, AirFrames(Log(s, es), s.lanes, arrive))[j];
            && r.given == to[j].given + Rx.Kept(items)
            && (forall k :: 0 <= k < |items| && items[k].t !in Rx.Numbers(items[..k]) ==> items[k].payload in r.given)
            && (items == [] ==> r.seqs == to[j].seqs)
            && (items != [] ==> Exact(TrackOf(to[j].seqs, Rx.Numbers(items)))
                                && r.seqs == TrackOf(to[j].seqs, Rx.Numbers(items)).s)
  {
    hide Linked;
    hide Rx.Kept;
    hide Rx.Numbers;
    hide Paced;
    hide TrackOf;
    hide Exact;
    hide Arrived;
    hide Log;
    hide SoundLog;
    hide Numbered;
    hide Rx.Buildable;
    LinkLane(s.lanes, u, to, j);
    LogSound(s, es);
    LogNumbered(s, es, u);
    var log, tx := Log(s, es), s.lanes[u].seqs.tx;
    var items := Arrived(log, arrive, u, tx);
    var frames := AirFrames(log, s.lanes, arrive);
    Rx.AirRoundTrip(to, frames);
    Rx.LaneSees(to, Rx.SentAll(frames), j);
    ForFrames(log, s.lanes, arrive, u, to, j, tx);
    Rx.FreshDelivers(to[j], items);
    forall k | 0 <= k < |items| && items[k].t !in Rx.Numbers(items[..k])
      ensures items[k].payload in Rx.Kept(items)
    {
      FirstSeenKept(items, k);
    }
  }

  lemma LinkLane(from: seq<Lane>, u: nat, to: seq<Rx.Lane>, j: nat)
    requires Linked(from, u, to, j)
    ensures u < |from| && j < |to|
  {
  }

  // ---- Nothing lost ------------------------------------------------------

  /** The payloads of lane u in the order in which they were sent. */
  function Payloads(log: seq<Built>, u: nat): seq<seq<byte>> {
    if log == [] then []
    else
      var b := log[|log| - 1];
      Payloads(log[..|log| - 1], u)
      + (if u in b.d.used && |b.d.bodies| == |b.d.used| then [PayloadOf(b, u)] else [])
  }

  /** Every frame arrives once, in order. */
  function Upto(n: nat): (r: seq<nat>)
    ensures |r| == n && forall i :: 0 <= i < n ==> r[i] == i
  {
    seq(n, i => i)
  }

  ghost predicate Consecutive(items: seq<Rx.Item>, t: int) {
    forall k :: 0 <= k < |items| ==> items[k].t == t + k
  }

  function Bare(items: seq<Rx.Item>): seq<seq<byte>> {
    seq(|items|, k requires 0 <= k < |items| => items[k].payload)
  }

  /** Consecutive numbers keep pace, none repeats, and none is lost. */
  lemma {:induction false} ConsecutiveKept(q: State, items: seq<Rx.Item>, t: int)
    requires !q.have && q.lost == 0 && Consecutive(items, t)
    ensures Paced(q, Rx.Numbers(items)) && Rx.Kept(items) == Bare(items)
    ensures items != [] ==>
              var k := TrackOf(q, Rx.Numbers(items));
              k.high == t + |items| - 1 && k.first == t && k.moves == |items| - 1
  {
    hide Paced;
    hide TrackOf;
    hide Rx.Kept;
    hide NoteRx;
    if items == [] {
      NothingKept(q);
      assert Rx.Numbers(items) == [];
    } else {
      var n := |items| - 1;
      var before, last := items[..n], items[n];
      assert items == before + [last];
      ConsecutiveKept(q, before, t);
      Rx.NumbersSnoc(before, last);
      Rx.KeptSnoc(before, last);
      assert Bare(items) == Bare(before) + [last.payload];
      var ts := Rx.Numbers(before);
      assert !IsHighest(ts, last.t);
      PacedSnoc(q, ts, last.t);
      PacedPrefix(q, ts, last.t);
      hide Rx.Numbers;
    }
  }

  lemma NothingKept(q: State)
    ensures Paced(q, []) && Rx.Kept([]) == []
  {
  }

  lemma ItemsMore(log: seq<Built>, n: nat, items: seq<Rx.Item>, u: nat, tx: nat)
    requires n < |log| && |log[n].d.bodies| == |log[n].d.used|
    requires |items| == Count(log[..n], u) && Consecutive(items, tx) && Bare(items) == Payloads(log[..n], u)
    ensures var more := items + ItemOf(log, n, u, tx);
            |more| == Count(log[..n + 1], u) && Consecutive(more, tx) && Bare(more) == Payloads(log[..n + 1], u)
  {
    hide PayloadOf;
    assert log[..n + 1][..n] == log[..n] && log[..n + 1][n] == log[n];
    var more := ItemOf(log, n, u, tx);
    assert Bare(items + more) == Bare(items) + Bare(more);
    assert Bare(more) == if u in log[n].d.used then [PayloadOf(log[n], u)] else [];
  }

  lemma UptoInit(n: nat)
    requires n > 0
    ensures Upto(n)[..n - 1] == Upto(n - 1)
  {
  }

  /** Arriving in order, the PDUs of lane u are numbered without a gap. */
  lemma {:induction false} ArrivedInOrder(log: seq<Built>, n: nat, u: nat, tx: nat)
    requires n <= |log| && forall i :: 0 <= i < |log| ==> |log[i].d.bodies| == |log[i].d.used|
    ensures Arrivals(log, Upto(n))
    ensures var items := Arrived(log, Upto(n), u, tx);
            |items| == Count(log[..n], u) && Consecutive(items, tx) && Bare(items) == Payloads(log[..n], u)
  {
    hide Upto;
    hide ItemOf;
    hide Count;
    hide Payloads;
    hide Consecutive;
    hide Bare;
    if n == 0 {
      NoItems(log, u, tx);
    } else {
      ArrivedInOrder(log, n - 1, u, tx);
      UptoInit(n);
      ItemsMore(log, n - 1, Arrived(log, Upto(n - 1), u, tx), u, tx);
    }
  }

  lemma NoItems(log: seq<Built>, u: nat, tx: nat)
    ensures Count(log[..0], u) == 0 && Consecutive([], tx) && Bare([]) == Payloads(log[..0], u)
  {
  }

  /** If no frame is lost, repeated or reordered, the stream is handed exactly the payloads sent,
      in order, and counts no loss. */
  lemma InOrderDelivers(s: Sched, es: seq<Event>, to: seq<Rx.Lane>, u: nat, j: nat)
    requires |s.prefix| == 4 && Linked(s.lanes, u, to, j) && !to[j].seqs.have && to[j].seqs.lost == 0
    ensures var log := Log(s, es);
            && SoundLog(log, s.lanes) && Arrivals(log, Upto(|log|))
            && var r := Rx.Receive(to, AirFrames(log, s.lanes, Upto(|log|)))[j];
               r.given == to[j].given + Payloads(log, u) && r.seqs.lost == 0
  {
    hide Linked;
    hide Log;
    hide Sound;
    hide Rx.Receive;
    hide AirFrames;
    hide Paced;
    hide Arrived;
    hide Payloads;
    hide TrackOf;
    hide Rx.Numbers;
    hide Rx.Kept;
    hide Count;
    LinkLane(s.lanes, u, to, j);
    LogSound(s, es);
    var log, tx := Log(s, es), s.lanes[u].seqs.tx;
    BodiesEven(log, s.lanes);
    ArrivedInOrder(log, |log|, u, tx);
    assert log[..|log|] == log;
    var items := Arrived(log, Upto(|log|), u, tx);
    ConsecutiveKept(to[j].seqs, items, tx);
    AirDelivers(s, es, Upto(|log|), to, u, j);
  }

  lemma BodiesEven(log: seq<Built>, from: seq<Lane>)
    requires SoundLog(log, from)
    ensures forall i :: 0 <= i < |log| ==> |log[i].d.bodies| == |log[i].d.used|
  {
    forall i | 0 <= i < |log| ensures |log[i].d.bodies| == |log[i].d.used| {
      FrameSound(log[i], from);
    }
    hide Sound;
  }

  // ---- UDP ---------------------------------------------------------------

  /** The radio takes every frame, and no packet of lane u is dropped as the oldest. */
  ghost predicate Smooth(s: Sched, es: seq<Event>, u: nat) {
    es == []
    || (Smooth(s, es[..|es| - 1], u) && SmoothStep(Exec(s, es[..|es| - 1]), es[|es| - 1], u))
  }

  ghost predicate SmoothStep(m: Sched, e: Event, u: nat) {
    && (e.Tried? && EmitAt(m, e).draft.Some? ==> EmitAt(m, e).ok)
    && (e.Offered? && e.lane == u && IsUdp(m, u) ==> |m.lanes[u].up.q| < UDP_QUEUE)
  }

  /** What leaves the queue in a smooth step is what the frame built then carries. */
  lemma LeftCarried(m: Sched, e: Event, u: nat)
    requires IsUdp(m, u) && SmoothStep(m, e, u)
    ensures var built := e.Tried? && EmitAt(m, e).draft.Some?;
            Pkts(Left(m, e, u))
            == if built && u in EmitAt(m, e).draft.value.used
                  && |EmitAt(m, e).draft.value.bodies| == |EmitAt(m, e).draft.value.used|
               then [PayloadOf(Built(m, EmitAt(m, e).draft.value, e.now), u)] else []
  {
    hide EmitAt;
    hide DraftOk;
    hide Advanced;
    if e.Tried? {
      EmitUdp(m, e, u);
      if EmitAt(m, e).draft.Some? {
        EmitShape(m, e);
        FullDraft(EmitAt(m, e).draft.value);
      }
    }
  }

  lemma PayloadsSnoc(log: seq<Built>, b: Built, u: nat)
    ensures Payloads(log + [b], u)
            == Payloads(log, u) + (if u in b.d.used && |b.d.bodies| == |b.d.used| then [PayloadOf(b, u)] else [])
  {
    assert (log + [b])[..|log|] == log;
  }

  lemma PktsAppend(a: seq<Departure>, b: seq<Departure>)
    ensures Pkts(a + b) == Pkts(a) + Pkts(b)
  {
  }

  lemma {:induction false} SmoothCarries(s: Sched, es: seq<Event>, u: nat)
    requires IsUdp(s, u) && s.lanes[u].up.q == [] && Smooth(s, es, u)
    ensures Pkts(GoneAll(s, es, u)) == Payloads(Log(s, es), u)
  {
    hide EmitAt;
    hide SmoothStep;
    hide Left;
    hide Payloads;
    hide Step;
    if es == [] {
      assert Payloads([], u) == [] by { NoPayloads(u); }
    } else {
      var before, e := es[..|es| - 1], es[|es| - 1];
      SmoothCarries(s, before, u);
      Ledger(s, before, u);
      var m := Exec(s, before);
      LeftCarried(m, e, u);
      PktsAppend(GoneAll(s, before, u), Left(m, e, u));
      if e.Tried? && EmitAt(m, e).draft.Some? {
        PayloadsSnoc(Log(s, before), Built(m, EmitAt(m, e).draft.value, e.now), u);
      } else {
        assert Log(s, before) + [] == Log(s, before);
      }
      hide PayloadOf;
      hide Pkts;
    }
  }

  lemma NoPayloads(u: nat)
    ensures Payloads([], u) == []
  {
  }

  /** UDP from end to end: if no frame is refused, lost, repeated or reordered and no packet is
      dropped as the oldest, every packet offered has reached the peer's stream, in order and
      once, or is still queued. */
  lemma UdpDelivers(s: Sched, es: seq<Event>, to: seq<Rx.Lane>, u: nat, j: nat)
    requires |s.prefix| == 4 && Linked(s.lanes, u, to, j) && !to[j].seqs.have && to[j].seqs.lost == 0
    requires IsUdp(s, u) && s.lanes[u].up.q == [] && Smooth(s, es, u)
    ensures var log := Log(s, es);
            && SoundLog(log, s.lanes) && Arrivals(log, Upto(|log|)) && IsUdp(Exec(s, es), u)
            && var r := Rx.Receive(to, AirFrames(log, s.lanes, Upto(|log|)))[j];
               r.given + Exec(s, es).lanes[u].up.q == to[j].given + CameAll(es, u)
  {
    hide Linked;
    hide Log;
    hide Sound;
    hide Rx.Receive;
    hide AirFrames;
    hide Payloads;
    hide Smooth;
    hide Exec;
    hide Pkts;
    InOrderDelivers(s, es, to, u, j);
    SmoothCarries(s, es, u);
    Ledger(s, es, u);
  }
}
