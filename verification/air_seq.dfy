/** The 16-bit sequence number in front of every PDU: stamping, replay check and loss count. */
module AirSeq {
  import opened Bytes

  const SEQ_LEN: nat := 2
  const HALF: int := 32768
  const WRAP: int := 65536

  datatype State = State(tx: u16, rx: u16, have: bool, lost: nat)

  function Fresh(): State { State(0, 0, false, 0) }

  function Wrapped(t: int): u16 { t % WRAP }

  /** The stamped PDU, or None when the buffer is too small. */
  function Stamp(s: State, max: nat, data: seq<byte>): Option<(State, seq<byte>)> {
    if |data| > max || max - |data| < SEQ_LEN then None
    else Some((s.(tx := (s.tx + 1) % 65536), Be16(s.tx) + data))
  }

  function NoteRx(s: State, n: u16): State {
    if !s.have then s.(rx := n, have := true)
    else if n == s.rx then s
    else
      var ahead := Wrapped(n - (s.rx + 1) % 65536);
      if ahead < HALF then s.(lost := s.lost + ahead, rx := n) else s
  }

  /** None means dropped: too short, or a repeat of the highest number seen. */
  function Accept(s: State, data: seq<byte>): (State, Option<seq<byte>>) {
    if |data| < SEQ_LEN then (s, None)
    else
      var n := U16At(data, 0);
      if s.have && n == s.rx then (s, None) else (NoteRx(s, n), Some(data[SEQ_LEN..]))
  }

  /** A stamped PDU carries its number and its bytes. */
  lemma StampRead(s: State, max: nat, data: seq<byte>)
    requires Stamp(s, max, data).Some?
    ensures var p := Stamp(s, max, data).value.1;
            |p| == |data| + SEQ_LEN && U16At(p, 0) == s.tx && p[SEQ_LEN..] == data
  {
  }

  class Counter {
    var tx: u16
    var rx: u16
    var have: bool
    var lost: nat

    ghost function View(): State
      reads this
    {
      State(tx, rx, have, lost)
    }

    constructor ()
      ensures View() == Fresh()
    {
      tx, rx, have, lost := 0, 0, false, 0;
    }

    method Write(max: nat, data: seq<byte>) returns (r: Option<seq<byte>>)
      modifies this
      ensures r == (match Stamp(old(View()), max, data) case None => None case Some(p) => Some(p.1))
      ensures View() == (match Stamp(old(View()), max, data) case None => old(View()) case Some(p) => p.0)
    {
      if |data| > max || max - |data| < SEQ_LEN { return None; }
      r := Some(Be16(tx) + data);
      tx := (tx + 1) % 65536;
    }

    method Note(n: u16)
      modifies this`rx, this`have, this`lost
      ensures View() == NoteRx(old(View()), n)
    {
      if !have {
        rx, have := n, true;
        return;
      }
      if n == rx { return; }
      var expected := (rx + 1) % 65536;
      var ahead := Wrapped(n - expected);
      if ahead < HALF {
        lost := lost + ahead;
        rx := n;
      }
    }

    method Read(data: seq<byte>) returns (r: Option<seq<byte>>)
      modifies this`rx, this`have, this`lost
      ensures (View(), r) == Accept(old(View()), data)
    {
      if |data| < SEQ_LEN { return None; }
      var n := U16At(data, 0);
      if have && n == rx { return None; }
      Note(n);
      r := Some(data[SEQ_LEN..]);
    }
  }

  // ---- True numbers ----------------------------------------------------

  /** The counter beside the unwrapped numbers: first and highest seen, and how often the
      highest moved. */
  datatype Track = Track(s: State, first: int, high: int, moves: nat)

  function Begin(s: State, t: int): Track { Track(NoteRx(s, Wrapped(t)), t, t, 0) }

  function Arrive(k: Track, t: int): Track {
    Track(NoteRx(k.s, Wrapped(t)), k.first, if t > k.high then t else k.high,
          if t > k.high then k.moves + 1 else k.moves)
  }

  /** The highest number is known and the loss count is the advance less the frames that made it. */
  ghost predicate Exact(k: Track) {
    k.s.have && k.s.rx == Wrapped(k.high) && k.s.lost == k.high - k.first - k.moves
  }

  predicate InWindow(high: int, t: int) { -HALF < t - high <= HALF }

  lemma WrapNext(h: int)
    ensures (Wrapped(h) + 1) % 65536 == Wrapped(h + 1)
  {
  }

  lemma WrapMinus(a: int, b: int)
    ensures Wrapped(Wrapped(a) - Wrapped(b)) == Wrapped(a - b)
  {
    var qa, qb := a / WRAP, b / WRAP;
    assert Wrapped(a) - Wrapped(b) == a - b - (qa - qb) * WRAP;
  }

  lemma WrapAhead(high: int, t: int)
    ensures (Wrapped(high) + 1) % 65536 == Wrapped(high + 1)
    ensures Wrapped(Wrapped(t) - Wrapped(high + 1)) == Wrapped(t - high - 1)
    ensures Wrapped(t) == Wrapped(high) <==> Wrapped(t - high) == 0
  {
    WrapNext(high);
    WrapMinus(t, high + 1);
    WrapMinus(t, high);
  }

  /** One arrival less than 2^16 away keeps the count exact if and only if it is at most 2^15
      ahead of the highest or less than 2^15 behind it. */
  lemma CountExact(k: Track, t: int)
    requires Exact(k) && -WRAP < t - k.high < WRAP
    ensures Exact(Arrive(k, t)) <==> InWindow(k.high, t)
    ensures InWindow(k.high, t) && t <= k.high ==> Arrive(k, t).s == k.s
  {
    WrapAhead(k.high, t);
  }

  function Run(k: Track, ts: seq<int>): Track {
    if ts == [] then k else Arrive(Run(k, ts[..|ts| - 1]), ts[|ts| - 1])
  }

  ghost predicate Windowed(k: Track, ts: seq<int>) {
    forall i :: 0 <= i < |ts| ==> InWindow(Run(k, ts[..i]).high, ts[i])
  }

  /** Over any run, across any number of wraps, the loss count is exact. */
  lemma {:induction false} LossExact(s: State, t0: int, ts: seq<int>)
    requires !s.have && s.lost == 0 && Windowed(Begin(s, t0), ts)
    ensures Exact(Run(Begin(s, t0), ts))
    ensures Run(Begin(s, t0), ts).first == t0
  {
    var k := Begin(s, t0);
    if ts != [] {
      var n := |ts| - 1;
      var before := ts[..n];
      forall i | 0 <= i < n ensures InWindow(Run(k, before[..i]).high, before[i]) {
        assert before[..i] == ts[..i];
      }
      LossExact(s, t0, before);
      CountExact(Run(k, before), ts[n]);
    }
  }

  /** The highest number is one that arrived, and none that arrived is higher. */
  lemma {:induction false} HighSeen(k: Track, ts: seq<int>)
    ensures Run(k, ts).high == k.high || Run(k, ts).high in ts
    ensures Run(k, ts).high >= k.high && forall i :: 0 <= i < |ts| ==> ts[i] <= Run(k, ts).high
  {
    if ts != [] { HighSeen(k, ts[..|ts| - 1]); }
  }

  /** An arrival is dropped exactly when it repeats the highest number. */
  lemma DroppedIff(k: Track, t: int, payload: seq<byte>)
    requires Exact(k) && -WRAP < t - k.high < WRAP
    ensures Accept(k.s, Be16(Wrapped(t)) + payload).1 == if t == k.high then None else Some(payload)
    ensures Accept(k.s, Be16(Wrapped(t)) + payload).0 == NoteRx(k.s, Wrapped(t))
  {
    WrapAhead(k.high, t);
    var d := Be16(Wrapped(t)) + payload;
    assert U16At(d, 0) == Wrapped(t) && d[SEQ_LEN..] == payload;
  }

  /** The counter after arrivals ts, the first of which finds it fresh. */
  function TrackOf(s: State, ts: seq<int>): Track
    requires ts != []
  {
    Run(Begin(s, ts[0]), ts[1..])
  }

  /** Every arrival but the first is less than half the number space away from the highest before it. */
  ghost predicate Paced(s: State, ts: seq<int>) { ts == [] || Windowed(Begin(s, ts[0]), ts[1..]) }

  /** `t` is the highest number that arrived. */
  predicate IsHighest(ts: seq<int>, t: int) { t in ts && forall i :: 0 <= i < |ts| ==> ts[i] <= t }

  lemma WindowedPrefix(k: Track, ts: seq<int>, t: int)
    requires Windowed(k, ts + [t])
    ensures Windowed(k, ts) && InWindow(Run(k, ts).high, t)
  {
    var all := ts + [t];
    assert all[..|ts|] == ts && all[|ts|] == t;
    assert InWindow(Run(k, all[..|ts|]).high, all[|ts|]);
    hide Run;
    forall i | 0 <= i < |ts| ensures InWindow(Run(k, ts[..i]).high, ts[i]) {
      assert all[..i] == ts[..i] && all[i] == ts[i];
    }
  }

  lemma PacedPrefix(s: State, ts: seq<int>, t: int)
    requires Paced(s, ts + [t])
    ensures Paced(s, ts)
    ensures ts != [] ==> InWindow(TrackOf(s, ts).high, t) && TrackOf(s, ts + [t]) == Arrive(TrackOf(s, ts), t)
    ensures ts == [] ==> TrackOf(s, ts + [t]) == Begin(s, t)
  {
    if ts == [] {
      assert ([t])[1..] == [];
    } else {
      assert (ts + [t])[1..] == ts[1..] + [t];
      WindowedPrefix(Begin(s, ts[0]), ts[1..], t);
      assert (ts[1..] + [t])[..|ts| - 1] == ts[1..];
    }
  }

  lemma PacedSnoc(s: State, ts: seq<int>, t: int)
    requires Paced(s, ts) && (ts != [] ==> InWindow(TrackOf(s, ts).high, t))
    ensures Paced(s, ts + [t])
  {
    if ts != [] {
      var k, before := Begin(s, ts[0]), ts[1..];
      var all := before + [t];
      assert (ts + [t])[1..] == all;
      forall i | 0 <= i < |all| ensures InWindow(Run(k, all[..i]).high, all[i]) {
        if i < |before| {
          assert all[..i] == before[..i] && all[i] == before[i];
        } else {
          assert all[..i] == before;
        }
      }
    }
  }

  /** What one more arrival makes of the counter and of its PDU: the first of all is handed on,
      and after that all but a repeat of the highest. */
  lemma AcceptNext(s: State, ts: seq<int>, t: int, payload: seq<byte>)
    requires !s.have && s.lost == 0 && Paced(s, ts + [t])
    ensures Exact(TrackOf(s, ts + [t]))
    ensures Accept(if ts == [] then s else TrackOf(s, ts).s, Be16(Wrapped(t)) + payload)
            == (TrackOf(s, ts + [t]).s, if IsHighest(ts, t) then None else Some(payload))
  {
    PacedPrefix(s, ts, t);
    if ts == [] {
      var d := Be16(Wrapped(t)) + payload;
      assert U16At(d, 0) == Wrapped(t) && d[SEQ_LEN..] == payload;
    } else {
      var k := TrackOf(s, ts);
      LossExact(s, ts[0], ts[1..]);
      HighSeen(Begin(s, ts[0]), ts[1..]);
      CountExact(k, t);
      DroppedIff(k, t, payload);
      assert k.high in ts && forall i :: 0 <= i < |ts| ==> ts[i] <= k.high by {
        assert ts == [ts[0]] + ts[1..];
      }
      hide Run;
      hide Accept;
      hide NoteRx;
      hide Exact;
    }
  }

  /** The first copy of every PDU is handed on, the very first included, whatever was lost,
      repeated or reordered before it. */
  lemma FirstCopyAccepted(s: State, ts: seq<int>, t: int, payload: seq<byte>)
    requires !s.have && s.lost == 0 && Paced(s, ts + [t]) && t !in ts
    ensures Accept(if ts == [] then s else TrackOf(s, ts).s, Be16(Wrapped(t)) + payload).1 == Some(payload)
  {
    AcceptNext(s, ts, t, payload);
  }

  /** Only a repeat of the highest number is suppressed: an older PDU that arrives twice is
      handed on twice. */
  lemma OlderRepeatAccepted(payload: seq<byte>)
    ensures var k := Run(Begin(Fresh(), 7), [8]);
            Windowed(Begin(Fresh(), 7), [8]) && InWindow(k.high, 7)
            && Accept(k.s, Be16(Wrapped(7)) + payload).1 == Some(payload)
            && Accept(Accept(k.s, Be16(Wrapped(7)) + payload).0, Be16(Wrapped(7)) + payload).1 == Some(payload)
  {
    var k0 := Begin(Fresh(), 7);
    var ts: seq<int> := [8];
    assert ts[..0] == [];
    assert Run(k0, ts[..0]) == k0;
    var k := Run(k0, ts);
    assert k == Arrive(k0, 8);
    CountExact(k0, 8);
    DroppedIff(k, 7, payload);
    CountExact(k, 7);
    DroppedIff(Arrive(k, 7), 7, payload);
  }
}
