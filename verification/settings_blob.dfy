/** The settings blob: one printer (version 7) and a parser for versions 3 to 7. */
module SettingsBlob {
  import opened Bytes

  const VERSION: byte := 7
  const VERSION_MIN: byte := 3
  const BLOB_MIN: nat := 11
  const BLOB_MAX: nat := 2600
  const MODULATION_MAX: nat := 16
  const AIRPORT_MAX: nat := 128
  const HEAD_LEN: nat := 30
  const BROADCAST: int := 0xFFFF_FFFF

  type u32 = x: int | 0 <= x < 0x1_0000_0000
  type i8 = x: int | -128 <= x < 128

  datatype Snapshot = Snapshot(
    mode: byte, channel: byte, modulation: seq<byte>, cca: bool, allowCrc: bool, txPower: i8,
    fallbackIp: u32, networkMode: byte, domain: u16,
    hasSut: bool, sutPort: u16, hasSur: bool, surHost: u32, surPort: u16)

  // ---- Little-endian words ---------------------------------------------

  function Le16(v: u16): seq<byte> { [v % 256, v / 256] }

  function Le32(v: u32): seq<byte> { [v % 256, v / 256 % 256, v / 65536 % 256, v / 16777216] }

  function Get16(b: seq<byte>, off: nat): u16
    requires off + 2 <= |b|
  {
    var hi: int := b[off + 1];
    hi * 256 + b[off]
  }

  function Get32(b: seq<byte>, off: nat): u32
    requires off + 4 <= |b|
  {
    var b1: int, b2: int, b3: int := b[off + 1], b[off + 2], b[off + 3];
    b3 * 16777216 + b2 * 65536 + b1 * 256 + b[off]
  }

  lemma Le16At(v: u16, a: seq<byte>, rest: seq<byte>)
    ensures Get16(a + Le16(v) + rest, |a|) == v
  {
    var b := a + Le16(v) + rest;
    assert b[|a|] == v % 256 && b[|a| + 1] == v / 256;
  }

  lemma Le32Sum(v: u32)
    ensures v % 256 + 256 * (v / 256 % 256) + 65536 * (v / 65536 % 256) + 16777216 * (v / 16777216) == v
  {
    assert v / 256 / 256 == v / 65536 && v / 65536 / 256 == v / 16777216;
  }

  lemma Le32At(v: u32, a: seq<byte>, rest: seq<byte>)
    ensures Get32(a + Le32(v) + rest, |a|) == v
  {
    Le32Sum(v);
    var b := a + Le32(v) + rest;
    assert b[|a|] == v % 256 && b[|a| + 1] == v / 256 % 256 && b[|a| + 2] == v / 65536 % 256
        && b[|a| + 3] == v / 16777216;
  }

  /** int8_t and its byte. */
  function ToByte(v: i8): byte { if v < 0 then v + 256 else v }

  function ToI8(b: byte): i8 { if b < 128 then b else b - 256 }

  function Flag(b: bool): byte { if b then 1 else 0 }

  // ---- Printer ---------------------------------------------------------

  predicate Packable(s: Snapshot) {
    (s.hasSut ==> s.sutPort != 0) && (s.hasSur ==> SurOk(s.surHost, s.surPort))
  }

  predicate SurOk(host: u32, port: u16) { port != 0 && host != 0 && host != BROADCAST }

  function Head(s: Snapshot): (h: seq<byte>)
    requires |s.modulation| == MODULATION_MAX
    ensures |h| == HEAD_LEN
  {
    [VERSION, s.mode, s.channel, Flag(s.cca), Flag(s.allowCrc), ToByte(s.txPower)] + s.modulation
    + Le32(s.fallbackIp) + [s.networkMode, 0] + Le16(s.domain)
  }

  function SutBytes(s: Snapshot): seq<byte> { if s.hasSut then [1] + Le16(s.sutPort) else [0] }

  function SurBytes(s: Snapshot): seq<byte> { if s.hasSur then [1] + Le32(s.surHost) + Le16(s.surPort) else [0] }

  function Pack(s: Snapshot): Option<seq<byte>>
    requires |s.modulation| == MODULATION_MAX
  {
    if !Packable(s) then None else Some(Head(s) + SutBytes(s) + SurBytes(s))
  }

  // ---- Parser ----------------------------------------------------------

  /** The part that all versions share, with no endpoints yet. */
  function ReadHead(b: seq<byte>): Option<Snapshot> {
    if |b| < BLOB_MIN || b[0] < VERSION_MIN || b[0] > VERSION || |b| < HEAD_LEN then None
    else if b[1] > 2 || b[26] > 1 then None
    else
      Some(Snapshot(b[1], b[2], b[6..21] + [0], b[3] != 0, b[4] != 0, ToI8(b[5]),
                    Get32(b, 22), b[26], Get16(b, 28), false, 0, false, 0, 0))
  }

  /** Skip a counted table of `width`-byte rows; the offset behind it. */
  function SkipTable(b: seq<byte>, off: nat, width: nat): Option<nat> {
    if off >= |b| || b[off] > AIRPORT_MAX || off + 1 + b[off] * width > |b| then None
    else Some(off + 1 + b[off] * width)
  }

  function ReadSut(b: seq<byte>, off: nat, s: Snapshot): Option<(Snapshot, nat)> {
    if off >= |b| then None
    else if b[off] == 0 then Some((s.(hasSut := false), off + 1))
    else if off + 3 > |b| || Get16(b, off + 1) == 0 then None
    else Some((s.(hasSut := true, sutPort := Get16(b, off + 1)), off + 3))
  }

  function ReadSur(b: seq<byte>, off: nat, s: Snapshot): Option<(Snapshot, nat)> {
    if off >= |b| then None
    else if b[off] == 0 then Some((s.(hasSur := false), off + 1))
    else if off + 7 > |b| || !SurOk(Get32(b, off + 1), Get16(b, off + 5)) then None
    else Some((s.(hasSur := true, surHost := Get32(b, off + 1), surPort := Get16(b, off + 5)), off + 7))
  }

  /** Multi-bind tables of versions 3 and 5: read over and dropped. */
  function ReadLegacy(b: seq<byte>, s: Snapshot): Option<Snapshot> {
    var sut := SkipTable(b, HEAD_LEN, 3);
    if sut.None? then None
    else
      var sur := SkipTable(b, sut.value, 7);
      if sur.None? then None
      else
        var ci := SkipTable(b, sur.value, 6);
        if ci == Some(|b|) then Some(s) else None
  }

  function ReadEndpoints(b: seq<byte>, s: Snapshot): Option<Snapshot>
    requires |b| > 0
  {
    var sut := ReadSut(b, HEAD_LEN, s);
    if sut.None? then None
    else
      var sur := ReadSur(b, sut.value.1, sut.value.0);
      if sur.None? then None
      else
        var end := if b[0] == 6 then SkipTable(b, sur.value.1, 6) else Some(sur.value.1);
        if end == Some(|b|) then Some(sur.value.0) else None
  }

  function Unpack(b: seq<byte>): Option<Snapshot> {
    var h := ReadHead(b);
    if h.None? then None
    else if b[0] == 4 then (if |b| == HEAD_LEN then h else None)
    else if b[0] == 3 || b[0] == 5 then ReadLegacy(b, h.value)
    else ReadEndpoints(b, h.value)
  }

  // ---- Round trip ------------------------------------------------------

  /** A snapshot in the form the parser gives: known modes, a terminated modulation string, and
      zeros where an endpoint is absent. */
  predicate Canonical(s: Snapshot) {
    && s.mode <= 2 && s.networkMode <= 1
    && |s.modulation| == MODULATION_MAX && s.modulation[MODULATION_MAX - 1] == 0
    && (!s.hasSut ==> s.sutPort == 0) && (!s.hasSur ==> s.surHost == 0 && s.surPort == 0)
  }

  /** What any blob of any version parses to is canonical and can be printed. */
  lemma UnpackCanonical(b: seq<byte>)
    requires Unpack(b).Some?
    ensures Canonical(Unpack(b).value) && Packable(Unpack(b).value)
  {
    HeadCanonical(b);
    hide ReadHead;
    hide SkipTable;
    hide Get16;
    hide Get32;
  }

  lemma HeadCanonical(b: seq<byte>)
    ensures var h := ReadHead(b);
            h.Some? ==> |b| >= HEAD_LEN && Canonical(h.value) && !h.value.hasSut && !h.value.hasSur
  {
  }

  /** The shared part as any version writes it; the second byte behind the network mode is unused. */
  function AnyHead(version: byte, s: Snapshot, unused: byte): (h: seq<byte>)
    requires |s.modulation| == MODULATION_MAX
    ensures |h| == HEAD_LEN
  {
    [version, s.mode, s.channel, Flag(s.cca), Flag(s.allowCrc), ToByte(s.txPower)] + s.modulation
    + Digits(s.fallbackIp, 4) + [s.networkMode, unused] + Digits(s.domain, 2)
  }

  /** The low base-256 digits of a number, lowest first. */
  function Digits(v: nat, n: nat): (d: seq<byte>)
    ensures |d| == n
  {
    if n == 0 then [] else [v % 256] + Digits(v / 256, n - 1)
  }

  lemma DigitsStep(v: nat, n: nat)
    requires n > 0
    ensures Digits(v, n) == [v % 256] + Digits(v / 256, n - 1)
  {
  }

  lemma WordDigits(v: u32, w: u16)
    ensures Digits(v, 4) == Le32(v) && Digits(w, 2) == Le16(w)
  {
    assert v / 256 / 256 == v / 65536 && v / 65536 / 256 == v / 16777216;
    assert v / 16777216 % 256 == v / 16777216 && w / 256 % 256 == w / 256;
    DigitsStep(v, 4);
    DigitsStep(v / 256, 3);
    DigitsStep(v / 65536, 2);
    DigitsStep(v / 16777216, 1);
    DigitsStep(w, 2);
    DigitsStep(w / 256, 1);
    hide Digits;
    assert Digits(0, 0) == [];
  }

  lemma HeadRead(version: byte, s: Snapshot, unused: byte, rest: seq<byte>)
    requires |s.modulation| == MODULATION_MAX && VERSION_MIN <= version <= VERSION
    ensures var b := AnyHead(version, s, unused) + rest;
            && b[0] == version
            && ReadHead(b) == if s.mode > 2 || s.networkMode > 1 then None
                              else Some(s.(modulation := s.modulation[..15] + [0], hasSut := false, sutPort := 0,
                                           hasSur := false, surHost := 0, surPort := 0))
  {
    WordDigits(s.fallbackIp, s.domain);
    var b := AnyHead(version, s, unused) + rest;
    var first := [version, s.mode, s.channel, Flag(s.cca), Flag(s.allowCrc), ToByte(s.txPower)] + s.modulation;
    var mid: seq<byte> := [s.networkMode, unused];
    assert b == first + Le32(s.fallbackIp) + (mid + Le16(s.domain) + rest);
    Le32At(s.fallbackIp, first, mid + Le16(s.domain) + rest);
    var upto := first + Le32(s.fallbackIp) + mid;
    assert b == upto + Le16(s.domain) + rest;
    Le16At(s.domain, upto, rest);
    assert b[6..21] == s.modulation[..15];
    assert b[26] == s.networkMode;
    hide Get16;
    hide Get32;
    hide Le16;
    hide Le32;
  }

  lemma HeadRoundTrip(s: Snapshot, rest: seq<byte>)
    requires |s.modulation| == MODULATION_MAX
    ensures var b := Head(s) + rest;
            ReadHead(b) == if s.mode > 2 || s.networkMode > 1 then None
                           else Some(s.(modulation := s.modulation[..15] + [0], hasSut := false, sutPort := 0,
                                        hasSur := false, surHost := 0, surPort := 0))
  {
    WordDigits(s.fallbackIp, s.domain);
    assert Head(s) == AnyHead(VERSION, s, 0);
    HeadRead(VERSION, s, 0, rest);
    hide ReadHead;
    hide Head;
  }

  /** The snapshot with nothing in the fields that an absent endpoint leaves unused. */
  function Normal(s: Snapshot): Snapshot
    requires |s.modulation| == MODULATION_MAX
  {
    s.(modulation := s.modulation[..15] + [0], sutPort := if s.hasSut then s.sutPort else 0,
       surHost := if s.hasSur then s.surHost else 0, surPort := if s.hasSur then s.surPort else 0)
  }

  lemma SutRoundTrip(s: Snapshot, t: Snapshot, a: seq<byte>, rest: seq<byte>)
    requires !t.hasSut
    ensures ReadSut(a + SutBytes(s) + rest, |a|, t)
            == if s.hasSut && s.sutPort == 0 then None
               else Some((if s.hasSut then t.(hasSut := true, sutPort := s.sutPort) else t, |a| + |SutBytes(s)|))
  {
    var b := a + SutBytes(s) + rest;
    if s.hasSut {
      var one: seq<byte> := [1];
      assert b == (a + one) + Le16(s.sutPort) + rest;
      Le16At(s.sutPort, a + one, rest);
    }
  }

  lemma SurRoundTrip(s: Snapshot, t: Snapshot, a: seq<byte>, rest: seq<byte>)
    requires !t.hasSur
    ensures ReadSur(a + SurBytes(s) + rest, |a|, t)
            == if s.hasSur && !SurOk(s.surHost, s.surPort) then None
               else Some((if s.hasSur then t.(hasSur := true, surHost := s.surHost, surPort := s.surPort) else t,
                          |a| + |SurBytes(s)|))
  {
    var b := a + SurBytes(s) + rest;
    if s.hasSur {
      var one: seq<byte> := [1];
      assert b == (a + one) + Le32(s.surHost) + (Le16(s.surPort) + rest);
      Le32At(s.surHost, a + one, Le16(s.surPort) + rest);
      assert b == (a + one + Le32(s.surHost)) + Le16(s.surPort) + rest;
      Le16At(s.surPort, a + one + Le32(s.surHost), rest);
    }
  }

  /** Printing and parsing gives the snapshot back up to the unused fields. */
  lemma PackedReads(s: Snapshot)
    requires |s.modulation| == MODULATION_MAX && Packable(s)
    ensures Unpack(Pack(s).value) == if s.mode <= 2 && s.networkMode <= 1 then Some(Normal(s)) else None
    ensures |Pack(s).value| <= 40 <= BLOB_MAX
  {
    var h := Head(s);
    var b := Pack(s).value;
    assert b == h + (SutBytes(s) + SurBytes(s)) && b[0] == VERSION;
    HeadRoundTrip(s, SutBytes(s) + SurBytes(s));
    var t := ReadHead(b);
    if t.Some? {
      SutRoundTrip(s, t.value, h, SurBytes(s));
      var u := if s.hasSut then t.value.(hasSut := true, sutPort := s.sutPort) else t.value;
      SurRoundTrip(s, u, h + SutBytes(s), []);
      assert h + SutBytes(s) + SurBytes(s) + [] == b;
      hide ReadSut;
      hide ReadSur;
    }
    hide ReadHead;
  }

  /** For snapshots that can be printed, parsing what was printed is the identity exactly on the
      canonical ones. */
  lemma RoundTripExact(s: Snapshot)
    requires |s.modulation| == MODULATION_MAX && Packable(s)
    ensures Unpack(Pack(s).value) == Some(s) <==> Canonical(s)
  {
    PackedReads(s);
    if Canonical(s) { assert s.modulation == s.modulation[..15] + [0]; }
    if Unpack(Pack(s).value) == Some(s) { UnpackCanonical(Pack(s).value); }
    hide Unpack;
    hide Pack;
  }

  /** Migration is stable: whatever a blob of version 3 to 7 parses to prints to a version 7 blob
      that parses to the same snapshot. */
  lemma MigrationStable(b: seq<byte>)
    requires Unpack(b).Some?
    ensures var s := Unpack(b).value;
            |s.modulation| == MODULATION_MAX && Pack(s).Some? && Unpack(Pack(s).value) == Some(s)
            && Pack(s).value[0] == VERSION && |Pack(s).value| <= BLOB_MAX
  {
    UnpackCanonical(b);
    RoundTripExact(Unpack(b).value);
    PackedReads(Unpack(b).value);
    hide Unpack;
  }

  // ---- What earlier firmware wrote ---------------------------------------

  /** The tables of bindings that earlier versions carried: bus and port, bus, host and port, and
      host and port. */
  datatype Tables = Tables(tx: seq<seq<byte>>, rx: seq<seq<byte>>, peers: seq<seq<byte>>)

  predicate RowsOk(rows: seq<seq<byte>>, width: nat) {
    |rows| <= 128 && forall i :: 0 <= i < |rows| ==> |rows[i]| == width
  }

  predicate TablesOk(t: Tables) { RowsOk(t.tx, 3) && RowsOk(t.rx, 7) && RowsOk(t.peers, 6) }

  function TableBytes(rows: seq<seq<byte>>): seq<byte>
    requires |rows| <= 128
  {
    [|rows|] + Concat(rows)
  }

  /** One byte says whether there is an endpoint; its fields follow if there is. */
  function EndpointBytes(s: Snapshot): seq<byte> {
    (if s.hasSut then [1] + Digits(s.sutPort, 2) else [0])
    + (if s.hasSur then [1] + Digits(s.surHost, 4) + Digits(s.surPort, 2) else [0])
  }

  /** A blob of version 3 to 6. */
  function OldBlob(version: byte, s: Snapshot, unused: byte, t: Tables): seq<byte>
    requires |s.modulation| == MODULATION_MAX && TablesOk(t)
  {
    AnyHead(version, s, unused)
    + if version == 4 then []
      else if version == 6 then EndpointBytes(s) + TableBytes(t.peers)
      else TableBytes(t.tx) + TableBytes(t.rx) + TableBytes(t.peers)
  }

  lemma {:induction false} RowsSize(rows: seq<seq<byte>>, width: nat)
    requires RowsOk(rows, width)
    ensures |Concat(rows)| == |rows| * width
  {
    if rows != [] {
      RowsSize(rows[1..], width);
      assert |rows| * width == width + (|rows| - 1) * width;
    }
  }

  lemma TableRead(a: seq<byte>, rows: seq<seq<byte>>, width: nat, rest: seq<byte>)
    requires RowsOk(rows, width)
    ensures SkipTable(a + TableBytes(rows) + rest, |a|, width) == Some(|a| + |TableBytes(rows)|)
  {
    RowsSize(rows, width);
    var b := a + TableBytes(rows) + rest;
    assert b[|a|] == |rows|;
    hide Concat;
  }

  /** The three tables behind a head, with nothing behind them. */
  lemma TablesRead(h: seq<byte>, t: Tables, s: Snapshot)
    requires |h| == HEAD_LEN && TablesOk(t)
    ensures ReadLegacy(h + (TableBytes(t.tx) + TableBytes(t.rx) + TableBytes(t.peers)), s) == Some(s)
  {
    hide SkipTable;
    hide TableBytes;
    var x, y, z := TableBytes(t.tx), TableBytes(t.rx), TableBytes(t.peers);
    var b := h + (x + y + z);
    assert b == h + x + (y + z) && b == (h + x) + y + z && b == (h + x + y) + z + [];
    TableRead(h, t.tx, 3, y + z);
    TableRead(h + x, t.rx, 7, z);
    TableRead(h + x + y, t.peers, 6, []);
  }

  lemma EndpointParts(s: Snapshot)
    ensures EndpointBytes(s) == SutBytes(s) + SurBytes(s)
  {
    WordDigits(s.surHost, s.surPort);
    WordDigits(0, s.sutPort);
    hide Digits;
    hide Le16;
    hide Le32;
  }

  /** Both endpoints and the last table behind a head. */
  lemma EndpointsRead(h: seq<byte>, s: Snapshot, t: Snapshot, peers: seq<seq<byte>>)
    requires |h| == HEAD_LEN && h[0] == 6 && !t.hasSut && !t.hasSur && RowsOk(peers, 6)
    ensures ReadEndpoints(h + (EndpointBytes(s) + TableBytes(peers)), t)
            == if !Packable(s) then None
               else Some(t.(hasSut := s.hasSut, sutPort := if s.hasSut then s.sutPort else t.sutPort,
                            hasSur := s.hasSur, surHost := if s.hasSur then s.surHost else t.surHost,
                            surPort := if s.hasSur then s.surPort else t.surPort))
  {
    hide SkipTable;
    hide TableBytes;
    hide ReadSut;
    hide ReadSur;
    hide SutBytes;
    hide SurBytes;
    hide EndpointBytes;
    EndpointParts(s);
    var x, y, z := SutBytes(s), SurBytes(s), TableBytes(peers);
    var b := h + (EndpointBytes(s) + z);
    assert b == h + x + (y + z) && b == (h + x) + y + z && b == (h + x + y) + z + [];
    SutRoundTrip(s, t, h, y + z);
    if !s.hasSut || s.sutPort != 0 {
      var u := if s.hasSut then t.(hasSut := true, sutPort := s.sutPort) else t;
      SurRoundTrip(s, u, h + x, z);
      TableRead(h + x + y, peers, 6, []);
    }
  }

  /** Migration takes over what was set: a blob that earlier firmware wrote from these fields and
      tables parses to exactly these fields, with the endpoints of version 6 and without any for
      versions 3 to 5; it is refused only if a mode is unknown or an endpoint has no address. */
  lemma OldReads(version: byte, s: Snapshot, unused: byte, t: Tables)
    requires 3 <= version <= 6 && |s.modulation| == MODULATION_MAX && TablesOk(t)
    ensures Unpack(OldBlob(version, s, unused, t))
            == if s.mode > 2 || s.networkMode > 1 || (version == 6 && !Packable(s)) then None
               else if version == 6 then Some(Normal(s))
               else Some(Normal(s.(hasSut := false, hasSur := false)))
  {
    hide ReadHead;
    hide ReadLegacy;
    hide ReadEndpoints;
    hide TableBytes;
    hide EndpointBytes;
    var h := AnyHead(version, s, unused);
    var rest := if version == 4 then []
                else if version == 6 then EndpointBytes(s) + TableBytes(t.peers)
                else TableBytes(t.tx) + TableBytes(t.rx) + TableBytes(t.peers);
    var b := h + rest;
    HeadRead(version, s, unused, rest);
    assert b == OldBlob(version, s, unused, t) && h[0] == version;
    hide AnyHead;
    if ReadHead(b).Some? {
      var r := ReadHead(b).value;
      if version == 6 {
        EndpointsRead(h, s, r, t.peers);
      } else if version != 4 {
        TablesRead(h, t, r);
      }
    }
  }

  // ---- Nothing missing, nothing left over ---------------------------------

  lemma HeadPrefix(b: seq<byte>, c: seq<byte>)
    requires b <= c && ReadHead(b).Some?
    ensures ReadHead(c) == ReadHead(b) && |b| >= HEAD_LEN && b[0] == c[0]
  {
    assert c[6..21] == b[6..21];
    assert forall i :: 0 <= i < |b| ==> c[i] == b[i];
  }

  lemma TablePrefix(b: seq<byte>, c: seq<byte>, off: nat, width: nat)
    requires b <= c && SkipTable(b, off, width).Some?
    ensures SkipTable(c, off, width) == SkipTable(b, off, width)
  {
  }

  lemma EndpointsPrefix(b: seq<byte>, c: seq<byte>, s: Snapshot)
    requires b <= c && |b| > 0 && ReadEndpoints(b, s).Some? && ReadEndpoints(c, s).Some?
    ensures b == c
  {
    hide SkipTable;
    var x := ReadSut(b, HEAD_LEN, s).value;
    assert ReadSut(c, HEAD_LEN, s) == ReadSut(b, HEAD_LEN, s);
    hide ReadSut;
    assert ReadSur(c, x.1, x.0) == ReadSur(b, x.1, x.0);
    var y := ReadSur(b, x.1, x.0).value;
    hide ReadSur;
    if b[0] == 6 { TablePrefix(b, c, y.1, 6); }
    assert |b| == |c|;
  }

  lemma LegacyPrefix(b: seq<byte>, c: seq<byte>, s: Snapshot)
    requires b <= c && ReadLegacy(b, s).Some? && ReadLegacy(c, s).Some?
    ensures b == c
  {
    hide SkipTable;
    var x := SkipTable(b, HEAD_LEN, 3).value;
    TablePrefix(b, c, HEAD_LEN, 3);
    var y := SkipTable(b, x, 7).value;
    TablePrefix(b, c, x, 7);
    TablePrefix(b, c, y, 6);
    assert |b| == |c|;
  }

  /** A blob of any version with bytes missing at its end, or left over, is refused. */
  lemma NoPrefixReads(b: seq<byte>, c: seq<byte>)
    requires b < c
    ensures Unpack(b).None? || Unpack(c).None?
  {
    hide ReadHead;
    hide ReadLegacy;
    hide ReadEndpoints;
    if Unpack(b).Some? && Unpack(c).Some? {
      HeadPrefix(b, c);
      var s := ReadHead(b).value;
      if b[0] == 3 || b[0] == 5 {
        LegacyPrefix(b, c, s);
      } else if b[0] != 4 {
        EndpointsPrefix(b, c, s);
      }
    }
  }

  // ---- The printer as it runs ------------------------------------------

  /** Writes bytes at the moving cursor. */
  method Put(buf: array<byte>, p: nat, bytes: seq<byte>) returns (p': nat)
    requires p + |bytes| <= buf.Length
    modifies buf
    ensures p' == p + |bytes| && buf[..p'] == old(buf[..p]) + bytes
  {
    CopyIn(buf, p, bytes);
    p' := p + |bytes|;
  }

  method PutRadio(buf: array<byte>, s: Snapshot) returns (p: nat)
    requires |s.modulation| == MODULATION_MAX && buf.Length >= HEAD_LEN
    modifies buf
    ensures p == 22
    ensures buf[..p] == [VERSION, s.mode, s.channel, Flag(s.cca), Flag(s.allowCrc), ToByte(s.txPower)] + s.modulation
  {
    hide Flag;
    hide ToByte;
    p := Put(buf, 0, [VERSION]);
    p := Put(buf, p, [s.mode]);
    p := Put(buf, p, [s.channel]);
    p := Put(buf, p, [Flag(s.cca)]);
    p := Put(buf, p, [Flag(s.allowCrc)]);
    p := Put(buf, p, [ToByte(s.txPower)]);
    assert buf[..p] == [VERSION, s.mode, s.channel, Flag(s.cca), Flag(s.allowCrc), ToByte(s.txPower)];
    p := Put(buf, p, s.modulation);
  }

  method PutHead(buf: array<byte>, s: Snapshot) returns (p: nat)
    requires |s.modulation| == MODULATION_MAX && buf.Length >= HEAD_LEN
    modifies buf
    ensures p == HEAD_LEN && buf[..p] == Head(s)
  {
    hide Le16;
    hide Le32;
    hide Flag;
    hide ToByte;
    Widths(s);
    p := PutRadio(buf, s);
    p := Put(buf, p, Le32(s.fallbackIp));
    p := Put(buf, p, [s.networkMode]);
    p := Put(buf, p, [0]);
    p := Put(buf, p, Le16(s.domain));
  }

  lemma Widths(s: Snapshot)
    ensures |Le32(s.fallbackIp)| == 4 && |Le16(s.domain)| == 2 && |Le16(s.sutPort)| == 2
    ensures |Le32(s.surHost)| == 4 && |Le16(s.surPort)| == 2
  {
  }

  /** pack_blob. */
  method PackBlob(s: Snapshot, buf: array<byte>) returns (ok: bool, len: nat)
    requires |s.modulation| == MODULATION_MAX && buf.Length == BLOB_MAX
    modifies buf
    ensures ok <==> Pack(s).Some?
    ensures ok ==> len <= buf.Length && Pack(s) == Some(buf[..len])
  {
    ok, len := false, 0;
    if s.hasSut && s.sutPort == 0 { return; }
    if s.hasSur && (s.surPort == 0 || s.surHost == 0 || s.surHost == BROADCAST) { return; }
    Widths(s);
    hide Le16;
    hide Le32;
    hide Head;
    var p := PutHead(buf, s);
    p := Put(buf, p, [Flag(s.hasSut)]);
    if s.hasSut { p := Put(buf, p, Le16(s.sutPort)); }
    assert buf[..p] == Head(s) + SutBytes(s);
    p := Put(buf, p, [Flag(s.hasSur)]);
    if s.hasSur {
      p := Put(buf, p, Le32(s.surHost));
      p := Put(buf, p, Le16(s.surPort));
    }
    assert buf[..p] == Head(s) + SutBytes(s) + SurBytes(s);
    len := p;
    ok := len <= BLOB_MAX;
  }

  // ---- The parser as it runs -------------------------------------------

  predicate Need(b: seq<byte>, p: nat, n: nat) { p <= |b| && |b| - p >= n }

  /** The shared part, read byte by byte from the front. */
  method ParseHead(b: seq<byte>) returns (r: Option<Snapshot>, p: nat)
    ensures r == ReadHead(b) && (r.Some? ==> p == HEAD_LEN && |b| >= HEAD_LEN)
  {
    hide Get16;
    hide Get32;
    r, p := None, 0;
    if |b| < BLOB_MIN { return; }
    var version := b[0];
    p := 1;
    if version < VERSION_MIN || version > VERSION { return; }
    var mode, channel, cca, allowCrc, txPower := b[p], b[p + 1], b[p + 2], b[p + 3], b[p + 4];
    p := p + 5;
    if mode != 0 && mode != 1 && mode != 2 { return; }
    if !Need(b, p, MODULATION_MAX) { return; }
    var modulation := b[p..p + MODULATION_MAX][MODULATION_MAX - 1 := 0];
    assert modulation == b[6..21] + [0];
    p := p + MODULATION_MAX;
    if !Need(b, p, 4) { return; }
    var ip := Get32(b, p);
    p := p + 4;
    if !Need(b, p, 1) || !Need(b, p + 1, 1) { return; }
    var networkMode := b[p];
    p := p + 2;
    if networkMode != 0 && networkMode != 1 { return; }
    if !Need(b, p, 2) { return; }
    var domain := Get16(b, p);
    p := p + 2;
    r := Some(Snapshot(mode, channel, modulation, cca != 0, allowCrc != 0, ToI8(txPower), ip, networkMode, domain,
                       false, 0, false, 0, 0));
  }

  /** A counted table, row by row. */
  method ParseTable(b: seq<byte>, off: nat, width: nat) returns (ok: bool, p: nat)
    ensures SkipTable(b, off, width) == if ok then Some(p) else None
  {
    ok, p := false, off;
    if !Need(b, p, 1) || b[p] > AIRPORT_MAX { return; }
    var count := b[p];
    p := p + 1;
    for i := 0 to count
      invariant p == off + 1 + i * width && p <= |b|
    {
      Rows(i, count, width);
      if !Need(b, p, width) { return; }
      p := p + width;
    }
    ok := true;
  }

  lemma Rows(i: int, count: int, width: nat)
    requires i < count
    ensures (i + 1) * width == i * width + width && (i + 1) * width <= count * width
  {
    var left := count - (i + 1);
    assert count * width == (i + 1) * width + left * width;
  }

  method ParseLegacy(b: seq<byte>, s: Snapshot) returns (r: Option<Snapshot>)
    ensures r == ReadLegacy(b, s)
  {
    hide SkipTable;
    var ok, p := ParseTable(b, HEAD_LEN, 3);
    if !ok { return None; }
    ok, p := ParseTable(b, p, 7);
    if !ok { return None; }
    ok, p := ParseTable(b, p, 6);
    if !ok || p != |b| { return None; }
    r := Some(s);
  }

  method ParseEndpoints(b: seq<byte>, s: Snapshot) returns (r: Option<Snapshot>)
    requires |b| > 0
    ensures r == ReadEndpoints(b, s)
  {
    hide SkipTable;
    hide Get16;
    hide Get32;
    var p := HEAD_LEN;
    var t := s;
    if !Need(b, p, 1) { return None; }
    t := t.(hasSut := b[p] != 0);
    p := p + 1;
    if t.hasSut {
      if !Need(b, p, 2) || Get16(b, p) == 0 { return None; }
      t := t.(sutPort := Get16(b, p));
      p := p + 2;
    }
    assert ReadSut(b, HEAD_LEN, s) == Some((t, p));
    hide ReadSut;
    ghost var u, q := t, p;
    if !Need(b, p, 1) { return None; }
    t := t.(hasSur := b[p] != 0);
    p := p + 1;
    if t.hasSur {
      if !Need(b, p, 4) || !Need(b, p + 4, 2) { return None; }
      t := t.(surHost := Get32(b, p), surPort := Get16(b, p + 4));
      p := p + 6;
      if t.surPort == 0 || t.surHost == 0 || t.surHost == BROADCAST { return None; }
    }
    assert ReadSur(b, q, u) == Some((t, p));
    hide ReadSur;
    if b[0] == 6 {
      var ok;
      ok, p := ParseTable(b, p, 6);
      if !ok { return None; }
    }
    if p != |b| { return None; }
    r := Some(t);
  }

  /** unpack_blob. */
  method UnpackBlob(b: seq<byte>) returns (r: Option<Snapshot>)
    ensures r == Unpack(b)
  {
    hide ReadHead;
    hide ReadLegacy;
    hide ReadEndpoints;
    var h, p := ParseHead(b);
    if h.None? { return None; }
    var version := b[0];
    if version == 4 { return if p == |b| then h else None; }
    if version == 3 || version == 5 {
      r := ParseLegacy(b, h.value);
      return;
    }
    r := ParseEndpoints(b, h.value);
  }
}
