/** One block: k packets become n shards, and any k shards give the packets back. */
module FecCode {
  import opened Bytes
  import opened Gf
  import opened FecMatrix

  const MAGIC: byte := 0xF1
  const VERSION: byte := 2
  const HEADER_LEN: nat := 8
  const LEN_PREFIX: nat := 2
  const FLAG_PARITY: byte := 1
  const MIN_SHARD: nat := 16
  const PAYLOAD_MAX: nat := 1474
  const MAX_ORIGINAL: nat := 1464  // PAYLOAD_MAX - HEADER_LEN - LEN_PREFIX

  /** ISA-L as the code uses it: the field, and the matrix inverter. */
  datatype Isal = Isal(F: Field, invert: Matrix -> Option<Matrix>)

  ghost predicate Sound(L: Isal) { Laws(L.F) && Inverts(L.F, L.invert) }

  // ---- Header ----------------------------------------------------------

  datatype Head = Head(block: u16, index: nat, k: nat, n: nat, flags: byte)

  function PackHeader(block: u16, index: byte, k: byte, n: byte, flags: byte): (r: seq<byte>)
    ensures |r| == HEADER_LEN
  {
    [MAGIC, VERSION] + Be16(block) + [index, k, n, flags]
  }

  function UnpackHeader(data: seq<byte>): Option<Head> {
    if |data| < HEADER_LEN || data[0] != MAGIC || data[1] != VERSION then None
    else if data[5] < 1 || data[6] <= data[5] || data[6] > MAX_N || data[4] >= data[6] then None
    else Some(Head(U16At(data, 2), data[4], data[5], data[6], data[7]))
  }

  /** The receiver reads exactly the header that was written, for every legal shard. */
  lemma UnpackPack(block: u16, index: nat, k: nat, n: nat, flags: byte, body: seq<byte>)
    requires Params(k, n) && index < n
    ensures UnpackHeader(PackHeader(block, index, k, n, flags) + body) == Some(Head(block, index, k, n, flags))
  {
    var d := PackHeader(block, index, k, n, flags) + body;
    assert d[2] == block / 256 && d[3] == block % 256;
  }

  // ---- Encoding --------------------------------------------------------

  function Row(p: seq<byte>): (r: seq<byte>)
    requires |p| <= MAX_ORIGINAL
    ensures |r| == LEN_PREFIX + |p|
  {
    Be16(|p|) + p
  }

  function Pad(s: seq<byte>, len: nat): (r: seq<byte>)
    ensures |r| == if |s| < len then len else |s|
    ensures s <= r
  {
    if |s| < len then s + Zeros(len - |s|) else s
  }

  predicate Fits(packets: seq<seq<byte>>) {
    forall i :: 0 <= i < |packets| ==> |packets[i]| <= MAX_ORIGINAL
  }

  /** Packet `i` of the block; slots past the end are empty. */
  function PacketAt(packets: seq<seq<byte>>, i: nat): seq<byte> {
    if i < |packets| then packets[i] else []
  }

  function LongestRow(packets: seq<seq<byte>>, k: nat): (m: nat)
    ensures Fits(packets) ==> m <= LEN_PREFIX + MAX_ORIGINAL
    ensures forall i :: 0 <= i < k ==> LEN_PREFIX + |PacketAt(packets, i)| <= m
  {
    if k == 0 then 0 else Max(LongestRow(packets, k - 1), LEN_PREFIX + |PacketAt(packets, k - 1)|)
  }

  /** Width in which the block is computed: the longest row, but at least 16. */
  function ShardLen(packets: seq<seq<byte>>, k: nat): (m: nat)
    requires Fits(packets)
    ensures MIN_SHARD <= m && HEADER_LEN + m <= PAYLOAD_MAX
    ensures forall i :: 0 <= i < k ==> |Row(PacketAt(packets, i))| <= m
  {
    Max(MIN_SHARD, LongestRow(packets, k))
  }

  function DataRows(packets: seq<seq<byte>>, k: nat, len: nat): (r: seq<seq<byte>>)
    requires Fits(packets)
    ensures |r| == k
  {
    seq(k, i requires 0 <= i < k => Pad(Row(PacketAt(packets, i)), len))
  }

  function Column(rows: seq<seq<byte>>, c: nat): (d: Vec)
    requires forall i :: 0 <= i < |rows| ==> c < |rows[i]|
    ensures |d| == |rows|
  {
    seq<byte>(|rows|, i requires 0 <= i < |rows| => rows[i][c])
  }

  /** What one output row of ec_encode_data is: a matrix product, column by column. */
  function Coded(F: Field, g: Vec, src: seq<seq<byte>>, len: nat): (r: seq<byte>)
    requires |g| == |src| && forall i :: 0 <= i < |src| ==> |src[i]| == len
    ensures |r| == len
  {
    seq<byte>(len, c requires 0 <= c < len => Dot(F, g, Column(src, c)))
  }

  /** Shard `i` as computed, in full width. */
  function FullShard(F: Field, packets: seq<seq<byte>>, k: nat, i: nat): (r: seq<byte>)
    requires Fits(packets) && k <= 256 && i < 256
    ensures |r| == ShardLen(packets, k)
  {
    var len := ShardLen(packets, k);
    var rows := DataRows(packets, k, len);
    assert forall j :: 0 <= j < k ==> |rows[j]| == len;
    if i < k then rows[i] else Coded(F, GenRow(F, k, i), rows, len)
  }

  /** Shard `i` as sent: data shards keep their own length. */
  function Body(F: Field, packets: seq<seq<byte>>, k: nat, i: nat): seq<byte>
    requires Fits(packets) && k <= 256 && i < 256
  {
    if i < k then Row(PacketAt(packets, i)) else FullShard(F, packets, k, i)
  }

  function Shard(F: Field, packets: seq<seq<byte>>, block: u16, k: nat, n: nat, i: nat): seq<byte>
    requires Fits(packets) && Params(k, n) && i < n
  {
    PackHeader(block, i, k, n, if i >= k then FLAG_PARITY else 0) + Body(F, packets, k, i)
  }

  function EncodeBlock(F: Field, k: nat, n: nat, packets: seq<seq<byte>>, block: u16): Option<seq<seq<byte>>>
    requires Params(k, n)
  {
    if |packets| > k || !Fits(packets) then None
    else Some(seq(n, i requires 0 <= i < n => Shard(F, packets, block, k, n, i)))
  }

  // ---- Decoding --------------------------------------------------------

  function LongestFrag(frags: map<nat, seq<byte>>, n: nat): (m: nat)
    ensures forall i :: 0 <= i < n && i in frags ==> |frags[i]| <= m
    ensures m == 0 || exists i :: 0 <= i < n && i in frags && |frags[i]| == m
  {
    if n == 0 then 0
    else if n - 1 in frags then Max(LongestFrag(frags, n - 1), |frags[n - 1]|)
    else LongestFrag(frags, n - 1)
  }

  predicate InRange(frags: map<nat, seq<byte>>, n: nat) {
    forall i :: i in frags ==> i < n
  }

  predicate HaveAllData(frags: map<nat, seq<byte>>, k: nat) {
    forall i :: 0 <= i < k ==> i in frags
  }

  function MissingData(frags: map<nat, seq<byte>>, k: nat): nat {
    if k == 0 then 0 else MissingData(frags, k - 1) + (if k - 1 in frags then 0 else 1)
  }

  /** The k shards that the decoder computes from. */
  function Chosen(frags: map<nat, seq<byte>>, k: nat, n: nat): (r: seq<nat>)
    requires Params(k, n) && InRange(frags, n) && |frags| >= k
    ensures |r| == k && Ascending(r) && forall j :: 0 <= j < k ==> r[j] < n && r[j] in frags
  {
    SurvivorCount(frags.Keys, 0, n);
    Survivors(frags.Keys, 0, n)[..k]
  }

  /** The shards that the decoder computes from, padded. */
  function SrcRows(frags: map<nat, seq<byte>>, k: nat, n: nat, len: nat): (r: seq<seq<byte>>)
    requires Params(k, n) && InRange(frags, n) && |frags| >= k
    requires forall j :: j in frags ==> |frags[j]| <= len
    ensures |r| == k && forall j :: 0 <= j < k ==> |r[j]| == len
  {
    var c := Chosen(frags, k, n);
    seq(k, j requires 0 <= j < k => Pad(frags[c[j]], len))
  }

  /** Data row `i` after reconstruction. */
  function Rebuilt(F: Field, k: nat, n: nat, frags: map<nat, seq<byte>>, len: nat, inv: Matrix, i: nat): seq<byte>
    requires Params(k, n) && InRange(frags, n) && |frags| >= k && i < k
    requires forall j :: j in frags ==> |frags[j]| <= len
    requires |inv| == k && Shape(inv, k)
  {
    if i in frags then Pad(frags[i], len)
    else Coded(F, DecodeRow(F, k, i, inv), SrcRows(frags, k, n, len), len)
  }

  /** The packets in the rows, in order, without the empty ones. */
  function Payloads(rows: seq<seq<byte>>): Option<seq<seq<byte>>> {
    if rows == [] then Some([])
    else if |rows[0]| < LEN_PREFIX then None
    else
      var len := U16At(rows[0], 0);
      if len != 0 && LEN_PREFIX + len > |rows[0]| then None
      else
        var rest := Payloads(rows[1..]);
        if rest.None? then None
        else if len == 0 then rest
        else Some([rows[0][LEN_PREFIX..LEN_PREFIX + len]] + rest.value)
  }

  datatype Decoded = Decoded(payloads: seq<seq<byte>>, recovered: nat)

  function RebuiltAll(F: Field, k: nat, n: nat, frags: map<nat, seq<byte>>, len: nat, inv: Matrix): (r: seq<seq<byte>>)
    requires Params(k, n) && InRange(frags, n) && |frags| >= k
    requires forall j :: j in frags ==> |frags[j]| <= len
    requires |inv| == k && Shape(inv, k)
    ensures |r| == k
  {
    seq(k, i requires 0 <= i < k => Rebuilt(F, k, n, frags, len, inv, i))
  }

  function PaddedAll(frags: map<nat, seq<byte>>, k: nat, len: nat): (r: seq<seq<byte>>)
    requires HaveAllData(frags, k)
    ensures |r| == k
  {
    seq(k, i requires 0 <= i < k => Pad(frags[i], len))
  }

  /** The k data rows in width `len`: padded if all are there, rebuilt otherwise. */
  function DataOf(L: Isal, k: nat, n: nat, frags: map<nat, seq<byte>>, len: nat): (r: Option<seq<seq<byte>>>)
    requires Sound(L) && Params(k, n) && InRange(frags, n) && |frags| >= k
    requires forall j :: j in frags ==> |frags[j]| <= len
    ensures r.Some? ==> |r.value| == k
  {
    if HaveAllData(frags, k) then
      Some(PaddedAll(frags, k, len))
    else
      var b := Rows(L.F, k, Chosen(frags, k, n));
      var inv := L.invert(b);
      if inv.None? then None
      else
        assert InverseOf(L.F, inv.value, b);
        Some(RebuiltAll(L.F, k, n, frags, len, inv.value))
  }

  function DecodeBlock(L: Isal, k: nat, n: nat, frags: map<nat, seq<byte>>): Option<Decoded>
    requires Sound(L)
  {
    if !Params(k, n) || |frags| < k || !InRange(frags, n) then None
    else
      var longest := LongestFrag(frags, n);
      if longest < LEN_PREFIX then None
      else
        var rows := DataOf(L, k, n, frags, Max(MIN_SHARD, longest));
        if rows.None? then None
        else
          var p := Payloads(rows.value);
          if p.None? then None else Some(Decoded(p.value, MissingData(frags, k)))
  }

  // ---- Round trip ------------------------------------------------------

  function NonEmpty(packets: seq<seq<byte>>): seq<seq<byte>> {
    if packets == [] then []
    else (if packets[0] == [] then [] else [packets[0]]) + NonEmpty(packets[1..])
  }

  /** Some shards of one encoded block, at least k of them. */
  ghost predicate ShardsOf(F: Field, k: nat, n: nat, packets: seq<seq<byte>>, frags: map<nat, seq<byte>>) {
    && Params(k, n) && |packets| <= k && Fits(packets)
    && |frags| >= k
    && (forall i :: i in frags ==> i < n && frags[i] == Body(F, packets, k, i))
  }

  /** Whenever a data shard is missing a parity shard is present, so the width the decoder
      picks is the encoder's. */
  lemma ParityPresent(F: Field, k: nat, n: nat, packets: seq<seq<byte>>, frags: map<nat, seq<byte>>)
    requires ShardsOf(F, k, n, packets, frags) && !HaveAllData(frags, k)
    ensures exists i :: k <= i < n && i in frags
    ensures Max(MIN_SHARD, LongestFrag(frags, n)) == ShardLen(packets, k)
  {
    var gap :| 0 <= gap < k && gap !in frags;
    if !exists i :: k <= i < n && i in frags {
      FewKeys(frags.Keys, k, gap);
    }
    var i :| k <= i < n && i in frags;
    assert |frags[i]| == ShardLen(packets, k);
  }

  lemma {:induction false} SmallSet(s: set<nat>, k: nat)
    requires forall i :: i in s ==> i < k
    ensures |s| <= k
  {
    if k == 0 {
      assert s == {};
    } else {
      SmallSet(s - {k - 1}, k - 1);
    }
  }

  lemma FewKeys(s: set<nat>, k: nat, gap: nat)
    requires gap < k && gap !in s && forall i :: i in s ==> i < k
    ensures |s| < k
  {
    SmallSet(s + {gap}, k);
  }

  /** In full width, the surviving shards are the generator's rows times each column. */
  lemma SurvivorColumn(F: Field, k: nat, n: nat, packets: seq<seq<byte>>, frags: map<nat, seq<byte>>,
                       r: seq<nat>, len: nat, src: seq<seq<byte>>, c: nat)
    requires Laws(F) && ShardsOf(F, k, n, packets, frags) && len == ShardLen(packets, k) && c < len
    requires |src| == |r| == k && forall j :: 0 <= j < k ==> r[j] < n && r[j] in frags
    requires forall j :: 0 <= j < k ==> |src[j]| == len && src[j] == Pad(frags[r[j]], len)
    ensures Column(src, c) == Times(F, Rows(F, k, r), Column(DataRows(packets, k, len), c))
  {
    hide Laws;
    var d := Column(DataRows(packets, k, len), c);
    forall j | 0 <= j < k
      ensures src[j][c] == Dot(F, GenRow(F, k, r[j]), d)
    {
      assert frags[r[j]] == Body(F, packets, k, r[j]);
      if r[j] < k {
        DotUnit(F, k, r[j], d);
      }
    }
    SameColumn(F, k, src, c, r, d);
  }

  lemma SameColumn(F: Field, k: nat, src: seq<seq<byte>>, c: nat, r: seq<nat>, d: Vec)
    requires |src| == |r| == k == |d| && k <= 256
    requires forall j :: 0 <= j < k ==> c < |src[j]| && r[j] < 256
    requires forall j :: 0 <= j < k ==> src[j][c] == Dot(F, GenRow(F, k, r[j]), d)
    ensures Column(src, c) == Times(F, Rows(F, k, r), d)
  {
    hide Dot;
    hide GenRow;
  }

  /** A missing data row, computed from the survivors, is the row that was encoded. */
  lemma CodedIsRow(F: Field, k: nat, n: nat, packets: seq<seq<byte>>, frags: map<nat, seq<byte>>,
                   r: seq<nat>, len: nat, src: seq<seq<byte>>, inv: Matrix, i: nat)
    requires Laws(F) && ShardsOf(F, k, n, packets, frags) && len == ShardLen(packets, k) && i < k
    requires |src| == |r| == k && forall j :: 0 <= j < k ==> r[j] < n && r[j] in frags
    requires forall j :: 0 <= j < k ==> |src[j]| == len && src[j] == Pad(frags[r[j]], len)
    requires InverseOf(F, inv, Rows(F, k, r))
    ensures Coded(F, inv[i], src, len) == Pad(Row(PacketAt(packets, i)), len)
  {
    hide Laws;
    var out := Coded(F, inv[i], src, len);
    forall c | 0 <= c < len
      ensures out[c] == Pad(Row(PacketAt(packets, i)), len)[c]
    {
      SurvivorColumn(F, k, n, packets, frags, r, len, src, c);
      UndoesProduct(F, inv, Rows(F, k, r), Column(DataRows(packets, k, len), c), i);
      hide Rows;
      hide Times;
      hide InverseOf;
    }
  }

  /** Every data row is rebuilt exactly. */
  lemma RebuiltIsRow(F: Field, k: nat, n: nat, packets: seq<seq<byte>>, frags: map<nat, seq<byte>>,
                     len: nat, inv: Matrix, i: nat)
    requires Laws(F) && ShardsOf(F, k, n, packets, frags) && len == ShardLen(packets, k) && i < k
    requires forall j :: j in frags ==> |frags[j]| <= len
    requires InverseOf(F, inv, Rows(F, k, Chosen(frags, k, n)))
    ensures Rebuilt(F, k, n, frags, len, inv, i) == Pad(Row(PacketAt(packets, i)), len)
  {
    hide Laws;
    if i in frags {
      assert frags[i] == Body(F, packets, k, i);
    } else {
      var r := Chosen(frags, k, n);
      hide Chosen;
      var src := seq(k, j requires 0 <= j < k => Pad(frags[r[j]], len));
      assert forall j :: 0 <= j < k ==> |src[j]| == len;
      CodedIsRow(F, k, n, packets, frags, r, len, src, inv, i);
    }
  }

  lemma RowRead(row: seq<byte>, p: seq<byte>)
    requires |p| <= MAX_ORIGINAL && Row(p) <= row
    ensures |row| >= LEN_PREFIX + |p| && U16At(row, 0) == |p| && row[LEN_PREFIX..LEN_PREFIX + |p|] == p
  {
    assert row[0] == Row(p)[0] && row[1] == Row(p)[1];
    assert Row(p)[LEN_PREFIX..] == p;
  }

  lemma {:induction false} PayloadsOfRows(rows: seq<seq<byte>>, packets: seq<seq<byte>>)
    requires Fits(packets) && |packets| <= |rows|
    requires forall i :: 0 <= i < |rows| ==> Row(PacketAt(packets, i)) <= rows[i]
    ensures Payloads(rows) == Some(NonEmpty(packets))
  {
    if rows != [] {
      var p := PacketAt(packets, 0);
      var rest := if packets == [] then [] else packets[1..];
      forall i | 0 <= i < |rows[1..]| ensures Row(PacketAt(rest, i)) <= rows[1..][i] {
        assert PacketAt(rest, i) == PacketAt(packets, i + 1);
        assert rows[1..][i] == rows[i + 1];
      }
      PayloadsOfRows(rows[1..], rest);
      RowRead(rows[0], p);
      hide U16At;
      if packets != [] {
        assert [] + NonEmpty(rest) == NonEmpty(rest);
        assert NonEmpty(packets) == (if p == [] then [] else [p]) + NonEmpty(rest);
      }
    }
  }

  /** The inverter succeeds on whatever k shards survive. */
  lemma InvertibleChoice(L: Isal, k: nat, n: nat, frags: map<nat, seq<byte>>)
    requires Sound(L) && Params(k, n) && InRange(frags, n) && |frags| >= k
    ensures var b := Rows(L.F, k, Chosen(frags, k, n));
            L.invert(b).Some? && InverseOf(L.F, L.invert(b).value, b)
  {
    AnyRowsNonsingular(L.F, k, n, Chosen(frags, k, n));
  }

  /** Each row starts with the row that was encoded. */
  ghost predicate Starts(rows: seq<seq<byte>>, packets: seq<seq<byte>>)
    requires Fits(packets)
  {
    forall i :: 0 <= i < |rows| ==> Row(PacketAt(packets, i)) <= rows[i]
  }

  lemma RebuiltRows(F: Field, k: nat, n: nat, packets: seq<seq<byte>>, frags: map<nat, seq<byte>>, len: nat,
                    inv: Matrix)
    requires Laws(F) && ShardsOf(F, k, n, packets, frags) && len == ShardLen(packets, k)
    requires forall j :: j in frags ==> |frags[j]| <= len
    requires InverseOf(F, inv, Rows(F, k, Chosen(frags, k, n)))
    ensures Starts(RebuiltAll(F, k, n, frags, len, inv), packets)
  {
    hide Laws;
    hide Row;
    hide PacketAt;
    hide Rebuilt;
    forall i | 0 <= i < k ensures Row(PacketAt(packets, i)) <= RebuiltAll(F, k, n, frags, len, inv)[i] {
      RebuiltIsRow(F, k, n, packets, frags, len, inv, i);
    }
  }

  lemma PaddedRows(F: Field, k: nat, n: nat, packets: seq<seq<byte>>, frags: map<nat, seq<byte>>, len: nat)
    requires ShardsOf(F, k, n, packets, frags) && HaveAllData(frags, k)
    ensures Starts(PaddedAll(frags, k, len), packets)
  {
    forall i | 0 <= i < k ensures Row(PacketAt(packets, i)) <= PaddedAll(frags, k, len)[i] {
      assert frags[i] == Body(F, packets, k, i);
    }
  }

  lemma FragsFit(F: Field, k: nat, n: nat, packets: seq<seq<byte>>, frags: map<nat, seq<byte>>)
    requires ShardsOf(F, k, n, packets, frags)
    ensures InRange(frags, n) && forall j :: j in frags ==> |frags[j]| <= Max(MIN_SHARD, LongestFrag(frags, n))
  {
  }

  /** With a parity shard needed, the rows the decoder arrives at are the rebuilt ones. */
  lemma DataOfParity(L: Isal, k: nat, n: nat, packets: seq<seq<byte>>, frags: map<nat, seq<byte>>, len: nat)
    requires Sound(L) && ShardsOf(L.F, k, n, packets, frags) && !HaveAllData(frags, k)
    requires InRange(frags, n) && len == ShardLen(packets, k) && forall j :: j in frags ==> |frags[j]| <= len
    ensures DataOf(L, k, n, frags, len).Some? && Starts(DataOf(L, k, n, frags, len).value, packets)
  {
    hide Laws;
    hide Inverts;
    hide Starts;
    hide RebuiltAll;
    hide Chosen;
    hide Rows;
    InvertibleChoice(L, k, n, frags);
    hide InverseOf;
    var inv := L.invert(Rows(L.F, k, Chosen(frags, k, n))).value;
    RebuiltRows(L.F, k, n, packets, frags, len, inv);
  }

  /** The rows the decoder arrives at start with the rows that were encoded. */
  lemma DataOfEncoded(L: Isal, k: nat, n: nat, packets: seq<seq<byte>>, frags: map<nat, seq<byte>>, len: nat)
    requires Sound(L) && ShardsOf(L.F, k, n, packets, frags)
    requires InRange(frags, n) && forall j :: j in frags ==> |frags[j]| <= len
    requires len == Max(MIN_SHARD, LongestFrag(frags, n))
    ensures DataOf(L, k, n, frags, len).Some? && Starts(DataOf(L, k, n, frags, len).value, packets)
  {
    if HaveAllData(frags, k) {
      PaddedRows(L.F, k, n, packets, frags, len);
      assert DataOf(L, k, n, frags, len) == Some(PaddedAll(frags, k, len));
    } else {
      ParityPresent(L.F, k, n, packets, frags);
      DataOfParity(L, k, n, packets, frags, len);
    }
    hide *;
  }

  /** For any block of at most k packets and any k or more of its n shards, decoding returns
      exactly the non-empty packets in order, and counts the data shards it rebuilt. */
  lemma DecodeEncoded(L: Isal, k: nat, n: nat, packets: seq<seq<byte>>, frags: map<nat, seq<byte>>)
    requires Sound(L) && ShardsOf(L.F, k, n, packets, frags)
    ensures DecodeBlock(L, k, n, frags) == Some(Decoded(NonEmpty(packets), MissingData(frags, k)))
  {
    hide DataOf;
    hide Payloads;
    hide LongestFrag;
    hide MissingData;
    hide NonEmpty;
    LongestIsRow(L.F, k, n, packets, frags);
    FragsFit(L.F, k, n, packets, frags);
    var len := Max(MIN_SHARD, LongestFrag(frags, n));
    DataOfEncoded(L, k, n, packets, frags, len);
    PayloadsOfRows(DataOf(L, k, n, frags, len).value, packets);
    hide Sound;
    hide Starts;
  }

  lemma LongestIsRow(F: Field, k: nat, n: nat, packets: seq<seq<byte>>, frags: map<nat, seq<byte>>)
    requires ShardsOf(F, k, n, packets, frags)
    ensures LongestFrag(frags, n) >= LEN_PREFIX
  {
    var i := Chosen(frags, k, n)[0];
    assert frags[i] == Body(F, packets, k, i);
  }
}
