/** The loops of basic_fec.cpp, each proved against the functions that the block-code and
    table proofs are about. */
module FecClass {
  import opened Bytes
  import opened Gf
  import opened FecMatrix
  import opened FecCode
  import opened FecStream
  import opened FecReceiver

  // ---- encode_block ----------------------------------------------------

  /** Length-prefixed rows of a block and the longest of them; fails on an oversized packet. */
  method BuildRows(packets: seq<seq<byte>>, k: nat) returns (ok: bool, rows: seq<seq<byte>>, longest: nat)
    requires |packets| <= k
    ensures ok == Fits(packets)
    ensures ok ==> |rows| == k && longest == LongestRow(packets, k)
                   && forall i :: 0 <= i < k ==> rows[i] == Row(PacketAt(packets, i))
  {
    rows, longest := [], 0;
    for i := 0 to k
      invariant |rows| == i && longest == LongestRow(packets, i)
      invariant forall j :: 0 <= j < i ==>
                  |PacketAt(packets, j)| <= MAX_ORIGINAL && rows[j] == Row(PacketAt(packets, j))
    {
      var p := if i < |packets| then packets[i] else [];
      if |p| > MAX_ORIGINAL { return false, [], 0; }
      rows := rows + [Be16(|p|) + p];
      longest := Max(longest, LEN_PREFIX + |p|);
    }
    forall j | 0 <= j < |packets| ensures |packets[j]| <= MAX_ORIGINAL {
      assert packets[j] == PacketAt(packets, j);
    }
    ok := true;
  }

  method PadRows(rows: seq<seq<byte>>, len: nat) returns (out: seq<seq<byte>>)
    ensures |out| == |rows| && forall i :: 0 <= i < |rows| ==> out[i] == Pad(rows[i], len)
  {
    out := [];
    for i := 0 to |rows|
      invariant |out| == i && forall j :: 0 <= j < i ==> out[j] == Pad(rows[j], len)
    {
      out := out + [Pad(rows[i], len)];
    }
  }

  /** One shard body: the native row for data, the coded columns for parity. */
  method MakeBody(F: Field, k: nat, packets: seq<seq<byte>>, rows: seq<seq<byte>>, padded: seq<seq<byte>>,
                  len: nat, i: nat) returns (body: seq<byte>)
    requires Fits(packets) && k <= 256 && i < 256 && |rows| == k && len == ShardLen(packets, k)
    requires forall j :: 0 <= j < k ==> rows[j] == Row(PacketAt(packets, j))
    requires padded == DataRows(packets, k, len)
    ensures body == Body(F, packets, k, i)
  {
    if i < k {
      body := rows[i];
    } else {
      assert forall j :: 0 <= j < k ==> |padded[j]| == len;
      body := Coded(F, GenRow(F, k, i), padded, len);
    }
  }

  method WriteShards(F: Field, k: nat, n: nat, packets: seq<seq<byte>>, block: u16,
                     rows: seq<seq<byte>>, padded: seq<seq<byte>>, len: nat) returns (out: seq<seq<byte>>)
    requires Params(k, n) && Fits(packets) && |rows| == k && len == ShardLen(packets, k)
    requires forall j :: 0 <= j < k ==> rows[j] == Row(PacketAt(packets, j))
    requires padded == DataRows(packets, k, len)
    ensures |out| == n && forall i :: 0 <= i < n ==> out[i] == Shard(F, packets, block, k, n, i)
  {
    hide Body;
    hide DataRows;
    hide ShardLen;
    out := [];
    for i := 0 to n
      invariant |out| == i && forall j :: 0 <= j < i ==> out[j] == Shard(F, packets, block, k, n, j)
    {
      var body := MakeBody(F, k, packets, rows, padded, len, i);
      out := out + [PackHeader(block, i, k, n, if i >= k then FLAG_PARITY else 0) + body];
    }
  }

  method Encode(F: Field, k: nat, n: nat, packets: seq<seq<byte>>, block: u16) returns (r: Option<seq<seq<byte>>>)
    requires Params(k, n)
    ensures r == EncodeBlock(F, k, n, packets, block)
  {
    hide Shard;
    if |packets| > k { return None; }
    var ok, rows, longest := BuildRows(packets, k);
    if !ok { return None; }
    var len := Max(MIN_SHARD, longest);
    assert HEADER_LEN + len <= PAYLOAD_MAX;
    var padded := PadRows(rows, len);
    assert padded == DataRows(packets, k, len);
    var out := WriteShards(F, k, n, packets, block, rows, padded, len);
    assert out == EncodeBlock(F, k, n, packets, block).value;
    r := Some(out);
  }

  // ---- gen_decode_matrix -----------------------------------------------

  /** The next row that is there, or n; skipping rows leaves the survivors alone. */
  method NextRow(have: set<nat>, from: nat, n: nat) returns (row: nat)
    requires from <= n
    ensures from <= row <= n && Survivors(have, row, n) == Survivors(have, from, n)
    ensures if row == n then Survivors(have, row, n) == []
            else Survivors(have, row, n) == [row] + Survivors(have, row + 1, n)
  {
    row := from;
    while row < n && row !in have
      invariant from <= row <= n && Survivors(have, row, n) == Survivors(have, from, n)
    {
      row := row + 1;
    }
  }

  /** First k rows that are not in the error list, in ascending order. */
  method ChooseRows(have: set<nat>, k: nat, n: nat) returns (r: Option<seq<nat>>)
    ensures r == if |Survivors(have, 0, n)| < k then None else Some(Survivors(have, 0, n)[..k])
  {
    hide Survivors;
    ghost var all := Survivors(have, 0, n);
    var idx: seq<nat> := [];
    var row: nat := 0;
    assert [] + all == all;
    for i := 0 to k
      invariant row <= n && |idx| == i && idx + Survivors(have, row, n) == all
    {
      row := NextRow(have, row, n);
      if row >= n {
        assert |all| == i;
        return None;
      }
      assert idx + ([row] + Survivors(have, row + 1, n)) == idx + [row] + Survivors(have, row + 1, n);
      idx := idx + [row];
      row := row + 1;
    }
    assert all[..k] == idx;
    r := Some(idx);
  }

  /** One entry of a parity row of the decode matrix: xor of products down a column. */
  method ParityEntry(F: Field, g: Vec, inv: Matrix, i: nat) returns (s: byte)
    requires Laws(F) && |g| == |inv| && Shape(inv, |g|) && i < |g|
    ensures s == LinComb(F, g, inv, |g|)[i]
  {
    hide Laws;
    var k := |g|;
    s := 0;
    AddComm(F, 0, LinComb(F, g, inv, k)[i]);
    AddZero(F, LinComb(F, g, inv, k)[i]);
    assert g[0..] == g && inv[0..] == inv;
    for j := 0 to k
      invariant F.add(s, LinComb(F, g[j..], inv[j..], k)[i]) == LinComb(F, g, inv, k)[i]
    {
      var t := F.mul(inv[j][i], g[j]);
      var rest := LinComb(F, g[j + 1..], inv[j + 1..], k)[i];
      assert g[j..][1..] == g[j + 1..] && inv[j..][1..] == inv[j + 1..];
      MulComm(F, inv[j][i], g[j]);
      AddAssoc(F, s, t, rest);
      s := F.add(s, t);
    }
    AddZero(F, s);
  }

  method ParityRow(F: Field, g: Vec, inv: Matrix) returns (row: Vec)
    requires Laws(F) && |g| == |inv| && Shape(inv, |g|)
    ensures row == LinComb(F, g, inv, |g|)
  {
    row := [];
    for i := 0 to |g|
      invariant |row| == i && forall j :: 0 <= j < i ==> row[j] == LinComb(F, g, inv, |g|)[j]
    {
      var s := ParityEntry(F, g, inv, i);
      row := row + [s];
    }
  }

  /** Decode rows for the missing shards, given the inverse of the chosen rows. */
  method DecodeRows(F: Field, k: nat, errs: seq<nat>, inv: Matrix) returns (rows: Matrix)
    requires Laws(F) && 1 <= k <= 255 && |inv| == k && Shape(inv, k)
    requires forall e :: 0 <= e < |errs| ==> errs[e] < 256
    ensures |rows| == |errs| && forall e :: 0 <= e < |errs| ==> rows[e] == DecodeRow(F, k, errs[e], inv)
  {
    hide Laws;
    hide LinComb;
    hide GenRow;
    rows := [];
    for e := 0 to |errs|
      invariant |rows| == e && forall j :: 0 <= j < e ==> rows[j] == DecodeRow(F, k, errs[j], inv)
    {
      if errs[e] < k {
        rows := rows + [inv[errs[e]]];
      } else {
        var row := ParityRow(F, GenRow(F, k, errs[e]), inv);
        rows := rows + [row];
      }
    }
  }

  // ---- decode_block ----------------------------------------------------

  /** Longest shard, scanning the shards in any order; fails on an index out of range. */
  method ScanFrags(frags: map<nat, seq<byte>>, n: nat) returns (ok: bool, longest: nat)
    ensures ok == InRange(frags, n)
    ensures ok ==> longest == LongestFrag(frags, n)
  {
    longest := 0;
    var rest := frags.Keys;
    while rest != {}
      invariant rest <= frags.Keys
      invariant forall i :: i in frags && i !in rest ==> i < n && |frags[i]| <= longest
      invariant longest == 0 || exists i :: i in frags && i < n && |frags[i]| == longest
      decreases |rest|
    {
      var i :| i in rest;
      if i >= n { return false, 0; }
      longest := Max(longest, |frags[i]|);
      rest := rest - {i};
    }
    ok := true;
  }

  lemma SurvivorsFrom(have: set<nat>, i: nat, n: nat)
    requires i <= n
    ensures i == n ==> Survivors(have, i, n) == []
    ensures i < n ==> |Survivors(have, i, n)| == |Survivors(have, i + 1, n)| + (if i in have then 1 else 0)
  {
  }

  /** The errors among the first i shards. */
  ghost predicate ErrorsTo(have: set<nat>, errs: seq<nat>, i: nat) {
    && (forall j :: 0 <= j < i && j !in have ==> j in errs)
    && (forall e :: 0 <= e < |errs| ==> errs[e] < i && errs[e] !in have)
  }

  lemma ErrorsStep(have: set<nat>, errs: seq<nat>, i: nat)
    requires ErrorsTo(have, errs, i)
    ensures ErrorsTo(have, if i in have then errs else errs + [i], i + 1)
  {
    var r := if i in have then errs else errs + [i];
    forall j | 0 <= j < i + 1 && j !in have ensures j in r {
      if j == i { assert r[|errs|] == i; }
    }
  }

  /** Shards that did not arrive, in ascending order. */
  method ListErrors(have: set<nat>, n: nat) returns (errs: seq<nat>)
    ensures forall i :: 0 <= i < n && i !in have ==> i in errs
    ensures forall e :: 0 <= e < |errs| ==> errs[e] < n && errs[e] !in have
    ensures |errs| + |Survivors(have, 0, n)| == n
  {
    errs := [];
    assert ErrorsTo(have, errs, 0);
    hide ErrorsTo;
    hide Survivors;
    for i := 0 to n
      invariant ErrorsTo(have, errs, i)
      invariant |errs| + |Survivors(have, 0, n)| == i + |Survivors(have, i, n)|
    {
      ErrorsStep(have, errs, i);
      SurvivorsFrom(have, i, n);
      if i !in have { errs := errs + [i]; }
    }
    SurvivorsFrom(have, n, n);
    ErrorsAll(have, errs, n);
  }

  lemma ErrorsAll(have: set<nat>, errs: seq<nat>, n: nat)
    requires ErrorsTo(have, errs, n)
    ensures forall i :: 0 <= i < n && i !in have ==> i in errs
    ensures forall e :: 0 <= e < |errs| ==> errs[e] < n && errs[e] !in have
  {
  }

  /** Rows that are present, or among the first e errors, are as they should be. */
  ghost predicate RowsTo(F: Field, k: nat, n: nat, frags: map<nat, seq<byte>>, len: nat, inv: Matrix,
                         errs: seq<nat>, e: nat, data: seq<seq<byte>>)
    requires Params(k, n) && InRange(frags, n) && |frags| >= k
    requires forall j :: j in frags ==> |frags[j]| <= len
    requires |inv| == k && Shape(inv, k)
  {
    && e <= |errs| && |data| == k
    && forall i :: 0 <= i < k && (i in frags || i in errs[..e]) ==> data[i] == Rebuilt(F, k, n, frags, len, inv, i)
  }

  lemma RowsStart(F: Field, k: nat, n: nat, frags: map<nat, seq<byte>>, len: nat, inv: Matrix,
                  errs: seq<nat>, data: seq<seq<byte>>)
    requires Params(k, n) && InRange(frags, n) && |frags| >= k
    requires forall j :: j in frags ==> |frags[j]| <= len
    requires |inv| == k && Shape(inv, k)
    requires |data| == k && forall i :: 0 <= i < k && i in frags ==> data[i] == Pad(frags[i], len)
    ensures RowsTo(F, k, n, frags, len, inv, errs, 0, data)
  {
    hide Pad;
    hide Chosen;
    hide Coded;
    hide DecodeRow;
  }

  lemma RowsStep(F: Field, k: nat, n: nat, frags: map<nat, seq<byte>>, len: nat, inv: Matrix,
                 errs: seq<nat>, e: nat, data: seq<seq<byte>>)
    requires Params(k, n) && InRange(frags, n) && |frags| >= k
    requires forall j :: j in frags ==> |frags[j]| <= len
    requires |inv| == k && Shape(inv, k)
    requires e < |errs| && RowsTo(F, k, n, frags, len, inv, errs, e, data)
    ensures var i := errs[e];
            RowsTo(F, k, n, frags, len, inv, errs, e + 1,
                   if i < k then data[i := Rebuilt(F, k, n, frags, len, inv, i)] else data)
  {
    hide Rebuilt;
    assert errs[..e + 1] == errs[..e] + [errs[e]];
  }

  /** Data rows: padded where present, computed from the survivors where not. */
  method RebuildRows(F: Field, k: nat, n: nat, frags: map<nat, seq<byte>>, len: nat, errs: seq<nat>, inv: Matrix)
    returns (data: seq<seq<byte>>)
    requires Laws(F) && Params(k, n) && InRange(frags, n) && |frags| >= k
    requires forall j :: j in frags ==> |frags[j]| <= len
    requires |inv| == k && Shape(inv, k)
    requires forall i :: 0 <= i < k && i !in frags ==> i in errs
    requires forall e :: 0 <= e < |errs| ==> errs[e] < n && errs[e] !in frags
    ensures data == RebuiltAll(F, k, n, frags, len, inv)
  {
    hide Laws;
    hide DecodeRow;
    hide RowsTo;
    hide Pad;
    hide Coded;
    var dec := DecodeRows(F, k, errs, inv);
    hide SrcRows;
    var src := SrcRows(frags, k, n, len);
    data := seq(k, i requires 0 <= i < k => if i in frags then Pad(frags[i], len) else []);
    RowsStart(F, k, n, frags, len, inv, errs, data);
    for e := 0 to |errs|
      invariant RowsTo(F, k, n, frags, len, inv, errs, e, data) && |data| == k
    {
      RowsStep(F, k, n, frags, len, inv, errs, e, data);
      if errs[e] < k {
        assert Rebuilt(F, k, n, frags, len, inv, errs[e]) == Coded(F, dec[e], src, len);
        data := data[errs[e] := Coded(F, dec[e], src, len)];
      }
    }
    RowsAll(F, k, n, frags, len, inv, errs, data);
  }

  lemma RowsAll(F: Field, k: nat, n: nat, frags: map<nat, seq<byte>>, len: nat, inv: Matrix,
                errs: seq<nat>, data: seq<seq<byte>>)
    requires Params(k, n) && InRange(frags, n) && |frags| >= k
    requires forall j :: j in frags ==> |frags[j]| <= len
    requires |inv| == k && Shape(inv, k)
    requires forall i :: 0 <= i < k && i !in frags ==> i in errs
    requires RowsTo(F, k, n, frags, len, inv, errs, |errs|, data)
    ensures data == RebuiltAll(F, k, n, frags, len, inv)
  {
    hide Rebuilt;
    assert errs[..|errs|] == errs;
  }

  /** Packets in the rows, skipping the empty ones; fails on a length that does not fit. */
  method ReadPayloads(rows: seq<seq<byte>>) returns (r: Option<seq<seq<byte>>>)
    ensures r == Payloads(rows)
  {
    var out: seq<seq<byte>> := [];
    assert rows[0..] == rows;
    assert Payloads(rows).Some? ==> [] + Payloads(rows).value == Payloads(rows).value;
    for i := 0 to |rows|
      invariant Payloads(rows) == if Payloads(rows[i..]).None? then None else Some(out + Payloads(rows[i..]).value)
    {
      var row := rows[i];
      assert rows[i..][0] == row && rows[i..][1..] == rows[i + 1..];
      if |row| < LEN_PREFIX { return None; }
      var len := U16At(row, 0);
      if len == 0 { continue; }
      if LEN_PREFIX + len > |row| { return None; }
      var p := row[LEN_PREFIX..LEN_PREFIX + len];
      if Payloads(rows[i + 1..]).Some? {
        assert out + ([p] + Payloads(rows[i + 1..]).value) == out + [p] + Payloads(rows[i + 1..]).value;
      }
      out := out + [p];
    }
    assert out + [] == out;
    r := Some(out);
  }

  /** Count of data shards that had to be computed. */
  method CountMissing(frags: map<nat, seq<byte>>, k: nat) returns (c: nat)
    ensures c == MissingData(frags, k)
    ensures c == 0 <==> HaveAllData(frags, k)
  {
    c := 0;
    for i := 0 to k
      invariant c == MissingData(frags, i) && (c == 0 <==> HaveAllData(frags, i))
    {
      if i !in frags { c := c + 1; }
    }
  }

  method DataRowsOf(L: Isal, k: nat, n: nat, frags: map<nat, seq<byte>>, len: nat, complete: bool)
    returns (rows: Option<seq<seq<byte>>>)
    requires Sound(L) && Params(k, n) && InRange(frags, n) && |frags| >= k
    requires forall j :: j in frags ==> |frags[j]| <= len
    requires complete == HaveAllData(frags, k)
    ensures rows == DataOf(L, k, n, frags, len)
  {
    if complete {
      var padded := seq(k, i requires 0 <= i < k => Pad(frags[i], len));
      assert padded == PaddedAll(frags, k, len);
      return Some(padded);
    }
    SurvivorCount(frags.Keys, 0, n);
    var errs := ListErrors(frags.Keys, n);
    assert |errs| <= n - k;
    var idx := ChooseRows(frags.Keys, k, n);
    assert idx == Some(Chosen(frags, k, n));
    hide Laws;
    hide Survivors;
    hide RebuiltAll;
    var b := Rows(L.F, k, idx.value);
    var inv := L.invert(b);
    if inv.None? { return None; }
    assert InverseOf(L.F, inv.value, b);
    var data := RebuildRows(L.F, k, n, frags, len, errs, inv.value);
    rows := Some(data);
  }

  method Decode(L: Isal, k: nat, n: nat, frags: map<nat, seq<byte>>) returns (r: Option<Decoded>)
    requires Sound(L)
    ensures r == DecodeBlock(L, k, n, frags)
  {
    hide Sound;
    hide DataOf;
    hide Payloads;
    if k < 1 || n <= k || n > MAX_N || |frags| < k { return None; }
    var ok, longest := ScanFrags(frags, n);
    if !ok || longest < LEN_PREFIX { return None; }
    var missing := CountMissing(frags, k);
    var rows := DataRowsOf(L, k, n, frags, Max(MIN_SHARD, longest), missing == 0);
    if rows.None? { return None; }
    var p := ReadPayloads(rows.value);
    if p.None? { return None; }
    r := Some(Decoded(p.value, missing));
  }

  // ---- The object ------------------------------------------------------

  lemma ExpireDoneUnfold(r: Rx, now: int)
    requires r.doneOrder != []
    ensures r.doneOrder[0] !in r.done ==>
              ExpireDone(r, now) == ExpireDone(r.(doneOrder := r.doneOrder[1..]), now)
    ensures r.doneOrder[0] in r.done && now - r.done[r.doneOrder[0]] <= DoneHold(r.timeoutMs) ==>
              ExpireDone(r, now) == r
    ensures r.doneOrder[0] in r.done && now - r.done[r.doneOrder[0]] > DoneHold(r.timeoutMs) ==>
              ExpireDone(r, now) ==
              ExpireDone(r.(doneOrder := r.doneOrder[1..], done := r.done - {r.doneOrder[0]}), now)
  {
  }

  lemma TrimUnfold(r: Rx)
    requires |r.doneOrder| > DONE_MAX
    ensures Trim(r) == Trim(r.(doneOrder := r.doneOrder[1..], done := r.done - {r.doneOrder[0]}))
  {
  }

  /** Receiving half of rs_block_erasure; it works from shard headers alone. */
  class BlockTable {
    const isal: Isal
    const timeoutMs: nat
    var blocks: map<u16, RxBlock>
    var doneOrder: seq<u16>
    var done: map<u16, int>
    var fails: nat
    var recovered: nat
    var decoded: nat

    ghost function View(): Rx
      reads this
    {
      Rx(timeoutMs, blocks, doneOrder, done, fails, recovered, decoded)
    }

    constructor (isal: Isal, timeoutMs: nat)
      ensures this.isal == isal && View() == Rx(timeoutMs, map[], [], map[], 0, 0, 0)
    {
      this.isal, this.timeoutMs := isal, timeoutMs;
      blocks, doneOrder, done, fails, recovered, decoded := map[], [], map[], 0, 0, 0;
    }

    /** Loop of expire_done: look only at the front of the queue. */
    method ExpireDoneIds(now: int)
      modifies this`doneOrder, this`done
      ensures View() == ExpireDone(old(View()), now)
    {
      while |doneOrder| > 0
        invariant ExpireDone(View(), now) == ExpireDone(old(View()), now)
        decreases |doneOrder|
      {
        ExpireDoneUnfold(View(), now);
        var id := doneOrder[0];
        if id !in done {
          doneOrder := doneOrder[1..];
          continue;
        }
        if now - done[id] <= DoneHold(timeoutMs) { return; }
        done := done - {id};
        doneOrder := doneOrder[1..];
      }
    }

    /** Loop of expire_rx over the open blocks, in any order. */
    method ExpireOpen(now: int)
      modifies this`blocks, this`fails
      ensures View() == ExpireBlocks(old(View()), now)
    {
      var rest := blocks.Keys;
      ghost var gone: set<u16> := {};
      while rest != {}
        invariant rest <= old(blocks).Keys && gone !! rest
        invariant gone == set id | id in old(blocks) && id !in rest && Stale(old(blocks)[id], timeoutMs, now)
        invariant blocks == old(blocks) - gone && fails == old(fails) + |gone|
        decreases |rest|
      {
        var id :| id in rest;
        rest := rest - {id};
        if Stale(blocks[id], timeoutMs, now) {
          gone := gone + {id};
          fails := fails + 1;
          blocks := blocks - {id};
        }
      }
      assert gone == StaleIds(old(View()), now);
    }

    method ExpireAll(now: int)
      modifies this`blocks, this`fails, this`doneOrder, this`done
      ensures View() == Expire(old(View()), now)
    {
      hide ExpireDone;
      hide ExpireBlocks;
      ExpireDoneIds(now);
      ExpireOpen(now);
    }

    /** Loop at the end of mark_done: keep the newest 128. */
    method TrimDone()
      modifies this`doneOrder, this`done
      ensures View() == Trim(old(View()))
    {
      while |doneOrder| > DONE_MAX
        invariant Trim(View()) == Trim(old(View()))
        decreases |doneOrder|
      {
        TrimUnfold(View());
        done := done - {doneOrder[0]};
        doneOrder := doneOrder[1..];
      }
    }

    method MarkFinished(id: u16, now: int)
      modifies this`doneOrder, this`done
      ensures View() == MarkDone(old(View()), id, now)
    {
      if id !in done { doneOrder := doneOrder + [id]; }
      done := done[id := now];
      hide Trim;
      TrimDone();
    }

    /** Scan for the open block that was first seen earliest. */
    method FindOldest() returns (oldest: u16)
      requires blocks != map[]
      ensures IsOldest(blocks, oldest)
    {
      oldest :| oldest in blocks;
      var rest := blocks.Keys;
      while rest != {}
        invariant rest <= blocks.Keys && oldest in blocks
        invariant forall j :: j in blocks && j !in rest ==> blocks[oldest].firstSeen <= blocks[j].firstSeen
        decreases |rest|
      {
        var j :| j in rest;
        rest := rest - {j};
        if blocks[j].firstSeen < blocks[oldest].firstSeen { oldest := j; }
      }
    }

    /** Loop of push_air that makes room; with at most 64 open blocks it runs at most once. */
    method MakeRoom(h: Head, now: int) returns (ghost victim: u16)
      requires h.block !in blocks && |blocks| <= BLOCK_MAX
      modifies this`blocks, this`fails
      ensures View() == OpenBlock(old(View()), h, now, victim)
      ensures |old(blocks)| >= BLOCK_MAX ==> IsOldest(old(blocks), victim)
    {
      victim := 0;
      ghost var first := true;
      while |blocks| >= BLOCK_MAX
        invariant first ==> blocks == old(blocks) && fails == old(fails)
        invariant !first ==> |old(blocks)| >= BLOCK_MAX && IsOldest(old(blocks), victim)
                             && blocks == old(blocks) - {victim} && fails == old(fails) + 1 && |blocks| < BLOCK_MAX
        decreases |blocks|
      {
        var oldest := FindOldest();
        MapSize(blocks, {oldest});
        victim := oldest;
        fails := fails + 1;
        blocks := blocks - {oldest};
        first := false;
      }
      blocks := blocks[h.block := RxBlock(h.k, h.n, map[], now)];
    }

    method FinishBlock(id: u16, b: RxBlock, now: int) returns (out: seq<seq<byte>>)
      requires Sound(isal)
      modifies this`blocks, this`doneOrder, this`done, this`fails, this`recovered, this`decoded
      ensures (View(), out) == Finish(isal, old(View()), id, b, now)
    {
      hide Sound;
      hide MarkDone;
      hide DecodeBlock;
      var d := Decode(isal, b.k, b.n, b.frags);
      blocks := blocks - {id};
      MarkFinished(id, now);
      if d.None? {
        fails := fails + 1;
        return [];
      }
      Count(d.value.recovered);
      out := d.value.payloads;
    }

    method Count(rec: nat)
      modifies this`recovered, this`decoded
      ensures recovered == old(recovered) + rec && decoded == old(decoded) + 1
    {
      recovered := recovered + rec;
      decoded := decoded + 1;
    }

    method Add(h: Head, body: seq<byte>, now: int) returns (out: seq<seq<byte>>)
      requires Sound(isal) && h.block in blocks
      modifies this`blocks, this`doneOrder, this`done, this`fails, this`recovered, this`decoded
      ensures (View(), out) == AddShard(isal, old(View()), h, body, now)
    {
      hide Sound;
      hide Finish;
      var b := blocks[h.block];
      if h.index in b.frags { return []; }
      var c := b.(frags := b.frags[h.index := body]);
      if |c.frags| < h.k {
        blocks := blocks[h.block := c];
        return [];
      }
      out := FinishBlock(h.block, c, now);
    }

    method Take(h: Head, body: seq<byte>, now: int) returns (out: seq<seq<byte>>, ghost victim: u16)
      requires Sound(isal) && |blocks| <= BLOCK_MAX
      modifies this`blocks, this`doneOrder, this`done, this`fails, this`recovered, this`decoded
      ensures (View(), out) == TakeShard(isal, old(View()), h, body, now, victim)
      ensures VictimFor(old(View()), h.block, victim)
    {
      hide Sound;
      hide AddShard;
      out, victim := [], 0;
      if h.block in done { return; }
      if h.block !in blocks {
        victim := MakeRoom(h, now);
        hide OpenBlock;
        out := Add(h, body, now);
      } else if blocks[h.block].k != h.k || blocks[h.block].n != h.n {
        fails := fails + 1;
      } else {
        out := Add(h, body, now);
      }
    }

    /** push_air. Which block is given up when the table is full is the scan's choice. */
    method Push(data: seq<byte>, now: int) returns (out: seq<seq<byte>>, ghost victim: u16)
      requires Sound(isal) && |blocks| <= BLOCK_MAX
      modifies this`blocks, this`doneOrder, this`done, this`fails, this`recovered, this`decoded
      ensures (View(), out) == PushAir(isal, old(View()), data, now, victim)
      ensures data != [] && data[0] == MAGIC ==> VictimOk(old(View()), data, now, victim)
    {
      hide Sound;
      hide TakeShard;
      hide VictimFor;
      out, victim := [], 0;
      if |data| == 0 { return; }
      if data[0] != MAGIC { return [data], 0; }
      ExpireShrinks(View(), now);
      hide Expire;
      ExpireAll(now);
      var h := UnpackHeader(data);
      if h.None? {
        fails := fails + 1;
        return;
      }
      hide UnpackHeader;
      out, victim := Take(h.value, data[HEADER_LEN..], now);
    }
  }

  /** Sending half of rs_block_erasure once its matrix is set up. */
  class Encoder {
    const field: Field
    const k: nat
    const n: nat
    const timeoutMs: nat
    var pending: seq<seq<byte>>
    var deadlineSet: bool
    var deadline: int
    var blockId: u16
    var blocks: nat
    var oversized: nat

    ghost function View(): Enc
      reads this
    {
      Enc(k, n, timeoutMs, pending, deadlineSet, deadline, blockId, blocks, oversized)
    }

    constructor (field: Field, k: nat, n: nat, timeoutMs: nat)
      requires Params(k, n)
      ensures this.field == field && View() == Enc(k, n, timeoutMs, [], false, 0, 0, 0, 0)
    {
      this.field, this.k, this.n, this.timeoutMs := field, k, n, timeoutMs;
      pending, deadlineSet, deadline, blockId, blocks, oversized := [], false, 0, 0, 0, 0;
    }

    method FlushPending() returns (out: seq<seq<byte>>)
      requires Params(k, n)
      modifies this`pending, this`deadlineSet, this`blockId, this`blocks, this`oversized
      ensures (View(), out) == Flush(field, old(View()))
    {
      if |pending| == 0 { return []; }
      var r := Encode(field, k, n, pending, blockId);
      hide EncodeBlock;
      pending, deadlineSet := [], false;
      if r.None? {
        oversized := oversized + 1;
        return [];
      }
      blockId := (blockId + 1) % 65536;
      blocks := blocks + 1;
      out := r.value;
    }

    method Push(data: seq<byte>, now: int) returns (out: seq<seq<byte>>)
      requires Params(k, n)
      modifies this`pending, this`deadlineSet, this`deadline, this`blockId, this`blocks, this`oversized
      ensures (View(), out) == PushApp(field, old(View()), data, now)
    {
      hide Flush;
      out := [];
      if |data| > MAX_ORIGINAL {
        oversized := oversized + 1;
        return;
      }
      pending := pending + [data];
      if !deadlineSet {
        deadline := now + timeoutMs * MS;
        deadlineSet := true;
      }
      if |pending| >= k { out := FlushPending(); }
    }

    method Tick(now: int) returns (out: seq<seq<byte>>)
      requires Params(k, n)
      modifies this`pending, this`deadlineSet, this`blockId, this`blocks, this`oversized
      ensures (View(), out) == TickEnc(field, old(View()), now)
    {
      hide Flush;
      out := [];
      if !deadlineSet || timeoutMs == 0 || now < deadline { return; }
      out := FlushPending();
    }
  }

  lemma ExpireShrinks(r: Rx, now: int)
    ensures |Expire(r, now).blocks| <= |r.blocks|
  {
    ExpireDoneBlocks(r, now);
    var d := ExpireDone(r, now);
    MapSize(d.blocks, StaleIds(d, now));
  }
}
