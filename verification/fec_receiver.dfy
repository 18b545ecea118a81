/** The receiver's block table: open blocks, finished ids, expiry and eviction. */
module FecReceiver {
  import opened Bytes
  import opened Gf
  import opened FecMatrix
  import opened FecCode
  import opened FecStream

  datatype RxBlock = RxBlock(k: nat, n: nat, frags: map<nat, seq<byte>>, firstSeen: int)

  datatype Rx = Rx(timeoutMs: nat, blocks: map<u16, RxBlock>, doneOrder: seq<u16>, done: map<u16, int>,
                   fails: nat, recovered: nat, decoded: nat)

  // ---- Operations ------------------------------------------------------

  /** Drop finished ids from the front of the queue while they are too old. */
  function ExpireDone(r: Rx, now: int): Rx
    decreases |r.doneOrder|
  {
    if r.doneOrder == [] then r
    else
      var id := r.doneOrder[0];
      if id !in r.done then ExpireDone(r.(doneOrder := r.doneOrder[1..]), now)
      else if now - r.done[id] <= DoneHold(r.timeoutMs) then r
      else ExpireDone(r.(doneOrder := r.doneOrder[1..], done := r.done - {id}), now)
  }

  predicate Stale(b: RxBlock, timeoutMs: nat, now: int) { now - b.firstSeen > RxHold(timeoutMs) }

  function StaleIds(r: Rx, now: int): set<u16> {
    set id | id in r.blocks && Stale(r.blocks[id], r.timeoutMs, now)
  }

  function ExpireBlocks(r: Rx, now: int): Rx {
    var gone := StaleIds(r, now);
    r.(blocks := r.blocks - gone, fails := r.fails + |gone|)
  }

  function Expire(r: Rx, now: int): Rx { ExpireBlocks(ExpireDone(r, now), now) }

  function Trim(r: Rx): Rx
    decreases |r.doneOrder|
  {
    if |r.doneOrder| <= DONE_MAX then r
    else Trim(r.(doneOrder := r.doneOrder[1..], done := r.done - {r.doneOrder[0]}))
  }

  function MarkDone(r: Rx, id: u16, now: int): Rx {
    Trim(r.(doneOrder := if id in r.done then r.doneOrder else r.doneOrder + [id], done := r.done[id := now]))
  }

  /** A block that was first seen no later than any other. */
  predicate IsOldest(blocks: map<u16, RxBlock>, id: u16) {
    id in blocks && forall j :: j in blocks ==> blocks[id].firstSeen <= blocks[j].firstSeen
  }

  /** Make room for a new block; `victim` is the open block given up if the table is full. */
  function OpenBlock(r: Rx, h: Head, now: int, victim: u16): Rx {
    var s := if |r.blocks| >= BLOCK_MAX then r.(blocks := r.blocks - {victim}, fails := r.fails + 1) else r;
    s.(blocks := s.blocks[h.block := RxBlock(h.k, h.n, map[], now)])
  }

  /** Decode a complete block and finish its id. */
  function Finish(L: Isal, r: Rx, id: u16, b: RxBlock, now: int): (Rx, seq<seq<byte>>)
    requires Sound(L)
  {
    var d := DecodeBlock(L, b.k, b.n, b.frags);
    var s := MarkDone(r.(blocks := r.blocks - {id}), id, now);
    if d.None? then (s.(fails := s.fails + 1), [])
    else (s.(recovered := s.recovered + d.value.recovered, decoded := s.decoded + 1), d.value.payloads)
  }

  /** Add one shard to its open block. */
  function AddShard(L: Isal, r: Rx, h: Head, body: seq<byte>, now: int): (Rx, seq<seq<byte>>)
    requires Sound(L) && h.block in r.blocks
  {
    var b := r.blocks[h.block];
    if h.index in b.frags then (r, [])
    else
      var c := b.(frags := b.frags[h.index := body]);
      if |c.frags| < h.k then (r.(blocks := r.blocks[h.block := c]), [])
      else Finish(L, r, h.block, c, now)
  }

  /** Handle one shard whose header was readable, after expiry. */
  function TakeShard(L: Isal, r: Rx, h: Head, body: seq<byte>, now: int, victim: u16): (Rx, seq<seq<byte>>)
    requires Sound(L)
  {
    if h.block in r.done then (r, [])
    else if h.block !in r.blocks then AddShard(L, OpenBlock(r, h, now, victim), h, body, now)
    else if r.blocks[h.block].k != h.k || r.blocks[h.block].n != h.n then (r.(fails := r.fails + 1), [])
    else AddShard(L, r, h, body, now)
  }

  /** One datagram from the air: the new table and what is handed to the application. */
  function PushAir(L: Isal, r: Rx, data: seq<byte>, now: int, victim: u16): (Rx, seq<seq<byte>>)
    requires Sound(L)
  {
    if data == [] then (r, [])
    else if data[0] != MAGIC then (r, [data])
    else
      var e := Expire(r, now);
      var h := UnpackHeader(data);
      if h.None? then (e.(fails := e.fails + 1), [])
      else TakeShard(L, e, h.value, data[HEADER_LEN..], now, victim)
  }

  /** The victim of the eviction scan matters only when a new block meets a full table. */
  ghost predicate VictimFor(r: Rx, id: u16, victim: u16) {
    id !in r.done && id !in r.blocks && |r.blocks| >= BLOCK_MAX ==> IsOldest(r.blocks, victim)
  }

  ghost predicate VictimOk(r: Rx, data: seq<byte>, now: int, victim: u16) {
    var h := UnpackHeader(data);
    h.Some? ==> VictimFor(Expire(r, now), h.value.block, victim)
  }

  // ---- Table invariant -------------------------------------------------

  ghost predicate BlockOk(b: RxBlock, now: int) {
    && Params(b.k, b.n) && 0 < |b.frags| < b.k && InRange(b.frags, b.n) && b.firstSeen <= now
  }

  /** Distinct finished ids in the order they finished, with their times ascending. */
  ghost predicate QueueOk(order: seq<u16>, done: map<u16, int>, now: int) {
    && (forall i, j :: 0 <= i < j < |order| ==> order[i] != order[j])
    && (forall i :: 0 <= i < |order| ==> order[i] in done && done[order[i]] <= now)
    && (forall id :: id in done ==> id in order)
    && (forall i, j :: 0 <= i < j < |order| && order[i] in done && order[j] in done
          ==> done[order[i]] <= done[order[j]])
  }

  ghost predicate TableOk(r: Rx, now: int) {
    && |r.blocks| <= BLOCK_MAX
    && (forall id :: id in r.blocks ==> BlockOk(r.blocks[id], now) && id !in r.done)
    && |r.doneOrder| <= DONE_MAX
    && QueueOk(r.doneOrder, r.done, now)
  }

  lemma QueueTail(order: seq<u16>, done: map<u16, int>, now: int)
    requires QueueOk(order, done, now) && order != []
    ensures QueueOk(order[1..], done - {order[0]}, now)
  {
    var o, d := order[1..], done - {order[0]};
    forall id | id in d ensures id in o {
      var i :| 0 <= i < |order| && order[i] == id;
      assert order[i] == o[i - 1];
    }
  }

  lemma QueueSnoc(order: seq<u16>, done: map<u16, int>, id: u16, now: int)
    requires QueueOk(order, done, now) && id !in done
    ensures QueueOk(order + [id], done[id := now], now)
  {
    var o := order + [id];
    forall j | j in done[id := now] ensures j in o {
      if j == id { assert o[|order|] == id; }
    }
  }

  /** Times ascend along the queue, so when the front may stay everything may. */
  lemma FrontDecides(order: seq<u16>, done: map<u16, int>, now: int, hold: int)
    requires QueueOk(order, done, now) && order != [] && now - done[order[0]] <= hold
    ensures forall j :: j in done ==> now - done[j] <= hold
  {
    forall j | j in done ensures now - done[j] <= hold {
      assert j in order;
      var k :| 0 <= k < |order| && order[k] == j;
    }
  }

  lemma EmptyQueue(done: map<u16, int>, now: int)
    requires QueueOk([], done, now)
    ensures forall j :: j !in done
  {
    forall j ensures j !in done { assert j in done ==> j in []; }
  }

  lemma FrontDone(order: seq<u16>, done: map<u16, int>, now: int)
    requires QueueOk(order, done, now) && order != []
    ensures order[0] in done
  {
  }

  /** The scan from the front removes exactly the finished ids that are too old. */
  lemma {:induction false} ExpireDoneExact(r: Rx, now: int)
    requires QueueOk(r.doneOrder, r.done, now)
    ensures var e := ExpireDone(r, now);
            && QueueOk(e.doneOrder, e.done, now) && |e.doneOrder| <= |r.doneOrder|
            && e == r.(doneOrder := e.doneOrder, done := e.done)
            && (forall id :: id in e.done <==> id in r.done && now - r.done[id] <= DoneHold(r.timeoutMs))
            && (forall id :: id in e.done ==> e.done[id] == r.done[id])
    decreases |r.doneOrder|
  {
    hide QueueOk;
    hide DoneHold;
    if r.doneOrder == [] {
      EmptyQueue(r.done, now);
    } else {
      var id := r.doneOrder[0];
      FrontDone(r.doneOrder, r.done, now);
      if now - r.done[id] <= DoneHold(r.timeoutMs) {
        FrontDecides(r.doneOrder, r.done, now, DoneHold(r.timeoutMs));
      } else {
        QueueTail(r.doneOrder, r.done, now);
        ExpireDoneExact(r.(doneOrder := r.doneOrder[1..], done := r.done - {id}), now);
      }
    }
  }

  lemma {:induction false} ExpireDoneBlocks(r: Rx, now: int)
    ensures ExpireDone(r, now).blocks == r.blocks && ExpireDone(r, now).timeoutMs == r.timeoutMs
    ensures forall id :: id in ExpireDone(r, now).done ==> id in r.done
    decreases |r.doneOrder|
  {
    if r.doneOrder != [] {
      var id := r.doneOrder[0];
      if id !in r.done {
        ExpireDoneBlocks(r.(doneOrder := r.doneOrder[1..]), now);
      } else if now - r.done[id] > DoneHold(r.timeoutMs) {
        ExpireDoneBlocks(r.(doneOrder := r.doneOrder[1..], done := r.done - {id}), now);
      }
    }
  }

  lemma MapSize(m: map<u16, RxBlock>, gone: set<u16>)
    ensures |m - gone| <= |m|
    ensures forall id :: id in gone && id in m ==> |m - gone| < |m|
  {
    assert (m - gone).Keys == m.Keys - gone;
    Subset(m.Keys - gone, m.Keys);
    if exists id :: id in gone && id in m {
      var id :| id in gone && id in m;
      Subset(m.Keys - gone, m.Keys - {id});
    }
  }

  lemma {:induction false} Subset(a: set<u16>, b: set<u16>)
    requires a <= b
    ensures |a| <= |b|
  {
    if a != {} {
      var x :| x in a;
      Subset(a - {x}, b - {x});
    }
  }

  /** Expiry keeps the table, and removes exactly what is too old. */
  lemma ExpireKeeps(r: Rx, before: int, now: int)
    requires TableOk(r, before) && before <= now
    ensures var e := Expire(r, now);
            && TableOk(e, now)
            && (forall id :: id in e.done <==> id in r.done && now - r.done[id] <= DoneHold(r.timeoutMs))
            && (forall id :: id in e.blocks <==> id in r.blocks && !Stale(r.blocks[id], r.timeoutMs, now))
            && (forall id :: id in e.blocks ==> e.blocks[id] == r.blocks[id])
            && e.timeoutMs == r.timeoutMs
  {
    assert QueueOk(r.doneOrder, r.done, now);
    ExpireDoneExact(r, now);
    var d := ExpireDone(r, now);
    MapSize(r.blocks, StaleIds(d, now));
    hide QueueOk;
    hide ExpireDone;
  }

  lemma MarkDoneKeeps(r: Rx, id: u16, now: int)
    requires QueueOk(r.doneOrder, r.done, now) && |r.doneOrder| <= DONE_MAX && id !in r.done
    ensures var m := MarkDone(r, id, now);
            && QueueOk(m.doneOrder, m.done, now) && |m.doneOrder| <= DONE_MAX
            && m == r.(doneOrder := m.doneOrder, done := m.done)
            && (forall j :: j in m.done ==> j == id || j in r.done)
            && id in m.done
            && (|r.doneOrder| < DONE_MAX ==>
                  m.doneOrder == r.doneOrder + [id] && m.done == r.done[id := now])
  {
    QueueSnoc(r.doneOrder, r.done, id, now);
    var o, d := r.doneOrder + [id], r.done[id := now];
    if |o| > DONE_MAX {
      QueueTail(o, d, now);
      assert o[1..][|o| - 2] == id;
      assert o[1..][|o| - 2] in d - {o[0]};
      var t := r.(doneOrder := o[1..], done := d - {o[0]});
      assert Trim(t) == t;
    }
  }

  /** Counters aside, finishing a block is removing it and marking its id. */
  ghost predicate SameTable(a: Rx, b: Rx) {
    a.blocks == b.blocks && a.doneOrder == b.doneOrder && a.done == b.done && a.timeoutMs == b.timeoutMs
  }

  lemma FinishShape(L: Isal, r: Rx, id: u16, b: RxBlock, now: int)
    requires Sound(L)
    ensures SameTable(Finish(L, r, id, b, now).0, MarkDone(r.(blocks := r.blocks - {id}), id, now))
  {
    hide Sound;
    hide DecodeBlock;
    hide MarkDone;
  }

  lemma FinishKeeps(L: Isal, r: Rx, id: u16, b: RxBlock, now: int)
    requires Sound(L) && TableOk(r.(blocks := r.blocks - {id}), now) && id !in r.done
    ensures TableOk(Finish(L, r, id, b, now).0, now)
    ensures id in Finish(L, r, id, b, now).0.done
    ensures Finish(L, r, id, b, now).0.timeoutMs == r.timeoutMs
  {
    FinishShape(L, r, id, b, now);
    var f := Finish(L, r, id, b, now).0;
    hide Finish;
    MarkDoneKeeps(r.(blocks := r.blocks - {id}), id, now);
    hide QueueOk;
    hide MarkDone;
    hide Sound;
    hide BlockOk;
  }

  lemma GrowBlock(r: Rx, id: u16, c: RxBlock, now: int)
    requires id in r.blocks && id !in r.done && |r.blocks| <= BLOCK_MAX && BlockOk(c, now)
    requires TableOk(r.(blocks := r.blocks - {id}), now)
    ensures TableOk(r.(blocks := r.blocks[id := c]), now)
  {
    var s := r.(blocks := r.blocks[id := c]);
    assert s.blocks.Keys == r.blocks.Keys;
    assert forall j :: j in s.blocks && j != id ==> j in r.blocks - {id};
    hide QueueOk;
    hide BlockOk;
  }

  lemma OneMore(b: RxBlock, index: nat, body: seq<byte>, now: int)
    requires Params(b.k, b.n) && index < b.n && index !in b.frags && InRange(b.frags, b.n)
    requires |b.frags| < b.k && b.firstSeen <= now
    ensures var c := b.(frags := b.frags[index := body]);
            && |c.frags| == |b.frags| + 1 && InRange(c.frags, b.n)
            && (|c.frags| < b.k ==> BlockOk(c, now))
  {
    var c := b.(frags := b.frags[index := body]);
    assert c.frags.Keys == b.frags.Keys + {index};
  }

  lemma ShardKeeps(L: Isal, r: Rx, h: Head, body: seq<byte>, now: int)
    requires Sound(L) && h.block in r.blocks && h.block !in r.done && |r.blocks| <= BLOCK_MAX
    requires TableOk(r.(blocks := r.blocks - {h.block}), now)
    requires var b := r.blocks[h.block];
             && b.k == h.k && b.n == h.n && Params(h.k, h.n) && h.index < h.n
             && |b.frags| < b.k && InRange(b.frags, b.n) && b.firstSeen <= now
    requires h.index in r.blocks[h.block].frags ==> |r.blocks[h.block].frags| > 0
    ensures TableOk(AddShard(L, r, h, body, now).0, now)
    ensures AddShard(L, r, h, body, now).0.timeoutMs == r.timeoutMs
  {
    hide Sound;
    hide TableOk;
    hide Finish;
    var b := r.blocks[h.block];
    assert h.index in b.frags ==> BlockOk(b, now);
    if h.index !in b.frags { OneMore(b, h.index, body, now); }
    hide BlockOk;
    hide InRange;
    if h.index in b.frags {
      GrowBlock(r, h.block, b, now);
      assert r.blocks[h.block := b] == r.blocks;
    } else {
      var c := b.(frags := b.frags[h.index := body]);
      if |c.frags| < h.k {
        GrowBlock(r, h.block, c, now);
      } else {
        FinishKeeps(L, r, h.block, c, now);
      }
    }
  }

  lemma DropBlocks(r: Rx, gone: set<u16>, fails: nat, now: int)
    requires TableOk(r, now)
    ensures TableOk(r.(blocks := r.blocks - gone, fails := fails), now)
  {
    MapSize(r.blocks, gone);
    hide QueueOk;
    hide BlockOk;
  }

  lemma Reopen(blocks: map<u16, RxBlock>, id: u16, b: RxBlock)
    requires id !in blocks
    ensures blocks[id := b] - {id} == blocks
    ensures |blocks[id := b]| == |blocks| + 1
  {
    assert blocks[id := b].Keys == blocks.Keys + {id};
  }

  lemma OpenKeeps(r: Rx, h: Head, now: int, victim: u16)
    requires TableOk(r, now) && h.block !in r.blocks && (|r.blocks| >= BLOCK_MAX ==> victim in r.blocks)
    ensures var s := OpenBlock(r, h, now, victim);
            && h.block in s.blocks && s.blocks[h.block] == RxBlock(h.k, h.n, map[], now)
            && |s.blocks| <= BLOCK_MAX && s.done == r.done && s.timeoutMs == r.timeoutMs
            && TableOk(s.(blocks := s.blocks - {h.block}), now)
  {
    hide QueueOk;
    hide BlockOk;
    assert |r.blocks| <= BLOCK_MAX;
    var full := |r.blocks| >= BLOCK_MAX;
    var e := if full then r.blocks - {victim} else r.blocks;
    var s := OpenBlock(r, h, now, victim);
    MapSize(r.blocks, {victim});
    DropBlocks(r, if full then {victim} else {}, s.fails, now);
    hide TableOk;
    assert r.blocks - {} == r.blocks;
    Reopen(e, h.block, RxBlock(h.k, h.n, map[], now));
  }

  lemma TakeKeeps(L: Isal, r: Rx, h: Head, body: seq<byte>, now: int, victim: u16)
    requires Sound(L) && TableOk(r, now) && Params(h.k, h.n) && h.index < h.n
    requires VictimFor(r, h.block, victim)
    ensures TableOk(TakeShard(L, r, h, body, now, victim).0, now)
    ensures TakeShard(L, r, h, body, now, victim).0.timeoutMs == r.timeoutMs
  {
    hide Sound;
    hide AddShard;
    hide OpenBlock;
    if h.block in r.done {
    } else if h.block !in r.blocks {
      OpenKeeps(r, h, now, victim);
      hide TableOk;
      ShardKeeps(L, OpenBlock(r, h, now, victim), h, body, now);
    } else if r.blocks[h.block].k == h.k && r.blocks[h.block].n == h.n {
      MapSize(r.blocks, {h.block});
      assert TableOk(r.(blocks := r.blocks - {h.block}), now) by { hide QueueOk; hide BlockOk; }
      assert BlockOk(r.blocks[h.block], now);
      ShardKeeps(L, r, h, body, now);
    }
    hide QueueOk;
    hide BlockOk;
  }

  lemma HeadLegal(data: seq<byte>)
    requires UnpackHeader(data).Some?
    ensures var h := UnpackHeader(data).value; Params(h.k, h.n) && h.index < h.n
  {
  }

  lemma FailKeeps(r: Rx, now: int)
    requires TableOk(r, now)
    ensures TableOk(r.(fails := r.fails + 1), now)
  {
    hide QueueOk;
    hide BlockOk;
  }

  lemma LaterKeeps(r: Rx, before: int, now: int)
    requires TableOk(r, before) && before <= now
    ensures TableOk(r, now)
  {
    hide InRange;
  }

  /** Every datagram, whatever it holds, keeps the table: at most 64 open blocks, each short
      of its k shards with all indices below n, open and finished ids apart, the finished
      queue free of duplicates, equal to the finished map and ordered by time. */
  lemma PushAirKeeps(L: Isal, r: Rx, data: seq<byte>, before: int, now: int, victim: u16)
    requires Sound(L) && TableOk(r, before) && before <= now && VictimOk(r, data, now, victim)
    ensures TableOk(PushAir(L, r, data, now, victim).0, now)
  {
    hide Sound;
    hide TakeShard;
    hide TableOk;
    hide Expire;
    hide VictimFor;
    LaterKeeps(r, before, now);
    if data != [] && data[0] == MAGIC {
      ExpireKeeps(r, before, now);
      FailKeeps(Expire(r, now), now);
      if UnpackHeader(data).Some? {
        HeadLegal(data);
        TakeKeeps(L, Expire(r, now), UnpackHeader(data).value, data[HEADER_LEN..], now, victim);
      }
      hide UnpackHeader;
    }
  }

  /** One datagram at a time, with the victim its eviction scan would pick. */
  datatype Datagram = Datagram(data: seq<byte>, now: int, victim: u16)

  function RxAfter(L: Isal, r: Rx, ds: seq<Datagram>): Rx
    requires Sound(L)
  {
    if ds == [] then r
    else PushAir(L, RxAfter(L, r, ds[..|ds| - 1]), ds[|ds| - 1].data, ds[|ds| - 1].now, ds[|ds| - 1].victim).0
  }

  function LastClock(start: int, ds: seq<Datagram>): int { if ds == [] then start else ds[|ds| - 1].now }

  /** The clock does not go back, and each victim is one the scan may pick. */
  ghost predicate Datagrams(L: Isal, r: Rx, start: int, ds: seq<Datagram>)
    requires Sound(L)
  {
    ds == []
    || (var before, d := ds[..|ds| - 1], ds[|ds| - 1];
        && Datagrams(L, r, start, before) && LastClock(start, before) <= d.now
        && VictimOk(RxAfter(L, r, before), d.data, d.now, d.victim))
  }

  /** In every reachable state, whatever datagrams came: at most 64 open blocks, each short of its
      k shards with all indices below n, open and finished ids apart, and the finished queue free
      of duplicates, equal to the finished map, at most 128 long and ordered by time. */
  lemma {:induction false} ReachableTable(L: Isal, timeoutMs: nat, start: int, ds: seq<Datagram>)
    requires Sound(L) && Datagrams(L, Rx(timeoutMs, map[], [], map[], 0, 0, 0), start, ds)
    ensures TableOk(RxAfter(L, Rx(timeoutMs, map[], [], map[], 0, 0, 0), ds), LastClock(start, ds))
  {
    hide Sound;
    hide PushAir;
    hide VictimOk;
    var r := Rx(timeoutMs, map[], [], map[], 0, 0, 0);
    if ds != [] {
      var before, d := ds[..|ds| - 1], ds[|ds| - 1];
      ReachableTable(L, timeoutMs, start, before);
      hide TableOk;
      PushAirKeeps(L, RxAfter(L, r, before), d.data, LastClock(start, before), d.now, d.victim);
    }
  }
}
