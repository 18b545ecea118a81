/** Encoder, radio channel and receiver together. The channel may drop, duplicate and
    reorder shards; every packet of a block of which k different shards arrive comes out
    exactly once. */
module FecLink {
  import opened Bytes
  import opened Gf
  import opened FecMatrix
  import opened FecCode
  import opened FecStream
  import opened FecReceiver

  /** Shard `index` of block number `block` reaches the receiver. */
  datatype Arrival = Arrival(block: nat, index: nat, now: int, victim: u16)

  /** The receiver with its history: which block number last used each wire id, which shards
      of each block have arrived, and what came out while handling them. */
  datatype Link = Link(r: Rx, owner: map<u16, nat>, seen: map<nat, set<nat>>, out: map<nat, seq<seq<byte>>>)
  {
    function Seen(b: nat): set<nat> { if b in seen then seen[b] else {} }
    function Out(b: nat): seq<seq<byte>> { if b in out then out[b] else [] }
  }

  function Id(b: nat): u16 { b % 65536 }

  /** The blocks on their way: any number of them, all in one code. */
  ghost predicate Sent(k: nat, n: nat, sent: seq<seq<seq<byte>>>) {
    Params(k, n) && forall b :: 0 <= b < |sent| ==> 1 <= |sent[b]| <= k && Fits(sent[b])
  }

  function ArrivalData(F: Field, k: nat, n: nat, sent: seq<seq<seq<byte>>>, a: Arrival): seq<byte>
    requires Sent(k, n, sent) && a.block < |sent| && a.index < n
  {
    Shard(F, sent[a.block], Id(a.block), k, n, a.index)
  }

  function Receive(L: Isal, k: nat, n: nat, sent: seq<seq<seq<byte>>>, l: Link, a: Arrival): Link
    requires Sound(L) && Sent(k, n, sent) && a.block < |sent| && a.index < n
  {
    var (r, out) := PushAir(L, l.r, ArrivalData(L.F, k, n, sent, a), a.now, a.victim);
    Link(r, l.owner[Id(a.block) := a.block], l.seen[a.block := l.Seen(a.block) + {a.index}],
         l.out[a.block := l.Out(a.block) + out])
  }

  /** No expiry, eviction or reuse of an id while its block is live: an arriving shard finds
      its id free if it is the first of its block, and its block's entry still there if not. */
  ghost predicate Live(k: nat, l: Link, a: Arrival) {
    var e := Expire(l.r, a.now);
    var id := Id(a.block);
    if l.Seen(a.block) == {} then id !in e.blocks && id !in e.done
    else
      && id in l.owner && l.owner[id] == a.block
      && (if |l.Seen(a.block)| < k then id in e.blocks else id in e.done)
  }

  /** An open block holds exactly the shards that have arrived. */
  ghost predicate Holds(F: Field, k: nat, n: nat, packets: seq<seq<byte>>, seen: set<nat>, b: RxBlock) {
    && b.k == k && b.n == n && b.frags.Keys == seen && |seen| < k && Fits(packets) && Params(k, n)
    && forall i :: i in b.frags ==> i < n && b.frags[i] == Body(F, packets, k, i)
  }

  ghost predicate LinkInv(F: Field, k: nat, n: nat, sent: seq<seq<seq<byte>>>, l: Link) {
    && Sent(k, n, sent)
    && (forall id :: id in l.owner ==> Id(l.owner[id]) == id)
    && (forall id :: id in l.r.blocks ==>
          && id !in l.r.done && id in l.owner && l.owner[id] < |sent|
          && Holds(F, k, n, sent[l.owner[id]], l.Seen(l.owner[id]), l.r.blocks[id]))
    && (forall b :: 0 <= b < |sent| ==>
          l.Out(b) == if |l.Seen(b)| >= k then NonEmpty(sent[b]) else [])
  }

  /** The receiver reads back the header that the encoder wrote, and the body behind it. */
  lemma ShardParts(F: Field, k: nat, n: nat, packets: seq<seq<byte>>, block: u16, i: nat)
    requires Params(k, n) && Fits(packets) && i < n
    ensures var d := Shard(F, packets, block, k, n, i);
            && d != [] && d[0] == MAGIC
            && UnpackHeader(d) == Some(Head(block, i, k, n, if i >= k then FLAG_PARITY else 0))
            && d[HEADER_LEN..] == Body(F, packets, k, i)
  {
    UnpackPack(block, i, k, n, if i >= k then FLAG_PARITY else 0, Body(F, packets, k, i));
  }

  /** Expiry only removes entries. */
  lemma ExpireOnlyRemoves(r: Rx, now: int)
    ensures var e := Expire(r, now);
            && (forall id :: id in e.blocks ==> id in r.blocks && e.blocks[id] == r.blocks[id])
            && (forall id :: id in e.done ==> id in r.done)
  {
    ExpireDoneBlocks(r, now);
  }

  lemma {:induction false} TrimBlocks(r: Rx)
    ensures Trim(r).blocks == r.blocks
    ensures forall id :: id in Trim(r).done ==> id in r.done
    decreases |r.doneOrder|
  {
    if |r.doneOrder| > DONE_MAX {
      TrimBlocks(r.(doneOrder := r.doneOrder[1..], done := r.done - {r.doneOrder[0]}));
    }
  }

  lemma FinishedBlock(L: Isal, k: nat, n: nat, packets: seq<seq<byte>>, r: Rx, id: u16, c: RxBlock, now: int)
    requires Sound(L) && ShardsOf(L.F, k, n, packets, c.frags) && c.k == k && c.n == n
    ensures var (s, out) := Finish(L, r, id, c, now);
            && out == NonEmpty(packets) && s.blocks == r.blocks - {id}
            && forall j :: j in s.done ==> j in r.done || j == id
  {
    DecodeEncoded(L, k, n, packets, c.frags);
    TrimBlocks(r.(blocks := r.blocks - {id}, doneOrder := if id in r.done then r.doneOrder else r.doneOrder + [id],
                  done := r.done[id := now]));
    hide Sound;
    hide DecodeBlock;
    hide Trim;
    hide NonEmpty;
  }

  lemma GrownBlock(F: Field, k: nat, n: nat, packets: seq<seq<byte>>, seen: set<nat>, b: RxBlock, i: nat)
    requires Holds(F, k, n, packets, seen, b) && i < n && i !in seen && 1 <= |packets| <= k
    ensures var c := b.(frags := b.frags[i := Body(F, packets, k, i)]);
            && c.frags.Keys == seen + {i} && |c.frags| == |seen + {i}|
            && (|c.frags| < k ==> Holds(F, k, n, packets, seen + {i}, c))
            && (|c.frags| >= k ==> ShardsOf(F, k, n, packets, c.frags))
  {
    hide Body;
    var c := b.(frags := b.frags[i := Body(F, packets, k, i)]);
    assert c.frags.Keys == seen + {i};
    assert |c.frags| == |c.frags.Keys|;
  }

  /** What one shard does to an entry that holds the shards seen so far. */
  lemma AddOne(L: Isal, k: nat, n: nat, packets: seq<seq<byte>>, seen: set<nat>, r: Rx, h: Head, now: int)
    requires Sound(L) && 1 <= |packets| <= k && h.block in r.blocks && h.k == k && h.index < n
    requires Holds(L.F, k, n, packets, seen, r.blocks[h.block])
    ensures var (s, out) := AddShard(L, r, h, Body(L.F, packets, k, h.index), now);
            && (forall id :: id != h.block && id in s.blocks ==> id in r.blocks && s.blocks[id] == r.blocks[id])
            && (forall id :: id in s.done ==> id in r.done || (id == h.block && |seen + {h.index}| >= k))
            && (|seen + {h.index}| < k ==>
                  && h.block in s.blocks && s.done == r.done && out == []
                  && Holds(L.F, k, n, packets, seen + {h.index}, s.blocks[h.block]))
            && (|seen + {h.index}| >= k ==> h.block !in s.blocks && out == NonEmpty(packets))
  {
    hide Sound;
    hide Finish;
    hide Body;
    hide NonEmpty;
    var b := r.blocks[h.block];
    var body := Body(L.F, packets, k, h.index);
    assert (h.index in b.frags <==> h.index in seen) && |seen| < k && b.k == k && b.n == n;
    if h.index in seen {
      assert seen + {h.index} == seen;
      assert AddShard(L, r, h, body, now) == (r, []);
    } else {
      GrownBlock(L.F, k, n, packets, seen, b, h.index);
      var c := b.(frags := b.frags[h.index := body]);
      hide Holds;
      if |c.frags| < k {
        assert AddShard(L, r, h, body, now) == (r.(blocks := r.blocks[h.block := c]), []);
      } else {
        assert AddShard(L, r, h, body, now) == Finish(L, r, h.block, c, now);
        hide AddShard;
        FinishedBlock(L, k, n, packets, r, h.block, c, now);
      }
    }
  }

  /** The outcome of one shard for the table `e` it meets. */
  ghost predicate Took(F: Field, k: nat, n: nat, packets: seq<seq<byte>>, seen: set<nat>, id: u16,
                       e: Rx, s: Rx, out: seq<seq<byte>>) {
    && (forall j :: j != id && j in s.blocks ==> j in e.blocks && s.blocks[j] == e.blocks[j])
    && (forall j :: j in s.done ==> j in e.done || (j == id && |seen| >= k))
    && (|seen| < k ==> id in s.blocks && id !in s.done && out == [] && Holds(F, k, n, packets, seen, s.blocks[id]))
    && (|seen| >= k ==> id !in s.blocks)
  }

  lemma TakeFirst(L: Isal, k: nat, n: nat, packets: seq<seq<byte>>, e: Rx, h: Head, now: int, victim: u16)
    requires Sound(L) && Params(k, n) && 1 <= |packets| <= k && Fits(packets) && h.k == k && h.n == n && h.index < n
    requires h.block !in e.blocks && h.block !in e.done
    ensures var (s, out) := TakeShard(L, e, h, Body(L.F, packets, k, h.index), now, victim);
            && Took(L.F, k, n, packets, {h.index}, h.block, e, s, out)
            && out == if 1 >= k then NonEmpty(packets) else []
  {
    hide Sound;
    hide Body;
    hide NonEmpty;
    hide AddShard;
    var o := OpenBlock(e, h, now, victim);
    assert forall j :: j in o.blocks && j != h.block ==> j in e.blocks && o.blocks[j] == e.blocks[j];
    assert Holds(L.F, k, n, packets, {}, o.blocks[h.block]);
    AddOne(L, k, n, packets, {}, o, h, now);
    assert {} + {h.index} == {h.index};
    hide Holds;
    hide OpenBlock;
  }

  lemma TakeNext(L: Isal, k: nat, n: nat, packets: seq<seq<byte>>, seen: set<nat>, e: Rx, h: Head, now: int,
                 victim: u16)
    requires Sound(L) && 1 <= |packets| <= k && h.k == k && h.n == n && h.index < n
    requires h.block in e.blocks && h.block !in e.done && Holds(L.F, k, n, packets, seen, e.blocks[h.block])
    ensures var (s, out) := TakeShard(L, e, h, Body(L.F, packets, k, h.index), now, victim);
            && Took(L.F, k, n, packets, seen + {h.index}, h.block, e, s, out)
            && out == if |seen + {h.index}| >= k then NonEmpty(packets) else []
  {
    hide Sound;
    hide Body;
    hide NonEmpty;
    hide AddShard;
    AddOne(L, k, n, packets, seen, e, h, now);
    assert e.blocks[h.block].k == k && e.blocks[h.block].n == n && Params(k, n);
    hide Holds;
  }

  /** Which block number an open entry belongs to decides what it holds. */
  lemma TakeAny(L: Isal, k: nat, n: nat, sent: seq<seq<seq<byte>>>, l: Link, a: Arrival, h: Head)
    requires Sound(L) && LinkInv(L.F, k, n, sent, l) && a.block < |sent| && a.index < n && Live(k, l, a)
    requires h.block == Id(a.block) && h.index == a.index && h.k == k && h.n == n
    ensures var e := Expire(l.r, a.now);
            var seen := l.Seen(a.block);
            var (s, out) := TakeShard(L, e, h, Body(L.F, sent[a.block], k, a.index), a.now, a.victim);
            && Took(L.F, k, n, sent[a.block], seen + {a.index}, h.block, e, s, out)
            && out == (if |seen + {a.index}| >= k && |seen| < k then NonEmpty(sent[a.block]) else [])
  {
    hide Sound;
    hide Body;
    hide NonEmpty;
    hide AddShard;
    hide Fits;
    var e := Expire(l.r, a.now);
    var seen := l.Seen(a.block);
    ExpireOnlyRemoves(l.r, a.now);
    hide Expire;
    if seen == {} {
      assert seen + {a.index} == {a.index};
      TakeFirst(L, k, n, sent[a.block], e, h, a.now, a.victim);
    } else if |seen| < k {
      TakeNext(L, k, n, sent[a.block], seen, e, h, a.now, a.victim);
    } else {
      MoreSeen(seen, a.index);
      assert h.block in l.r.done && h.block !in l.r.blocks;
      assert TakeShard(L, e, h, Body(L.F, sent[a.block], k, a.index), a.now, a.victim) == (e, []);
    }
  }

  lemma MoreSeen(seen: set<nat>, i: nat)
    ensures |seen + {i}| >= |seen|
    ensures i in seen ==> seen + {i} == seen
  {
    if i !in seen {
      assert |seen + {i}| == |seen| + 1;
    } else {
      assert seen + {i} == seen;
    }
  }

  function Updated(l: Link, a: Arrival, s: Rx, out: seq<seq<byte>>): Link {
    Link(s, l.owner[Id(a.block) := a.block], l.seen[a.block := l.Seen(a.block) + {a.index}],
         l.out[a.block := l.Out(a.block) + out])
  }

  lemma ReceiveShape(L: Isal, k: nat, n: nat, sent: seq<seq<seq<byte>>>, l: Link, a: Arrival)
    requires Sound(L) && Sent(k, n, sent) && a.block < |sent| && a.index < n
    ensures var h := Head(Id(a.block), a.index, k, n, if a.index >= k then FLAG_PARITY else 0);
            var (s, out) := TakeShard(L, Expire(l.r, a.now), h, Body(L.F, sent[a.block], k, a.index), a.now, a.victim);
            Receive(L, k, n, sent, l, a) == Updated(l, a, s, out)
  {
    ShardParts(L.F, k, n, sent[a.block], Id(a.block), a.index);
    hide Sound;
    hide TakeShard;
    hide UnpackHeader;
    hide Expire;
    hide Shard;
    hide Body;
  }

  lemma UpdateOpen(F: Field, k: nat, n: nat, sent: seq<seq<seq<byte>>>, l: Link, a: Arrival, e: Rx, s: Rx,
                   out: seq<seq<byte>>, id: u16)
    requires LinkInv(F, k, n, sent, l) && a.block < |sent| && id in s.blocks
    requires forall j :: j in e.blocks ==> j in l.r.blocks && e.blocks[j] == l.r.blocks[j]
    requires forall j :: j in e.done ==> j in l.r.done
    requires Took(F, k, n, sent[a.block], l.Seen(a.block) + {a.index}, Id(a.block), e, s, out)
    ensures var m := Updated(l, a, s, out);
            && id !in s.done && id in m.owner && m.owner[id] < |sent|
            && Holds(F, k, n, sent[m.owner[id]], m.Seen(m.owner[id]), s.blocks[id])
  {
    hide NonEmpty;
    hide Holds;
    hide Fits;
    var m := Updated(l, a, s, out);
    UpdatedSeen(l, a, s, out);
    if id != Id(a.block) {
      assert m.owner[id] == l.owner[id] && l.owner[id] != a.block;
      assert m.Seen(l.owner[id]) == l.Seen(l.owner[id]);
    }
  }

  lemma UpdateOut(F: Field, k: nat, n: nat, sent: seq<seq<seq<byte>>>, l: Link, a: Arrival, s: Rx,
                  out: seq<seq<byte>>, b: nat)
    requires LinkInv(F, k, n, sent, l) && a.block < |sent| && b < |sent|
    requires out == if |l.Seen(a.block) + {a.index}| >= k && |l.Seen(a.block)| < k then NonEmpty(sent[a.block]) else []
    ensures var m := Updated(l, a, s, out);
            m.Out(b) == if |m.Seen(b)| >= k then NonEmpty(sent[b]) else []
  {
    hide NonEmpty;
    hide Holds;
    MoreSeen(l.Seen(a.block), a.index);
    var m := Updated(l, a, s, out);
    UpdatedSeen(l, a, s, out);
    if b == a.block {
      assert m.Out(b) == l.Out(b) + out;
      assert [] + out == out && l.Out(b) + [] == l.Out(b);
    } else {
      assert m.Out(b) == l.Out(b);
    }
  }

  lemma UpdateKeeps(F: Field, k: nat, n: nat, sent: seq<seq<seq<byte>>>, l: Link, a: Arrival, e: Rx, s: Rx,
                    out: seq<seq<byte>>)
    requires LinkInv(F, k, n, sent, l) && a.block < |sent|
    requires forall id :: id in e.blocks ==> id in l.r.blocks && e.blocks[id] == l.r.blocks[id]
    requires forall id :: id in e.done ==> id in l.r.done
    requires Took(F, k, n, sent[a.block], l.Seen(a.block) + {a.index}, Id(a.block), e, s, out)
    requires out == if |l.Seen(a.block) + {a.index}| >= k && |l.Seen(a.block)| < k then NonEmpty(sent[a.block]) else []
    ensures LinkInv(F, k, n, sent, Updated(l, a, s, out))
  {
    hide NonEmpty;
    hide Holds;
    hide Fits;
    hide Took;
    forall id | id in s.blocks
      ensures id !in s.done && id in Updated(l, a, s, out).owner && Updated(l, a, s, out).owner[id] < |sent|
              && Holds(F, k, n, sent[Updated(l, a, s, out).owner[id]],
                       Updated(l, a, s, out).Seen(Updated(l, a, s, out).owner[id]), s.blocks[id])
    {
      UpdateOpen(F, k, n, sent, l, a, e, s, out, id);
    }
    forall b | 0 <= b < |sent|
      ensures Updated(l, a, s, out).Out(b) == if |Updated(l, a, s, out).Seen(b)| >= k then NonEmpty(sent[b]) else []
    {
      UpdateOut(F, k, n, sent, l, a, s, out, b);
    }
  }

  /** One arrival keeps the link: open entries hold exactly what has arrived, and a block has
      come out, whole and once, exactly if k of its shards have arrived. */
  lemma ReceiveKeeps(L: Isal, k: nat, n: nat, sent: seq<seq<seq<byte>>>, l: Link, a: Arrival)
    requires Sound(L) && LinkInv(L.F, k, n, sent, l) && a.block < |sent| && a.index < n && Live(k, l, a)
    ensures LinkInv(L.F, k, n, sent, Receive(L, k, n, sent, l, a))
    ensures Receive(L, k, n, sent, l, a).Seen(a.block) == l.Seen(a.block) + {a.index}
    ensures forall b :: b != a.block ==> Receive(L, k, n, sent, l, a).Seen(b) == l.Seen(b)
  {
    var h := Head(Id(a.block), a.index, k, n, if a.index >= k then FLAG_PARITY else 0);
    ReceiveShape(L, k, n, sent, l, a);
    TakeAny(L, k, n, sent, l, a, h);
    ExpireOnlyRemoves(l.r, a.now);
    var e := Expire(l.r, a.now);
    var (s, out) := TakeShard(L, e, h, Body(L.F, sent[a.block], k, a.index), a.now, a.victim);
    hide *;
    UpdateKeeps(L.F, k, n, sent, l, a, e, s, out);
    UpdatedSeen(l, a, s, out);
  }

  lemma UpdatedSeen(l: Link, a: Arrival, s: Rx, out: seq<seq<byte>>)
    ensures Updated(l, a, s, out).Seen(a.block) == l.Seen(a.block) + {a.index}
    ensures forall b :: b != a.block ==> Updated(l, a, s, out).Seen(b) == l.Seen(b)
  {
  }

  // ---- Whole runs ------------------------------------------------------

  function Start(timeoutMs: nat): Link {
    Link(Rx(timeoutMs, map[], [], map[], 0, 0, 0), map[], map[], map[])
  }

  ghost predicate Delivers(L: Isal, k: nat, n: nat, sent: seq<seq<seq<byte>>>, l: Link, run: seq<Arrival>)
    requires Sound(L)
    decreases |run|
  {
    && Sent(k, n, sent)
    && (run == [] ||
        var a := run[0];
        && a.block < |sent| && a.index < n && Live(k, l, a)
        && Delivers(L, k, n, sent, Receive(L, k, n, sent, l, a), run[1..]))
  }

  function After(L: Isal, k: nat, n: nat, sent: seq<seq<seq<byte>>>, l: Link, run: seq<Arrival>): Link
    requires Sound(L) && Delivers(L, k, n, sent, l, run)
    decreases |run|
  {
    if run == [] then l else After(L, k, n, sent, Receive(L, k, n, sent, l, run[0]), run[1..])
  }

  /** The different shards of block `b` among the arrivals. */
  function Arrived(run: seq<Arrival>, b: nat): set<nat> {
    set a | a in run && a.block == b :: a.index
  }

  lemma {:induction false} RunKeeps(L: Isal, k: nat, n: nat, sent: seq<seq<seq<byte>>>, l: Link, run: seq<Arrival>)
    requires Sound(L) && Delivers(L, k, n, sent, l, run) && LinkInv(L.F, k, n, sent, l)
    ensures LinkInv(L.F, k, n, sent, After(L, k, n, sent, l, run))
    decreases |run|
  {
    hide Sound;
    hide LinkInv;
    hide Receive;
    hide Sent;
    hide Live;
    if run != [] {
      ReceiveKeeps(L, k, n, sent, l, run[0]);
      RunKeeps(L, k, n, sent, Receive(L, k, n, sent, l, run[0]), run[1..]);
    }
  }

  lemma ReceiveSeen(L: Isal, k: nat, n: nat, sent: seq<seq<seq<byte>>>, l: Link, a: Arrival, b: nat)
    requires Sound(L) && Sent(k, n, sent) && a.block < |sent| && a.index < n
    ensures Receive(L, k, n, sent, l, a).Seen(b) == l.Seen(b) + if a.block == b then {a.index} else {}
  {
    hide Sound;
    hide PushAir;
    hide Shard;
  }

  lemma {:induction false} RunSeen(L: Isal, k: nat, n: nat, sent: seq<seq<seq<byte>>>, l: Link, run: seq<Arrival>,
                                  b: nat)
    requires Sound(L) && Delivers(L, k, n, sent, l, run)
    ensures After(L, k, n, sent, l, run).Seen(b) == l.Seen(b) + Arrived(run, b)
    decreases |run|
  {
    hide Sound;
    hide Receive;
    hide Sent;
    hide Live;
    hide Arrived;
    if run == [] {
      assert Arrived(run, b) == {} by { NoneArrived(b); }
    } else {
      ReceiveSeen(L, k, n, sent, l, run[0], b);
      RunSeen(L, k, n, sent, Receive(L, k, n, sent, l, run[0]), run[1..], b);
      ArrivedCons(run, b);
    }
  }

  lemma NoneArrived(b: nat)
    ensures Arrived([], b) == {}
  {
  }

  lemma ArrivedCons(run: seq<Arrival>, b: nat)
    requires run != []
    ensures Arrived(run, b) == (if run[0].block == b then {run[0].index} else {}) + Arrived(run[1..], b)
  {
    var rest := run[1..];
    assert run == [run[0]] + rest;
    forall i | i in Arrived(run, b)
      ensures i in (if run[0].block == b then {run[0].index} else {}) + Arrived(rest, b)
    {
      var a :| a in run && a.block == b && a.index == i;
      if a in rest {
        assert i in Arrived(rest, b);
      }
    }
    forall i | i in Arrived(rest, b) ensures i in Arrived(run, b) {
      var a :| a in rest && a.block == b && a.index == i;
      assert a in run;
    }
  }

  /** What comes out for blocks 0..m, block by block. */
  function AllOut(l: Link, m: nat): seq<seq<byte>> {
    if m == 0 then [] else AllOut(l, m - 1) + l.Out(m - 1)
  }

  lemma Assoc(x: seq<seq<byte>>, y: seq<seq<byte>>, z: seq<seq<byte>>)
    ensures (x + y) + z == x + (y + z)
  {
  }

  lemma {:induction false} NonEmptyAppend(a: seq<seq<byte>>, b: seq<seq<byte>>)
    ensures NonEmpty(a + b) == NonEmpty(a) + NonEmpty(b)
  {
    if a == [] {
      assert a + b == b && [] + NonEmpty(b) == NonEmpty(b);
    } else {
      NonEmptyAppend(a[1..], b);
      assert (a + b)[1..] == a[1..] + b && (a + b)[0] == a[0];
      Assoc(if a[0] == [] then [] else [a[0]], NonEmpty(a[1..]), NonEmpty(b));
    }
  }

  lemma {:induction false} AllOutIs(F: Field, k: nat, n: nat, sent: seq<seq<seq<byte>>>, l: Link, m: nat)
    requires LinkInv(F, k, n, sent, l) && m <= |sent|
    requires forall b :: 0 <= b < m ==> |l.Seen(b)| >= k
    ensures AllOut(l, m) == NonEmpty(Packets(sent[..m]))
  {
    if m > 0 {
      AllOutIs(F, k, n, sent, l, m - 1);
      assert sent[..m][..m - 1] == sent[..m - 1];
      NonEmptyAppend(Packets(sent[..m - 1]), sent[m - 1]);
    }
  }

  /** End to end. Blocks sent by the encoder cross a channel that reorders, duplicates and
      drops shards. Each block comes out exactly once, whole and in order, if at least k of
      its shards arrive, and not at all otherwise; if that is so for every block, what has
      come out, block by block, is every non-empty packet the encoder accepted and has sent. */
  lemma EndToEnd(L: Isal, e: EncRun, timeoutMs: nat, run: seq<Arrival>)
    requires Sound(L) && EncInv(L.F, e)
    requires Delivers(L, e.e.k, e.e.n, e.sent, Start(timeoutMs), run)
    ensures var l := After(L, e.e.k, e.e.n, e.sent, Start(timeoutMs), run);
            && (forall b :: 0 <= b < |e.sent| ==>
                  l.Out(b) == if |Arrived(run, b)| >= e.e.k then NonEmpty(e.sent[b]) else [])
            && ((forall b :: 0 <= b < |e.sent| ==> |Arrived(run, b)| >= e.e.k) ==>
                  AllOut(l, |e.sent|) + NonEmpty(e.e.pending) == NonEmpty(e.accepted))
  {
    hide Sound;
    SentBlocks(L.F, e);
    var l0 := Start(timeoutMs);
    assert LinkInv(L.F, e.e.k, e.e.n, e.sent, l0);
    RunKeeps(L, e.e.k, e.e.n, e.sent, l0, run);
    hide Delivers;
    hide Arrived;
    hide LinkInv;
    hide EncInv;
    var l := After(L, e.e.k, e.e.n, e.sent, l0, run);
    forall b ensures l.Seen(b) == Arrived(run, b) {
      RunSeen(L, e.e.k, e.e.n, e.sent, l0, run, b);
      assert l0.Seen(b) + Arrived(run, b) == Arrived(run, b);
    }
    hide After;
    EachOut(L.F, e.e.k, e.e.n, e.sent, l);
    if forall b :: 0 <= b < |e.sent| ==> |Arrived(run, b)| >= e.e.k {
      AllDelivered(L.F, e, l);
    }
    hide AllOut;
    hide NonEmpty;
  }

  lemma AllDelivered(F: Field, e: EncRun, l: Link)
    requires EncInv(F, e) && LinkInv(F, e.e.k, e.e.n, e.sent, l)
    requires forall b :: 0 <= b < |e.sent| ==> |l.Seen(b)| >= e.e.k
    ensures AllOut(l, |e.sent|) + NonEmpty(e.e.pending) == NonEmpty(e.accepted)
  {
    hide LinkInv;
    AllOutIs(F, e.e.k, e.e.n, e.sent, l, |e.sent|);
    assert e.sent[..|e.sent|] == e.sent;
    SentBlocks(F, e);
    NonEmptyAppend(Packets(e.sent), e.e.pending);
  }

  lemma EachOut(F: Field, k: nat, n: nat, sent: seq<seq<seq<byte>>>, l: Link)
    requires LinkInv(F, k, n, sent, l)
    ensures forall b :: 0 <= b < |sent| ==> l.Out(b) == if |l.Seen(b)| >= k then NonEmpty(sent[b]) else []
  {
    hide NonEmpty;
  }

  lemma SentBlocks(F: Field, e: EncRun)
    requires EncInv(F, e)
    ensures Sent(e.e.k, e.e.n, e.sent) && Packets(e.sent) + e.e.pending == e.accepted
  {
  }
}
