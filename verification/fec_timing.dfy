/** When a channel is good enough, told from the arrivals alone: which shard of which block came
    when. The receiver's table never has to be looked at. */
module FecTiming {
  import opened Bytes
  import opened Gf
  import opened FecMatrix
  import opened FecCode
  import opened FecStream
  import opened FecReceiver
  import opened FecLink

  /** Notes on the arrivals so far: the block that last used each wire id, the shards of each
      block, when its first one came, the blocks completed in that order, and when. */
  datatype Book = Book(owner: map<u16, nat>, seen: map<nat, set<nat>>, first: map<nat, int>, done: seq<nat>,
                       doneAt: map<nat, int>, clock: int)
  {
    function Seen(b: nat): set<nat> { if b in seen then seen[b] else {} }
    function First(b: nat): int { if b in first then first[b] else 0 }
    function DoneAt(b: nat): int { if b in doneAt then doneAt[b] else 0 }
  }

  predicate Completes(k: nat, g: Book, a: Arrival) { |g.Seen(a.block)| < k <= |g.Seen(a.block) + {a.index}| }

  function Note(k: nat, g: Book, a: Arrival): Book {
    var seen := g.Seen(a.block);
    Book(g.owner[Id(a.block) := a.block], g.seen[a.block := seen + {a.index}],
         if seen == {} then g.first[a.block := a.now] else g.first,
         if Completes(k, g, a) then g.done + [a.block] else g.done,
         if Completes(k, g, a) then g.doneAt[a.block := a.now] else g.doneAt, a.now)
  }

  /** The block was completed, not too long ago and not too many completions ago. */
  predicate Remembered(ms: nat, g: Book, b: nat, now: int) {
    now - g.DoneAt(b) <= DoneHold(ms) && exists p :: 0 <= p < |g.done| && g.done[p] == b && |g.done| - p <= DONE_MAX
  }

  /** Nothing is left of the block: its id may be used again. */
  predicate Forgotten(k: nat, ms: nat, g: Book, b: nat, now: int) {
    if |g.Seen(b)| < k then now - g.First(b) > RxHold(ms) else !Remembered(ms, g, b, now)
  }

  /** Blocks begun but not complete, of which the first shard is not too old. */
  function Pending(k: nat, ms: nat, g: Book, now: int): set<nat> {
    set b | b in g.seen && |g.seen[b]| < k && now - g.First(b) <= RxHold(ms)
  }

  /** The clock does not go back; a new block finds its id forgotten and fewer than 64 others
      pending; a shard of a block begun comes before the block is given up or forgotten. */
  predicate OnTime(k: nat, ms: nat, g: Book, a: Arrival) {
    && g.clock <= a.now
    && if g.Seen(a.block) == {} then
         && (Id(a.block) in g.owner ==> Forgotten(k, ms, g, g.owner[Id(a.block)], a.now))
         && |Pending(k, ms, g, a.now)| < BLOCK_MAX
       else
         && Id(a.block) in g.owner && g.owner[Id(a.block)] == a.block
         && if |g.Seen(a.block)| < k then a.now - g.First(a.block) <= RxHold(ms) else Remembered(ms, g, a.block, a.now)
  }

  predicate AllOnTime(k: nat, ms: nat, g: Book, run: seq<Arrival>)
    decreases |run|
  {
    run == [] || (OnTime(k, ms, g, run[0]) && AllOnTime(k, ms, Note(k, g, run[0]), run[1..]))
  }

  // ---- The table against the notes ---------------------------------------

  ghost predicate OwnersOk(g: Book) {
    forall id :: id in g.owner ==> Id(g.owner[id]) == id && g.owner[id] in g.seen
  }

  /** An open entry is a block begun and not complete that still owns its id. */
  ghost predicate EntryOk(k: nat, r: Rx, g: Book, id: u16)
    requires id in r.blocks
  {
    id in g.owner && |g.Seen(g.owner[id])| < k && r.blocks[id].firstSeen == g.First(g.owner[id])
  }

  /** A block that owns its id is pending. */
  ghost predicate Waits(k: nat, ms: nat, g: Book, id: u16) {
    id in g.owner && |g.Seen(g.owner[id])| < k && g.clock - g.First(g.owner[id]) <= RxHold(ms)
  }

  ghost predicate OpenOk(k: nat, r: Rx, g: Book) {
    && (forall id :: id in r.blocks ==> EntryOk(k, r, g, id))
    && (forall id :: Waits(k, r.timeoutMs, g, id) ==> id in r.blocks)
  }

  /** Completion number p is in the queue, at its place from the end. */
  ghost predicate Queued(r: Rx, g: Book, p: int) {
    var i := p - (|g.done| - |r.doneOrder|);
    && 0 <= p < |g.done| && 0 <= i < |r.doneOrder|
    && r.doneOrder[i] == Id(g.done[p]) && Id(g.done[p]) in g.owner && g.owner[Id(g.done[p])] == g.done[p]
    && Id(g.done[p]) in r.done && r.done[Id(g.done[p])] == g.DoneAt(g.done[p])
  }

  ghost predicate LetGo(ms: nat, g: Book, p: int) {
    0 <= p < |g.done| && (|g.done| - p > DONE_MAX || g.clock - g.DoneAt(g.done[p]) > DoneHold(ms))
  }

  /** The queue is the last completions; the earlier ones are too many back or too old. */
  ghost predicate DoneOk(k: nat, r: Rx, g: Book) {
    && |r.doneOrder| <= |g.done|
    && (forall p :: |g.done| - |r.doneOrder| <= p < |g.done| ==> Queued(r, g, p))
    && (forall p :: 0 <= p < |g.done| - |r.doneOrder| ==> LetGo(r.timeoutMs, g, p))
    && (forall p :: 0 <= p < |g.done| ==> |g.Seen(g.done[p])| >= k)
  }

  ghost predicate Books(k: nat, r: Rx, g: Book) {
    TableOk(r, g.clock) && OwnersOk(g) && OpenOk(k, r, g) && DoneOk(k, r, g)
  }

  // ---- Expiry ------------------------------------------------------------

  /** Expiry drops a front of the queue. */
  lemma {:induction false} ExpireSuffix(r: Rx, now: int) returns (x: nat)
    ensures x <= |r.doneOrder| && ExpireDone(r, now).doneOrder == r.doneOrder[x..]
    decreases |r.doneOrder|
  {
    x := 0;
    if r.doneOrder != [] {
      var id := r.doneOrder[0];
      if id !in r.done {
        var y := ExpireSuffix(r.(doneOrder := r.doneOrder[1..]), now);
        x := y + 1;
      } else if now - r.done[id] > DoneHold(r.timeoutMs) {
        var y := ExpireSuffix(r.(doneOrder := r.doneOrder[1..], done := r.done - {id}), now);
        x := y + 1;
      }
    }
  }

  lemma AgeOpen(k: nat, r: Rx, e: Rx, g: Book, now: int)
    requires OpenOk(k, r, g) && g.clock <= now && e.timeoutMs == r.timeoutMs
    requires forall id :: id in e.blocks <==> id in r.blocks && !Stale(r.blocks[id], r.timeoutMs, now)
    requires forall id :: id in e.blocks ==> e.blocks[id] == r.blocks[id]
    ensures OpenOk(k, e, g.(clock := now))
  {
    hide RxHold;
    var h := g.(clock := now);
    forall id | id in e.blocks ensures EntryOk(k, e, h, id) { assert EntryOk(k, r, g, id); }
    forall id | Waits(k, e.timeoutMs, h, id) ensures id in e.blocks {
      assert Waits(k, r.timeoutMs, g, id);
      assert EntryOk(k, r, g, id);
    }
  }

  lemma DroppedOld(r: Rx, e: Rx, now: int, x: nat, i: nat)
    requires QueueOk(r.doneOrder, r.done, now) && QueueOk(e.doneOrder, e.done, now)
    requires x <= |r.doneOrder| && e.doneOrder == r.doneOrder[x..] && i < x
    requires forall id :: id in e.done <==> id in r.done && now - r.done[id] <= DoneHold(r.timeoutMs)
    ensures r.doneOrder[i] in r.done && now - r.done[r.doneOrder[i]] > DoneHold(r.timeoutMs)
  {
    hide DoneHold;
    forall j | 0 <= j < |e.doneOrder| ensures e.doneOrder[j] != r.doneOrder[i] {
      assert e.doneOrder[j] == r.doneOrder[x + j];
    }
  }

  lemma AgeDone(k: nat, r: Rx, e: Rx, g: Book, now: int, x: nat)
    requires DoneOk(k, r, g) && g.clock <= now && e.timeoutMs == r.timeoutMs
    requires QueueOk(r.doneOrder, r.done, now) && QueueOk(e.doneOrder, e.done, now)
    requires x <= |r.doneOrder| && e.doneOrder == r.doneOrder[x..]
    requires forall id :: id in e.done <==> id in r.done && now - r.done[id] <= DoneHold(r.timeoutMs)
    requires forall id :: id in e.done ==> e.done[id] == r.done[id]
    ensures DoneOk(k, e, g.(clock := now))
  {
    hide QueueOk;
    hide DoneHold;
    var m, h := |g.done| - |r.doneOrder|, g.(clock := now);
    forall p | m + x <= p < |g.done| ensures Queued(e, h, p) {
      assert Queued(r, g, p);
      assert e.doneOrder[p - (m + x)] == r.doneOrder[p - m];
      QueuedStays(e, e.doneOrder[p - (m + x)], now);
    }
    forall p | 0 <= p < m + x ensures LetGo(r.timeoutMs, h, p) {
      if p < m {
        assert LetGo(r.timeoutMs, g, p);
      } else {
        assert Queued(r, g, p);
        DroppedOld(r, e, now, x, p - m);
      }
    }
  }

  lemma QueuedStays(e: Rx, id: u16, now: int)
    requires QueueOk(e.doneOrder, e.done, now) && id in e.doneOrder
    ensures id in e.done
  {
  }

  lemma Age(k: nat, r: Rx, g: Book, now: int)
    requires Books(k, r, g) && g.clock <= now
    ensures Books(k, Expire(r, now), g.(clock := now))
  {
    hide OpenOk;
    hide DoneOk;
    hide QueueOk;
    hide BlockOk;
    hide ExpireDone;
    hide DoneHold;
    hide Stale;
    ExpireKeeps(r, g.clock, now);
    LaterKeeps(r, g.clock, now);
    ExpireDoneExact(r, now);
    var e := Expire(r, now);
    var x := ExpireSuffix(r, now);
    AgeOpen(k, r, e, g, now);
    AgeDone(k, r, e, g, now, x);
  }

  // ---- Live, from the arrivals -------------------------------------------

  /** What the table holds of a block that is on time. */
  ghost predicate Ready(k: nat, g: Book, e: Rx, b: nat) {
    if g.Seen(b) == {} then Id(b) !in e.blocks && Id(b) !in e.done
    else if |g.Seen(b)| < k then Id(b) in e.blocks && Id(b) !in e.done
    else Id(b) in e.done
  }

  /** A finished id belongs to a remembered block. */
  lemma DoneRemembered(k: nat, e: Rx, g: Book, id: u16) returns (p: nat)
    requires Books(k, e, g) && id in e.done && g.clock - e.done[id] <= DoneHold(e.timeoutMs)
    ensures p < |g.done| && Id(g.done[p]) == id && id in g.owner && g.owner[id] == g.done[p]
    ensures |g.Seen(g.done[p])| >= k && Remembered(e.timeoutMs, g, g.done[p], g.clock)
  {
    hide OpenOk;
    hide BlockOk;
    hide DoneHold;
    assert id in e.doneOrder;
    var i :| 0 <= i < |e.doneOrder| && e.doneOrder[i] == id;
    p := |g.done| - |e.doneOrder| + i;
    assert Queued(e, g, p);
  }

  lemma RememberedDone(k: nat, e: Rx, g: Book, b: nat)
    requires Books(k, e, g) && Remembered(e.timeoutMs, g, b, g.clock)
    ensures Id(b) in e.done
  {
    hide OpenOk;
    hide TableOk;
    hide DoneHold;
    var p :| 0 <= p < |g.done| && g.done[p] == b && |g.done| - p <= DONE_MAX;
    assert p < |g.done| - |e.doneOrder| ==> LetGo(e.timeoutMs, g, p);
    assert Queued(e, g, p);
  }

  /** No finished id is too old after expiry. */
  ghost predicate AllFresh(e: Rx, now: int) {
    && (forall id :: id in e.done ==> now - e.done[id] <= DoneHold(e.timeoutMs))
    && (forall id :: id in e.blocks ==> now - e.blocks[id].firstSeen <= RxHold(e.timeoutMs))
  }

  lemma ExpireFresh(r: Rx, before: int, now: int)
    requires TableOk(r, before) && before <= now
    ensures AllFresh(Expire(r, now), now) && Expire(r, now).timeoutMs == r.timeoutMs
  {
    hide RxHold;
    hide DoneHold;
    hide ExpireDone;
    ExpireDoneExact(r, now) by { LaterKeeps(r, before, now); hide BlockOk; }
    ExpireKeeps(r, before, now);
    hide TableOk;
  }

  /** An id in the table after expiry belongs to a block that is not forgotten. */
  lemma NotForgotten(k: nat, e: Rx, g: Book, id: u16)
    requires Books(k, e, g) && AllFresh(e, g.clock) && (id in e.blocks || id in e.done)
    ensures id in g.owner && !Forgotten(k, e.timeoutMs, g, g.owner[id], g.clock)
  {
    hide DoneOk;
    hide TableOk;
    hide RxHold;
    hide DoneHold;
    if id in e.blocks {
      assert EntryOk(k, e, g, id);
    } else {
      var p := DoneRemembered(k, e, g, id);
    }
  }

  lemma NewReady(k: nat, ms: nat, g: Book, e: Rx, a: Arrival)
    requires Books(k, e, g.(clock := a.now)) && AllFresh(e, a.now) && e.timeoutMs == ms
    requires OnTime(k, ms, g, a) && g.Seen(a.block) == {}
    ensures Ready(k, g, e, a.block)
  {
    hide Books;
    hide AllFresh;
    hide Remembered;
    hide RxHold;
    var h, id := g.(clock := a.now), Id(a.block);
    if id in g.owner { SameRemembered(ms, g, h, g.owner[id], a.now); }
    if id in e.blocks || id in e.done { NotForgotten(k, e, h, id); }
  }

  lemma SameRemembered(ms: nat, g: Book, h: Book, b: nat, now: int)
    requires h == g.(clock := h.clock)
    ensures Remembered(ms, g, b, now) <==> Remembered(ms, h, b, now)
  {
  }

  lemma OldReady(k: nat, ms: nat, g: Book, e: Rx, a: Arrival)
    requires Books(k, e, g.(clock := a.now)) && e.timeoutMs == ms
    requires OnTime(k, ms, g, a) && g.Seen(a.block) != {}
    ensures Ready(k, g, e, a.block)
  {
    hide DoneOk;
    hide RxHold;
    hide DoneHold;
    hide BlockOk;
    hide QueueOk;
    var h := g.(clock := a.now);
    if |g.Seen(a.block)| < k {
      assert Waits(k, ms, h, Id(a.block));
    } else {
      SameRemembered(ms, g, h, a.block, a.now);
      RememberedDone(k, e, h, a.block);
    }
  }

  lemma {:induction false} Injects(ids: set<u16>, g: Book, to: set<nat>)
    requires OwnersOk(g) && forall id :: id in ids ==> id in g.owner && g.owner[id] in to
    ensures |ids| <= |to|
  {
    if ids != {} {
      var id :| id in ids;
      var rest, less := ids - {id}, to - {g.owner[id]};
      forall j | j in rest ensures g.owner[j] in less { assert Id(g.owner[j]) == j && Id(g.owner[id]) == id; }
      Injects(rest, g, less);
    }
  }

  /** Open entries are no more than the pending blocks. */
  lemma RoomLeft(k: nat, ms: nat, g: Book, e: Rx, now: int)
    requires Books(k, e, g.(clock := now)) && AllFresh(e, now) && e.timeoutMs == ms
    ensures |e.blocks| <= |Pending(k, ms, g, now)|
  {
    hide DoneOk;
    hide TableOk;
    hide RxHold;
    hide DoneHold;
    var h := g.(clock := now);
    forall id | id in e.blocks ensures id in g.owner && g.owner[id] in Pending(k, ms, g, now) {
      assert EntryOk(k, e, h, id);
    }
    Injects(e.blocks.Keys, g, Pending(k, ms, g, now));
  }

  // ---- One arrival -------------------------------------------------------

  /** What a shard makes of the table, leaving out the shards themselves. */
  ghost predicate Moves(e: Rx, s: Rx, id: u16, first: int, open: bool, finishes: bool, now: int) {
    && s.timeoutMs == e.timeoutMs
    && if open then
         && s.done == e.done && s.doneOrder == e.doneOrder && s.blocks.Keys == e.blocks.Keys + {id}
         && s.blocks[id].firstSeen == first && forall j :: j in e.blocks && j != id ==> s.blocks[j] == e.blocks[j]
       else if finishes then
         SameTable(s, MarkDone(e.(blocks := s.blocks), id, now)) && s.blocks == e.blocks - {id}
       else s == e
  }

  /** The entry a shard meets, if its block is on time. */
  ghost predicate Meets(k: nat, n: nat, seen: set<nat>, e: Rx, id: u16) {
    if seen == {} then id !in e.blocks && id !in e.done && |e.blocks| < BLOCK_MAX
    else if |seen| < k then
      id in e.blocks && id !in e.done && e.blocks[id].k == k && e.blocks[id].n == n && e.blocks[id].frags.Keys == seen
    else id in e.done
  }

  lemma AddMoves(L: Isal, k: nat, r: Rx, h: Head, seen: set<nat>, body: seq<byte>, now: int)
    requires Sound(L) && h.block in r.blocks && h.k == k && r.blocks[h.block].frags.Keys == seen && |seen| < k
    ensures var s := AddShard(L, r, h, body, now).0;
            Moves(r, s, h.block, r.blocks[h.block].firstSeen, |seen + {h.index}| < k, |seen + {h.index}| >= k, now)
  {
    hide Sound;
    hide Finish;
    var b := r.blocks[h.block];
    assert h.index in b.frags <==> h.index in seen;
    if h.index in seen {
      assert seen + {h.index} == seen;
      assert r.blocks.Keys == r.blocks.Keys + {h.block};
    } else {
      var c := b.(frags := b.frags[h.index := body]);
      assert c.frags.Keys == seen + {h.index} && |c.frags| == |c.frags.Keys|;
      if |c.frags| >= k { FinishMoves(L, r, h.block, c, now); }
      hide MarkDone;
    }
  }

  lemma FinishMoves(L: Isal, r: Rx, id: u16, c: RxBlock, now: int)
    requires Sound(L)
    ensures var s := Finish(L, r, id, c, now).0;
            && SameTable(s, MarkDone(r.(blocks := s.blocks), id, now)) && s.blocks == r.blocks - {id}
            && s.timeoutMs == r.timeoutMs
  {
    hide Sound;
    hide Finish;
    hide Trim;
    FinishShape(L, r, id, c, now);
    var q := r.(blocks := r.blocks - {id});
    TrimBlocks(q.(doneOrder := if id in q.done then q.doneOrder else q.doneOrder + [id], done := q.done[id := now]));
    TrimHold(q.(doneOrder := if id in q.done then q.doneOrder else q.doneOrder + [id], done := q.done[id := now]));
  }

  lemma {:induction false} TrimHold(r: Rx)
    ensures Trim(r).timeoutMs == r.timeoutMs
    decreases |r.doneOrder|
  {
    if |r.doneOrder| > DONE_MAX {
      TrimHold(r.(doneOrder := r.doneOrder[1..], done := r.done - {r.doneOrder[0]}));
    }
  }

  /** A table that a block was opened in moves on as the one before. */
  lemma MovesOpened(e: Rx, o: Rx, s: Rx, id: u16, open: bool, now: int)
    requires id !in e.blocks && o == e.(blocks := o.blocks) && o.blocks.Keys == e.blocks.Keys + {id}
    requires forall j :: j in e.blocks ==> o.blocks[j] == e.blocks[j]
    requires o.blocks[id].firstSeen == now && Moves(o, s, id, now, open, !open, now)
    ensures Moves(e, s, id, now, open, !open, now)
  {
    hide MarkDone;
    if !open {
      assert o.blocks - {id} == e.blocks - {id};
      assert o.(blocks := s.blocks) == e.(blocks := s.blocks);
    }
  }

  lemma TakeMoves(L: Isal, k: nat, n: nat, body: seq<byte>, seen: set<nat>, e: Rx, h: Head, now: int, victim: u16)
    requires Sound(L) && k > 0 && h.k == k && h.n == n && Meets(k, n, seen, e, h.block)
    ensures var s := TakeShard(L, e, h, body, now, victim).0;
            var first := if seen == {} then now else if h.block in e.blocks then e.blocks[h.block].firstSeen else 0;
            var all := seen + {h.index};
            Moves(e, s, h.block, first, |all| < k, |seen| < k <= |all|, now)
  {
    hide Sound;
    hide AddShard;
    hide Moves;
    MoreSeen(seen, h.index);
    if seen == {} {
      var o := OpenBlock(e, h, now, victim);
      AddMoves(L, k, o, h, {}, body, now);
      assert o.blocks.Keys == e.blocks.Keys + {h.block};
      MovesOpened(e, o, AddShard(L, o, h, body, now).0, h.block, |seen + {h.index}| < k, now);
    } else if |seen| < k {
      AddMoves(L, k, e, h, seen, body, now);
    } else {
      StaysPut(e, h.block, now);
    }
  }

  lemma StaysPut(e: Rx, id: u16, now: int)
    ensures forall first :: Moves(e, e, id, first, false, false, now)
  {
  }

  lemma MarkDoneExact(r: Rx, id: u16, now: int)
    requires |r.doneOrder| <= DONE_MAX && id !in r.done
    ensures var m := MarkDone(r, id, now);
            if |r.doneOrder| < DONE_MAX then m.doneOrder == r.doneOrder + [id] && m.done == r.done[id := now]
            else m.doneOrder == r.doneOrder[1..] + [id] && m.done == r.done[id := now] - {r.doneOrder[0]}
  {
    if |r.doneOrder| == DONE_MAX {
      var o := r.doneOrder + [id];
      assert o[1..] == r.doneOrder[1..] + [id];
      var t := r.(doneOrder := o[1..], done := r.done[id := now] - {o[0]});
      assert Trim(t) == t;
    }
  }

  // ---- The notes keep up with the table -----------------------------------

  lemma NoteSeen(k: nat, g: Book, a: Arrival)
    ensures Note(k, g, a).Seen(a.block) == g.Seen(a.block) + {a.index}
    ensures forall b :: b != a.block ==> Note(k, g, a).Seen(b) == g.Seen(b) && Note(k, g, a).First(b) == g.First(b)
    ensures forall b :: |g.Seen(b)| <= |Note(k, g, a).Seen(b)|
    ensures Note(k, g, a).First(a.block) == if g.Seen(a.block) == {} then a.now else g.First(a.block)
  {
    MoreSeen(g.Seen(a.block), a.index);
  }

  lemma NoteOwners(k: nat, g: Book, a: Arrival)
    requires OwnersOk(g)
    ensures OwnersOk(Note(k, g, a))
  {
  }

  /** Nobody else owns the id of a block that is on time. */
  ghost predicate Mine(g: Book, b: nat) { g.Seen(b) != {} ==> Id(b) in g.owner && g.owner[Id(b)] == b }

  /** Books of other ids are not touched. */
  lemma OtherId(k: nat, g: Book, a: Arrival, j: u16)
    requires OwnersOk(g) && j in g.owner && j != Id(a.block)
    ensures var t := Note(k, g, a);
            && j in t.owner && t.owner[j] == g.owner[j] && t.Seen(g.owner[j]) == g.Seen(g.owner[j])
            && t.First(g.owner[j]) == g.First(g.owner[j])
  {
    NoteSeen(k, g, a);
  }

  lemma StepOpen(k: nat, e: Rx, s: Rx, g: Book, a: Arrival, first: int)
    requires OwnersOk(g) && OpenOk(k, e, g.(clock := a.now)) && Mine(g, a.block) && Ready(k, g, e, a.block)
    requires forall id :: id in e.done ==> id !in e.blocks
    requires var all := g.Seen(a.block) + {a.index};
             Moves(e, s, Id(a.block), first, |all| < k, |g.Seen(a.block)| < k <= |all|, a.now)
    requires g.Seen(a.block) == {} ==> first == a.now
    requires g.Seen(a.block) != {} && Id(a.block) in e.blocks ==> first == e.blocks[Id(a.block)].firstSeen
    ensures OpenOk(k, s, Note(k, g, a))
  {
    hide RxHold;
    hide MarkDone;
    hide OwnersOk;
    hide Note;
    var h, t, id := g.(clock := a.now), Note(k, g, a), Id(a.block);
    NoteSeen(k, g, a);
    MoreSeen(g.Seen(a.block), a.index);
    assert id in t.owner && t.owner[id] == a.block && t.clock == a.now by { NoteOwn(k, g, a); }
    forall j | j in s.blocks ensures EntryOk(k, s, t, j) {
      if j == id {
        assert j in e.blocks ==> EntryOk(k, e, h, j);
      } else {
        assert j in e.blocks && s.blocks[j] == e.blocks[j];
        OtherEntry(k, e, s, g, a, j);
      }
    }
    forall j | Waits(k, s.timeoutMs, t, j) ensures j in s.blocks {
      if j != id {
        OwnerKept(k, g, a, j);
        OtherId(k, g, a, j);
        assert Waits(k, e.timeoutMs, h, j);
      }
    }
  }

  lemma OtherEntry(k: nat, e: Rx, s: Rx, g: Book, a: Arrival, j: u16)
    requires OwnersOk(g) && OpenOk(k, e, g.(clock := a.now)) && j != Id(a.block)
    requires j in e.blocks && j in s.blocks && s.blocks[j] == e.blocks[j]
    ensures EntryOk(k, s, Note(k, g, a), j)
  {
    assert EntryOk(k, e, g.(clock := a.now), j);
    OtherId(k, g, a, j);
  }

  lemma NoteOwn(k: nat, g: Book, a: Arrival)
    ensures var t := Note(k, g, a); Id(a.block) in t.owner && t.owner[Id(a.block)] == a.block && t.clock == a.now
  {
  }

  lemma OwnerKept(k: nat, g: Book, a: Arrival, j: u16)
    requires j in Note(k, g, a).owner && j != Id(a.block)
    ensures j in g.owner
  {
  }

  /** No completion in the queue has the id of a block not yet complete. */
  lemma NotQueued(k: nat, e: Rx, g: Book, id: u16, p: int)
    requires DoneOk(k, e, g) && |g.done| - |e.doneOrder| <= p < |g.done| && id !in e.done
    ensures Queued(e, g, p) && Id(g.done[p]) != id && Id(g.done[p]) in e.done
  {
    assert Queued(e, g, p);
  }

  /** No block is completed: the queue stays. */
  lemma StepIdle(k: nat, e: Rx, s: Rx, g: Book, a: Arrival)
    requires DoneOk(k, e, g.(clock := a.now)) && !Completes(k, g, a)
    requires s.done == e.done && s.doneOrder == e.doneOrder && s.timeoutMs == e.timeoutMs
    requires Id(a.block) in e.done ==> Id(a.block) in g.owner && g.owner[Id(a.block)] == a.block
    ensures DoneOk(k, s, Note(k, g, a))
  {
    hide DoneHold;
    var h, t := g.(clock := a.now), Note(k, g, a);
    NoteSeen(k, g, a);
    forall p | |t.done| - |s.doneOrder| <= p < |t.done| ensures Queued(s, t, p) {
      assert Queued(e, h, p);
    }
    forall p | 0 <= p < |t.done| - |s.doneOrder| ensures LetGo(s.timeoutMs, t, p) {
      assert LetGo(e.timeoutMs, h, p);
    }
  }

  /** A completion that is not at a leaving front stays in the queue. */
  lemma StaysQueued(e: Rx, s: Rx, g: Book, t: Book, x: int, id: u16, now: int, p: int)
    requires Queued(e, g, p) && Id(g.done[p]) != id && p - (|g.done| - |e.doneOrder|) >= x
    requires forall i, j :: 0 <= i < j < |e.doneOrder| ==> e.doneOrder[i] != e.doneOrder[j]
    requires 0 <= x <= 1 && |e.doneOrder| >= x && s.doneOrder == e.doneOrder[x..] + [id]
    requires s.done == if x == 1 then e.done[id := now] - {e.doneOrder[0]} else e.done[id := now]
    requires |t.done| == |g.done| + 1 && t.done[..|g.done|] == g.done
    requires Id(g.done[p]) in t.owner && t.owner[Id(g.done[p])] == g.done[p]
    requires t.DoneAt(g.done[p]) == g.DoneAt(g.done[p])
    ensures Queued(s, t, p)
  {
    var i := p - (|g.done| - |e.doneOrder|);
    assert t.done[p] == g.done[p] && s.doneOrder[i - x] == e.doneOrder[i];
  }

  lemma CompleteNotes(k: nat, g: Book, a: Arrival, b: nat)
    requires Completes(k, g, a) && Id(b) != Id(a.block) && Id(b) in g.owner && g.owner[Id(b)] == b
    ensures var t := Note(k, g, a); Id(b) in t.owner && t.owner[Id(b)] == b && t.DoneAt(b) == g.DoneAt(b)
  {
  }

  lemma NewQueued(k: nat, s: Rx, g: Book, a: Arrival)
    requires Completes(k, g, a) && |s.doneOrder| > 0 && s.doneOrder[|s.doneOrder| - 1] == Id(a.block)
    requires Id(a.block) in s.done && s.done[Id(a.block)] == a.now
    ensures Queued(s, Note(k, g, a), |g.done|)
  {
  }

  /** A block is completed: it joins the queue, and the front may have to leave. */
  lemma StepComplete(k: nat, e: Rx, s: Rx, g: Book, a: Arrival)
    requires DoneOk(k, e, g.(clock := a.now)) && Completes(k, g, a) && Id(a.block) !in e.done
    requires |e.doneOrder| <= DONE_MAX && forall i, j :: 0 <= i < j < |e.doneOrder| ==> e.doneOrder[i] != e.doneOrder[j]
    requires forall id :: id in e.doneOrder ==> id in e.done
    requires SameTable(s, MarkDone(e.(blocks := s.blocks), Id(a.block), a.now)) && s.timeoutMs == e.timeoutMs
    ensures DoneOk(k, s, Note(k, g, a))
  {
    hide DoneHold;
    hide MarkDone;
    hide Queued;
    var h, t, id := g.(clock := a.now), Note(k, g, a), Id(a.block);
    NoteSeen(k, g, a);
    MarkDoneExact(e.(blocks := s.blocks), id, a.now);
    var n, m := |g.done|, |g.done| - |e.doneOrder|;
    var x := if |e.doneOrder| < DONE_MAX then 0 else 1;
    assert s.doneOrder == e.doneOrder[x..] + [id];
    assert |t.done| == n + 1 && t.done[..n] == g.done;
    forall p | m + x <= p < n + 1 ensures Queued(s, t, p) {
      if p < n {
        NotQueued(k, e, h, id, p);
        QueuedOwner(e, h, p);
        CompleteNotes(k, g, a, g.done[p]);
        hide Note;
        StaysQueued(e, s, h, t, x, id, a.now, p);
      } else {
        assert x == 1 ==> e.doneOrder[0] in e.doneOrder;
        NewQueued(k, s, g, a);
      }
    }
    forall p | 0 <= p < m + x ensures LetGo(s.timeoutMs, t, p) {
      if p < m { assert LetGo(e.timeoutMs, h, p); }
    }
  }

  lemma QueuedOwner(r: Rx, g: Book, p: int)
    requires Queued(r, g, p)
    ensures 0 <= p < |g.done| && Id(g.done[p]) in g.owner && g.owner[Id(g.done[p])] == g.done[p]
  {
  }

  /** The table and the notes fit, and a shard on time arrives. */
  ghost predicate Arriving(L: Isal, k: nat, n: nat, sent: seq<seq<seq<byte>>>, l: Link, g: Book, a: Arrival) {
    && LinkInv(L.F, k, n, sent, l) && a.block < |sent| && a.index < n
    && l.owner == g.owner && l.seen == g.seen && Books(k, l.r, g) && OnTime(k, l.r.timeoutMs, g, a)
  }

  lemma ArrivingReady(L: Isal, k: nat, n: nat, sent: seq<seq<seq<byte>>>, l: Link, g: Book, a: Arrival)
    requires Arriving(L, k, n, sent, l, g, a)
    ensures var e := Expire(l.r, a.now);
            && Books(k, e, g.(clock := a.now)) && Ready(k, g, e, a.block) && Mine(g, a.block)
            && e.timeoutMs == l.r.timeoutMs && (g.Seen(a.block) == {} ==> |e.blocks| < BLOCK_MAX)
  {
    hide LinkInv;
    hide OpenOk;
    hide DoneOk;
    hide OwnersOk;
    hide TableOk;
    hide Expire;
    hide Remembered;
    hide Ready;
    hide RxHold;
    var e := Expire(l.r, a.now);
    Age(k, l.r, g, a.now);
    ExpireFresh(l.r, g.clock, a.now);
    hide AllFresh;
    hide Books;
    RoomLeft(k, l.r.timeoutMs, g, e, a.now);
    if g.Seen(a.block) == {} {
      NewReady(k, l.r.timeoutMs, g, e, a);
    } else {
      OldReady(k, l.r.timeoutMs, g, e, a);
    }
  }

  lemma ArrivingMeets(L: Isal, k: nat, n: nat, sent: seq<seq<seq<byte>>>, l: Link, g: Book, a: Arrival)
    requires Arriving(L, k, n, sent, l, g, a)
    ensures Meets(k, n, g.Seen(a.block), Expire(l.r, a.now), Id(a.block)) && Live(k, l, a)
    ensures k > 0
  {
    hide Books;
    hide OnTime;
    ArrivingReady(L, k, n, sent, l, g, a);
    ExpireOnlyRemoves(l.r, a.now);
    assert l.Seen(a.block) == g.Seen(a.block);
    hide Expire;
    hide NonEmpty;
    hide Fits;
  }

  lemma NoVictim(L: Isal, k: nat, n: nat, sent: seq<seq<seq<byte>>>, l: Link, g: Book, a: Arrival)
    requires Sound(L) && Arriving(L, k, n, sent, l, g, a)
    ensures TableOk(Receive(L, k, n, sent, l, a).r, a.now)
  {
    hide Sound;
    hide PushAir;
    hide TableOk;
    hide Expire;
    hide OnTime;
    hide OpenOk;
    hide DoneOk;
    hide UnpackHeader;
    hide Shard;
    hide NonEmpty;
    ArrivingReady(L, k, n, sent, l, g, a);
    ShardParts(L.F, k, n, sent[a.block], Id(a.block), a.index);
    assert g.clock <= a.now by { Forward(k, l.r.timeoutMs, g, a); }
    PushAirKeeps(L, l.r, ArrivalData(L.F, k, n, sent, a), g.clock, a.now, a.victim);
  }

  lemma Forward(k: nat, ms: nat, g: Book, a: Arrival)
    requires OnTime(k, ms, g, a)
    ensures g.clock <= a.now
  {
  }

  lemma BooksParts(k: nat, e: Rx, g: Book)
    requires Books(k, e, g)
    ensures OwnersOk(g) && OpenOk(k, e, g) && DoneOk(k, e, g) && |e.doneOrder| <= DONE_MAX
    ensures forall i, j :: 0 <= i < j < |e.doneOrder| ==> e.doneOrder[i] != e.doneOrder[j]
    ensures forall id :: id in e.doneOrder ==> id in e.done
    ensures forall id :: id in e.done ==> id !in e.blocks
  {
    hide OpenOk;
    hide DoneOk;
    hide BlockOk;
  }

  lemma StepBooks(k: nat, e: Rx, s: Rx, g: Book, a: Arrival, first: int)
    requires Books(k, e, g.(clock := a.now)) && Mine(g, a.block) && Ready(k, g, e, a.block) && k > 0
    requires var all := g.Seen(a.block) + {a.index};
             Moves(e, s, Id(a.block), first, |all| < k, |g.Seen(a.block)| < k <= |all|, a.now)
    requires g.Seen(a.block) == {} ==> first == a.now
    requires g.Seen(a.block) != {} && Id(a.block) in e.blocks ==> first == e.blocks[Id(a.block)].firstSeen
    requires TableOk(s, a.now)
    ensures Books(k, s, Note(k, g, a))
  {
    hide TableOk;
    hide OpenOk;
    hide DoneOk;
    hide MarkDone;
    BooksParts(k, e, g.(clock := a.now));
    StepOpen(k, e, s, g, a, first);
    NoteOwners(k, g, a);
    MoreSeen(g.Seen(a.block), a.index);
    if Completes(k, g, a) {
      StepComplete(k, e, s, g, a);
    } else {
      StepIdle(k, e, s, g, a);
    }
  }

  /** A shard on time finds what it needs, and the notes keep up. */
  lemma Arrive(L: Isal, k: nat, n: nat, sent: seq<seq<seq<byte>>>, l: Link, g: Book, a: Arrival)
    requires Sound(L) && Arriving(L, k, n, sent, l, g, a)
    ensures Live(k, l, a)
    ensures var m := Receive(L, k, n, sent, l, a);
            && LinkInv(L.F, k, n, sent, m) && m.owner == Note(k, g, a).owner && m.seen == Note(k, g, a).seen
            && Books(k, m.r, Note(k, g, a)) && m.r.timeoutMs == l.r.timeoutMs
  {
    hide Sound;
    hide Body;
    hide Books;
    hide OnTime;
    hide TakeShard;
    hide Expire;
    hide Live;
    hide NonEmpty;
    hide TableOk;
    hide Ready;
    hide Mine;
    hide Receive;
    var h := Head(Id(a.block), a.index, k, n, if a.index >= k then FLAG_PARITY else 0);
    var e := Expire(l.r, a.now);
    var body := Body(L.F, sent[a.block], k, a.index);
    var s := TakeShard(L, e, h, body, a.now, a.victim).0;
    ArrivingReady(L, k, n, sent, l, g, a);
    ArrivingMeets(L, k, n, sent, l, g, a);
    NoVictim(L, k, n, sent, l, g, a);
    ReceiveShape(L, k, n, sent, l, a);
    ReceiveKeeps(L, k, n, sent, l, a);
    hide LinkInv;
    hide Meets;
    TakeMoves(L, k, n, body, g.Seen(a.block), e, h, a.now, a.victim);
    assert s.timeoutMs == e.timeoutMs;
    hide Moves;
    var first := if g.Seen(a.block) == {} then a.now
                 else if h.block in e.blocks then e.blocks[h.block].firstSeen else 0;
    StepBooks(k, e, s, g, a, first);
  }

  /** Shards on time are delivered. */
  lemma {:induction false} OnTimeDelivers(L: Isal, k: nat, n: nat, sent: seq<seq<seq<byte>>>, l: Link, g: Book,
                                          run: seq<Arrival>)
    requires Sound(L) && LinkInv(L.F, k, n, sent, l) && l.owner == g.owner && l.seen == g.seen && Books(k, l.r, g)
    requires AllOnTime(k, l.r.timeoutMs, g, run)
    requires forall a :: a in run ==> a.block < |sent| && a.index < n
    ensures Delivers(L, k, n, sent, l, run)
    decreases |run|
  {
    hide Sound;
    hide Books;
    hide OnTime;
    hide Live;
    hide Note;
    hide Receive;
    assert Sent(k, n, sent);
    hide LinkInv;
    if run != [] {
      Arrive(L, k, n, sent, l, g, run[0]);
      OnTimeDelivers(L, k, n, sent, Receive(L, k, n, sent, l, run[0]), Note(k, g, run[0]), run[1..]);
    }
  }

  function Blank(start: int): Book { Book(map[], map[], map[], [], map[], start) }

  /** End to end, the channel told by arrivals alone: if the clock does not go back, each shard
      comes before its block is given up or forgotten, fewer than 64 other blocks are pending when
      a block begins and its id is forgotten by then, each block comes out exactly once, whole and
      in order, if at least k of its shards arrive, and otherwise not at all. */
  lemma EndToEndOnTime(L: Isal, e: EncRun, timeoutMs: nat, start: int, run: seq<Arrival>)
    requires Sound(L) && EncInv(L.F, e) && AllOnTime(e.e.k, timeoutMs, Blank(start), run)
    requires forall a :: a in run ==> a.block < |e.sent| && a.index < e.e.n
    ensures Delivers(L, e.e.k, e.e.n, e.sent, Start(timeoutMs), run)
    ensures var l := After(L, e.e.k, e.e.n, e.sent, Start(timeoutMs), run);
            && (forall b :: 0 <= b < |e.sent| ==>
                  l.Out(b) == if |Arrived(run, b)| >= e.e.k then NonEmpty(e.sent[b]) else [])
            && ((forall b :: 0 <= b < |e.sent| ==> |Arrived(run, b)| >= e.e.k) ==>
                  AllOut(l, |e.sent|) + NonEmpty(e.e.pending) == NonEmpty(e.accepted))
  {
    hide Sound;
    hide AllOnTime;
    hide Delivers;
    hide After;
    SentBlocks(L.F, e);
    var l0 := Start(timeoutMs);
    assert LinkInv(L.F, e.e.k, e.e.n, e.sent, l0);
    assert Books(e.e.k, l0.r, Blank(start)) by { hide EncInv; hide LinkInv; }
    hide LinkInv;
    hide Books;
    OnTimeDelivers(L, e.e.k, e.e.n, e.sent, l0, Blank(start), run);
    EndToEnd(L, e, timeoutMs, run);
  }
}
