/** wait_free_queue: slots behind a queue of free indices and a queue of filled ones, with any
    number of tasks pushing and popping at once. Each step is one operation on one of the two
    index queues or one move in or out of a slot. */
module WaitQueue {
  import opened Bytes
  import opened Listing

  /** A task between two steps holds one index. */
  datatype Hand<T> =
    | Claimed(idx: nat, item: T)
    | Stored(idx: nat, item: T)
    | Taken(idx: nat)
    | Moved(idx: nat, item: T)

  datatype Queue<T> = Queue(cap: nat, slots: seq<Option<T>>, free: seq<nat>, filled: seq<nat>, hands: map<nat, Hand<T>>)

  datatype Step<T> =
    | Claim(task: nat, item: T)
    | Store(task: nat)
    | Publish(task: nat)
    | Take(task: nat)
    | Move(task: nat)
    | Recycle(task: nat)

  function Fresh<T>(cap: nat): Queue<T> {
    Queue(cap, seq(cap, i => None), seq(cap, i => i), [], map[])
  }

  /** The items in the order they will be popped. */
  function Contents<T>(q: Queue<T>): seq<Option<T>> {
    seq(|q.filled|, k requires 0 <= k < |q.filled| => if q.filled[k] < |q.slots| then q.slots[q.filled[k]] else None)
  }

  predicate Enabled<T>(q: Queue<T>, s: Step<T>) {
    match s
    case Claim(t, _) => t !in q.hands
    case Store(t) => t in q.hands && q.hands[t].Claimed?
    case Publish(t) => t in q.hands && q.hands[t].Stored?
    case Take(t) => t !in q.hands
    case Move(t) => t in q.hands && q.hands[t].Taken?
    case Recycle(t) => t in q.hands && q.hands[t].Moved?
  }

  predicate Shape<T>(q: Queue<T>) {
    && |q.slots| == q.cap && (forall t :: t in q.hands ==> q.hands[t].idx < q.cap)
    && (forall k :: 0 <= k < |q.free| ==> q.free[k] < q.cap)
    && (forall k :: 0 <= k < |q.filled| ==> q.filled[k] < q.cap)
  }

  /** One atomic step. A claim or take on an empty index queue leaves everything alone: the call
      returns false. Sending into a full index queue fails likewise. */
  function Apply<T>(q: Queue<T>, s: Step<T>): (r: Queue<T>)
    requires Enabled(q, s) && Shape(q)
    ensures r.cap == q.cap && |r.slots| == |q.slots|
  {
    match s
    case Claim(t, item) =>
      if q.free == [] then q
      else q.(free := q.free[1..], hands := q.hands[t := Claimed(q.free[0], item)])
    case Store(t) =>
      var h := q.hands[t];
      q.(slots := q.slots[h.idx := Some(h.item)], hands := q.hands[t := Stored(h.idx, h.item)])
    case Publish(t) =>
      var h := q.hands[t];
      if |q.filled| < q.cap then q.(filled := q.filled + [h.idx], hands := q.hands - {t})
      else q.(slots := q.slots[h.idx := None], free := q.free + [h.idx], hands := q.hands - {t})
    case Take(t) =>
      if q.filled == [] then q
      else q.(filled := q.filled[1..], hands := q.hands[t := Taken(q.filled[0])])
    case Move(t) =>
      var h := q.hands[t];
      if q.slots[h.idx].None? then q
      else q.(slots := q.slots[h.idx := None], hands := q.hands[t := Moved(h.idx, q.slots[h.idx].value)])
    case Recycle(t) =>
      q.(free := q.free + [q.hands[t].idx], hands := q.hands - {t})
  }

  // ---- Invariant -------------------------------------------------------

  datatype Owner = Free | Filled | Task(t: nat)

  /** What a slot must hold while a task has its index. */
  predicate HandOk<T(==)>(h: Hand<T>, slot: Option<T>) {
    match h
    case Claimed(_, _) => slot.None?
    case Stored(_, item) => slot == Some(item)
    case Taken(_) => slot.Some?
    case Moved(_, _) => slot.None?
  }

  /** `w` names the one owner of every index: the free queue, the filled queue or a task. */
  ghost predicate Owned<T>(q: Queue<T>, w: seq<Owner>) {
    && |w| == |q.slots| == q.cap && |q.free| + |q.filled| + |q.hands| == q.cap
    && Listed(q.free, w, Free) && Listed(q.filled, w, Filled)
    && (forall i: nat :: i < q.cap ==> PlaceOk(q, w, i))
    && (forall t :: t in q.hands ==> q.hands[t].idx < q.cap && w[q.hands[t].idx] == Task(t))
  }

  ghost predicate PlaceOk<T>(q: Queue<T>, w: seq<Owner>, i: nat)
    requires i < |w| == |q.slots|
  {
    match w[i]
    case Free => q.slots[i].None?
    case Filled => q.slots[i].Some?
    case Task(t) => t in q.hands && q.hands[t].idx == i && HandOk(q.hands[t], q.slots[i])
  }

  /** Free, filled and held indices partition 0..cap-1. */
  ghost predicate Inv<T>(q: Queue<T>) { exists w :: Owned(q, w) }

  lemma InvShape<T>(q: Queue<T>)
    requires Inv(q)
    ensures Shape(q)
  {
    var w :| Owned(q, w);
  }

  lemma FreshInv<T>(cap: nat)
    ensures Inv(Fresh<T>(cap)) && Contents(Fresh<T>(cap)) == []
  {
    var q := Fresh<T>(cap);
    var w := seq(cap, i => Free);
    forall i: nat | i < cap ensures i in q.free { assert q.free[i] == i; }
    assert Owned(q, w);
  }

  // ---- Every interleaving keeps it -------------------------------------

  lemma SizeAdd<T>(hands: map<nat, Hand<T>>, t: nat, h: Hand<T>)
    ensures |hands[t := h]| == if t in hands then |hands| else |hands| + 1
  {
    assert hands[t := h].Keys == hands.Keys + {t};
  }

  lemma SizeDrop<T>(hands: map<nat, Hand<T>>, t: nat)
    requires t in hands
    ensures |hands - {t}| == |hands| - 1
  {
    assert (hands - {t}).Keys == hands.Keys - {t};
  }

  lemma OwnedShape<T>(q: Queue<T>, w: seq<Owner>)
    requires Owned(q, w)
    ensures Shape(q)
  {
  }

  lemma ClaimKeeps<T>(q: Queue<T>, w: seq<Owner>, t: nat, item: T)
    requires Owned(q, w) && t !in q.hands && q.free != []
    ensures Shape(q) && Owned(Apply(q, Claim(t, item)), w[q.free[0] := Task(t)])
  {
    hide Listed;
    var x := q.free[0];
    OwnedShape(q, w);
    ListedFront(q.free, w, Free);
    ListedTail(q.free, w, Free, Task(t));
    ListedOther(q.filled, w, Filled, x, Task(t));
    SizeAdd(q.hands, t, Claimed(x, item));
    var r, v := Apply(q, Claim(t, item)), w[x := Task(t)];
    forall i: nat | i < q.cap ensures PlaceOk(r, v, i) { assert PlaceOk(q, w, i); }
  }

  lemma TakeKeeps<T>(q: Queue<T>, w: seq<Owner>, t: nat)
    requires Owned(q, w) && t !in q.hands && q.filled != []
    ensures Shape(q) && Owned(Apply(q, Take(t)), w[q.filled[0] := Task(t)])
  {
    hide Listed;
    var x := q.filled[0];
    OwnedShape(q, w);
    ListedFront(q.filled, w, Filled);
    ListedTail(q.filled, w, Filled, Task(t));
    ListedOther(q.free, w, Free, x, Task(t));
    SizeAdd(q.hands, t, Taken(x));
    var r, v := Apply(q, Take(t)), w[x := Task(t)];
    forall i: nat | i < q.cap ensures PlaceOk(r, v, i) { assert PlaceOk(q, w, i); }
  }

  /** A task changes its own slot and moves on. */
  lemma OwnSlot<T>(q: Queue<T>, r: Queue<T>, w: seq<Owner>, t: nat, h: Hand<T>, slot: Option<T>)
    requires Owned(q, w) && t in q.hands && h.idx == q.hands[t].idx && HandOk(h, slot)
    requires h.idx < |q.slots| && r == q.(slots := q.slots[h.idx := slot], hands := q.hands[t := h])
    ensures Owned(r, w)
  {
    hide Listed;
    hide HandOk;
    SizeAdd(q.hands, t, h);
    forall i: nat | i < q.cap ensures PlaceOk(r, w, i) { assert PlaceOk(q, w, i); }
  }

  lemma SlotKeeps<T>(q: Queue<T>, w: seq<Owner>, s: Step<T>)
    requires Owned(q, w) && Enabled(q, s) && (s.Store? || s.Move?)
    ensures Shape(q) && Owned(Apply(q, s), w)
  {
    assert Shape(q) && PlaceOk(q, w, q.hands[s.task].idx);
    hide Owned;
    hide Shape;
    var t, r := s.task, Apply(q, s);
    OwnSlot(q, r, w, t, r.hands[t], r.slots[q.hands[t].idx]);
  }

  /** A task about to publish finds room: the filled queue can never be full, so the branch that
      gives the item up is unreachable. */
  lemma PublishHasRoom<T>(q: Queue<T>, t: nat)
    requires Inv(q) && t in q.hands
    ensures |q.filled| < q.cap && |q.free| < q.cap
  {
    var w :| Owned(q, w);
    assert q.hands.Keys != {};
    hide Listed;
  }

  /** A task gives its index to one of the queues. */
  lemma HandBack<T>(q: Queue<T>, r: Queue<T>, w: seq<Owner>, t: nat, o: Owner)
    requires Owned(q, w) && t in q.hands && (o == Filled || o == Free)
    requires r.cap == q.cap && r.slots == q.slots && r.hands == q.hands - {t}
    requires |r.free| + |r.filled| == |q.free| + |q.filled| + 1
    requires var v := w[q.hands[t].idx := o]; Listed(r.free, v, Free) && Listed(r.filled, v, Filled)
    requires if o == Filled then q.slots[q.hands[t].idx].Some? else q.slots[q.hands[t].idx].None?
    ensures Owned(r, w[q.hands[t].idx := o])
  {
    hide Listed;
    hide HandOk;
    SizeDrop(q.hands, t);
    var v := w[q.hands[t].idx := o];
    forall i: nat | i < q.cap ensures PlaceOk(r, v, i) { assert PlaceOk(q, w, i); }
  }

  lemma PublishKeeps<T>(q: Queue<T>, w: seq<Owner>, t: nat)
    requires Owned(q, w) && Enabled(q, Publish(t))
    ensures Shape(q) && Owned(Apply(q, Publish(t)), w[q.hands[t].idx := Filled])
  {
    var x := q.hands[t].idx;
    PublishHasRoom(q, t);
    ListedSnoc(q.filled, w, Filled, x);
    ListedOther(q.free, w, Free, x, Filled);
    assert PlaceOk(q, w, x) && Shape(q);
    hide Listed;
    var r := Apply(q, Publish(t));
    assert r.filled == q.filled + [x] && r.free == q.free && r.hands == q.hands - {t} && r.slots == q.slots;
    hide Apply;
    hide Owned;
    hide Shape;
    HandBack(q, r, w, t, Filled);
  }

  lemma RecycleKeeps<T>(q: Queue<T>, w: seq<Owner>, t: nat)
    requires Owned(q, w) && Enabled(q, Recycle(t))
    ensures Shape(q) && Owned(Apply(q, Recycle(t)), w[q.hands[t].idx := Free])
  {
    var x := q.hands[t].idx;
    ListedSnoc(q.free, w, Free, x);
    ListedOther(q.filled, w, Filled, x, Free);
    assert PlaceOk(q, w, x) && Shape(q);
    hide Listed;
    var r := Apply(q, Recycle(t));
    assert r.free == q.free + [x] && r.filled == q.filled && r.hands == q.hands - {t} && r.slots == q.slots;
    hide Apply;
    hide Owned;
    hide Shape;
    HandBack(q, r, w, t, Free);
  }

  /** A claim or a take that finds its index queue empty changes nothing. */
  lemma Refused<T>(q: Queue<T>, s: Step<T>)
    requires Shape(q) && Enabled(q, s) && ((s.Claim? && q.free == []) || (s.Take? && q.filled == []))
    ensures Apply(q, s) == q
  {
  }

  lemma StepOwned<T>(q: Queue<T>, w: seq<Owner>, s: Step<T>) returns (v: seq<Owner>)
    requires Owned(q, w) && Enabled(q, s)
    ensures Shape(q) && Owned(Apply(q, s), v)
  {
    assert Shape(q);
    hide Owned;
    hide Shape;
    hide Apply;
    v := w;
    if (s.Claim? && q.free == []) || (s.Take? && q.filled == []) {
      Refused(q, s);
    } else if s.Claim? {
      ClaimKeeps(q, w, s.task, s.item);
      v := w[q.free[0] := Task(s.task)];
    } else if s.Take? {
      TakeKeeps(q, w, s.task);
      v := w[q.filled[0] := Task(s.task)];
    } else if s.Publish? {
      PublishKeeps(q, w, s.task);
      v := w[q.hands[s.task].idx := Filled];
    } else if s.Recycle? {
      RecycleKeeps(q, w, s.task);
      v := w[q.hands[s.task].idx := Free];
    } else {
      SlotKeeps(q, w, s);
    }
  }

  /** Every step of every task keeps the partition. */
  lemma StepKeeps<T>(q: Queue<T>, s: Step<T>)
    requires Inv(q) && Enabled(q, s)
    ensures Shape(q) && Inv(Apply(q, s))
  {
    var w :| Owned(q, w);
    var v := StepOwned(q, w, s);
  }

  /** A push is refused exactly when every index is filled or in some task's hands. */
  lemma RefusedIff<T>(q: Queue<T>)
    requires Inv(q)
    ensures q.free == [] <==> |q.filled| + |q.hands| == q.cap
    ensures |q.filled| <= q.cap
  {
    var w :| Owned(q, w);
    hide Listed;
  }
}
