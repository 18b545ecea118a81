/** The index-queue pair is first in, first out under every interleaving; the object runs one
    whole call at a time while other tasks hold indices. */
module WaitFifo {
  import opened Bytes
  import opened Listing
  import opened WaitQueue

  // ---- First in, first out ---------------------------------------------

  /** A run so far: items published, items taken, and what each popping task must deliver. */
  datatype Trace<T> = Trace(q: Queue<T>, pushed: seq<T>, popped: seq<T>, owed: map<nat, T>)

  function Advance<T>(h: Trace<T>, s: Step<T>): Trace<T>
    requires Enabled(h.q, s) && Shape(h.q)
  {
    var r := h.(q := Apply(h.q, s));
    match s
    case Publish(t) => if |h.q.filled| < h.q.cap then r.(pushed := h.pushed + [h.q.hands[t].item]) else r
    case Take(t) =>
      if h.q.filled == [] || h.q.slots[h.q.filled[0]].None? then r
      else
        var x := h.q.slots[h.q.filled[0]].value;
        r.(popped := h.popped + [x], owed := h.owed[t := x])
    case Claim(_, _) => r
    case Store(_) => r
    case Move(_) => r
    case Recycle(_) => r
  }

  /** The filled slots hold what was pushed and not yet popped, in order; every popping task will
      hand over, or has in hand, exactly the item it took. */
  ghost predicate Fifo<T>(h: Trace<T>) {
    && |h.pushed| == |h.popped| + |h.q.filled| && h.popped == h.pushed[..|h.popped|]
    && (forall k :: 0 <= k < |h.q.filled| ==> InSlot(h.q, h.q.filled[k], h.pushed[|h.popped| + k]))
    && (forall t :: t in h.q.hands ==> Owes(h, t))
  }

  predicate InSlot<T(==)>(q: Queue<T>, i: nat, x: T) { i < |q.slots| && q.slots[i] == Some(x) }

  predicate Owes<T(==)>(h: Trace<T>, t: nat)
    requires t in h.q.hands
  {
    match h.q.hands[t]
    case Taken(i) => t in h.owed && InSlot(h.q, i, h.owed[t])
    case Moved(_, item) => t in h.owed && item == h.owed[t]
    case Claimed(_, _) => true
    case Stored(_, _) => true
  }

  ghost predicate TraceOk<T>(h: Trace<T>) { Inv(h.q) && Fifo(h) }

  /** No two owners share an index. */
  lemma Apart<T>(q: Queue<T>, t: nat)
    requires Inv(q) && t in q.hands
    ensures q.hands[t].idx !in q.filled && q.hands[t].idx < |q.slots|
    ensures forall u :: u in q.hands && u != t ==> q.hands[u].idx != q.hands[t].idx
    ensures HandOk(q.hands[t], q.slots[q.hands[t].idx])
    ensures |q.filled| < q.cap
  {
    var w :| Owned(q, w);
    PublishHasRoom(q, t);
    assert PlaceOk(q, w, q.hands[t].idx);
  }

  lemma FrontFilled<T>(q: Queue<T>)
    requires Inv(q) && q.filled != []
    ensures q.filled[0] < |q.slots| && q.slots[q.filled[0]].Some?
    ensures forall t :: t in q.hands ==> q.hands[t].idx != q.filled[0]
  {
    var w :| Owned(q, w);
    assert PlaceOk(q, w, q.filled[0]);
  }

  lemma SlotStepFifo<T>(h: Trace<T>, s: Step<T>)
    requires TraceOk(h) && Enabled(h.q, s) && (s.Store? || s.Move?)
    ensures Shape(h.q) && Fifo(Advance(h, s))
  {
    hide Inv;
    InvShape(h.q);
    Apart(h.q, s.task);
    var r := Advance(h, s);
    forall k | 0 <= k < |r.q.filled| ensures InSlot(r.q, r.q.filled[k], r.pushed[|r.popped| + k]) {
      assert InSlot(h.q, h.q.filled[k], h.pushed[|h.popped| + k]);
      assert r.q.filled[k] in h.q.filled;
    }
    forall t | t in r.q.hands ensures Owes(r, t) { assert Owes(h, t); }
  }

  lemma PublishFifo<T>(h: Trace<T>, t: nat)
    requires TraceOk(h) && Enabled(h.q, Publish(t))
    ensures Shape(h.q) && Fifo(Advance(h, Publish(t)))
  {
    hide Inv;
    InvShape(h.q);
    Apart(h.q, t);
    var r := Advance(h, Publish(t));
    assert r.pushed[..|h.popped|] == h.pushed[..|h.popped|];
    forall k | 0 <= k < |r.q.filled| ensures InSlot(r.q, r.q.filled[k], r.pushed[|r.popped| + k]) {
      if k < |h.q.filled| { assert InSlot(h.q, h.q.filled[k], h.pushed[|h.popped| + k]); }
    }
    forall u | u in r.q.hands ensures Owes(r, u) { assert Owes(h, u); }
  }

  lemma TakeFifo<T>(h: Trace<T>, t: nat)
    requires TraceOk(h) && Enabled(h.q, Take(t)) && h.q.filled != []
    ensures Shape(h.q) && Fifo(Advance(h, Take(t)))
  {
    hide Inv;
    InvShape(h.q);
    FrontFilled(h.q);
    var r := Advance(h, Take(t));
    assert InSlot(h.q, h.q.filled[0], h.pushed[|h.popped| + 0]);
    assert r.popped == h.pushed[..|h.popped| + 1];
    forall k | 0 <= k < |r.q.filled| ensures InSlot(r.q, r.q.filled[k], r.pushed[|r.popped| + k]) {
      assert InSlot(h.q, h.q.filled[k + 1], h.pushed[|h.popped| + (k + 1)]);
    }
    forall u | u in r.q.hands ensures Owes(r, u) {
      if u != t { assert Owes(h, u); }
    }
  }

  lemma OtherFifo<T>(h: Trace<T>, s: Step<T>)
    requires TraceOk(h) && Enabled(h.q, s) && (s.Claim? || s.Recycle? || (s.Take? && h.q.filled == []))
    ensures Shape(h.q) && Fifo(Advance(h, s))
  {
    hide Inv;
    InvShape(h.q);
    var r := Advance(h, s);
    assert r.q.slots == h.q.slots && r.q.filled == h.q.filled;
    forall k | 0 <= k < |r.q.filled| ensures InSlot(r.q, r.q.filled[k], r.pushed[|r.popped| + k]) {
      assert InSlot(h.q, h.q.filled[k], h.pushed[|h.popped| + k]);
    }
    forall u | u in r.q.hands ensures Owes(r, u) {
      if u in h.q.hands { assert Owes(h, u); }
    }
  }

  function Start<T>(cap: nat): Trace<T> { Trace(Fresh(cap), [], [], map[]) }

  /** From init on, under every interleaving: the partition holds and the queue is first in,
      first out; in particular the items popped are a prefix of the items pushed. */
  lemma AdvanceOk<T>(h: Trace<T>, s: Step<T>)
    requires TraceOk(h) && Enabled(h.q, s)
    ensures Shape(h.q) && TraceOk(Advance(h, s))
    ensures Advance(h, s).popped <= Advance(h, s).pushed
  {
    InvShape(h.q);
    StepKeeps(h.q, s);
    if s.Store? || s.Move? {
      SlotStepFifo(h, s);
    } else if s.Publish? {
      PublishFifo(h, s.task);
    } else if s.Take? && h.q.filled != [] {
      TakeFifo(h, s.task);
    } else {
      OtherFifo(h, s);
    }
    assert Advance(h, s).q == Apply(h.q, s);
    hide Apply;
    hide Advance;
    hide Inv;
  }

  lemma StartOk<T>(cap: nat)
    ensures TraceOk(Start<T>(cap))
  {
    FreshInv<T>(cap);
  }

  /** Any interleaving of any number of tasks; None if some step is not the next one of its task. */
  function Run<T>(h: Trace<T>, ss: seq<Step<T>>): Option<Trace<T>> {
    if ss == [] then Some(h)
    else
      var before := Run(h, ss[..|ss| - 1]);
      if before.None? || !Enabled(before.value.q, ss[|ss| - 1]) || !Shape(before.value.q) then None
      else Some(Advance(before.value, ss[|ss| - 1]))
  }

  /** In every reachable state the partition holds, the filled slots hold what was pushed and not
      yet popped, and the items popped are, in order, a prefix of the items pushed. */
  lemma {:induction false} RunOk<T>(cap: nat, ss: seq<Step<T>>)
    ensures var r := Run(Start<T>(cap), ss);
            r.Some? ==> TraceOk(r.value) && r.value.popped <= r.value.pushed
                        && |r.value.pushed| == |r.value.popped| + |r.value.q.filled|
  {
    hide Advance;
    hide Inv;
    if ss == [] {
      StartOk<T>(cap);
    } else {
      RunOk(cap, ss[..|ss| - 1]);
      var before := Run(Start<T>(cap), ss[..|ss| - 1]);
      if before.Some? && Enabled(before.value.q, ss[|ss| - 1]) {
        AdvanceOk(before.value, ss[|ss| - 1]);
      }
    }
  }

  /** What a popping task gets is what it took: the front item at that moment. */
  lemma Delivered<T>(h: Trace<T>, t: nat)
    requires TraceOk(h) && t in h.q.hands && h.q.hands[t].Taken?
    ensures Shape(h.q) && t in h.owed
    ensures var r := Apply(h.q, Move(t));
            t in r.hands && r.hands[t] == Moved(h.q.hands[t].idx, h.owed[t])
  {
    InvShape(h.q);
    assert Owes(h, t);
  }

  // ---- The object ------------------------------------------------------

  /** try_push by task t with nobody else stepping in between. */
  function PushSteps<T>(q: Queue<T>, t: nat, item: T): Queue<T>
    requires Inv(q) && t !in q.hands && q.free != []
  {
    InvShape(q);
    StepKeeps(q, Claim(t, item));
    var a := Apply(q, Claim(t, item));
    InvShape(a);
    StepKeeps(a, Store(t));
    var b := Apply(a, Store(t));
    InvShape(b);
    Apply(b, Publish(t))
  }

  function PopSteps<T>(q: Queue<T>, t: nat): Queue<T>
    requires Inv(q) && t !in q.hands && q.filled != []
  {
    InvShape(q);
    FrontFilled(q);
    StepKeeps(q, Take(t));
    var a := Apply(q, Take(t));
    InvShape(a);
    StepKeeps(a, Move(t));
    var b := Apply(a, Move(t));
    InvShape(b);
    Apply(b, Recycle(t))
  }

  predicate Pushed<T(==)>(q: Queue<T>, r: Queue<T>, item: T) {
    && q.free != [] && q.free[0] < |q.slots| && r.cap == q.cap && r.hands == q.hands
    && r.free == q.free[1..] && r.filled == q.filled + [q.free[0]] && r.slots == q.slots[q.free[0] := Some(item)]
  }

  predicate Popped<T(==)>(q: Queue<T>, r: Queue<T>) {
    && q.filled != [] && q.filled[0] < |q.slots| && q.slots[q.filled[0]].Some? && r.cap == q.cap && r.hands == q.hands
    && r.free == q.free + [q.filled[0]] && r.filled == q.filled[1..] && r.slots == q.slots[q.filled[0] := None]
  }

  lemma PushShape<T>(q: Queue<T>, t: nat, item: T)
    requires Inv(q) && t !in q.hands && q.free != []
    ensures Pushed(q, PushSteps(q, t, item), item) && Inv(PushSteps(q, t, item))
  {
    hide Inv;
    InvShape(q);
    StepKeeps(q, Claim(t, item));
    var a := Apply(q, Claim(t, item));
    InvShape(a);
    StepKeeps(a, Store(t));
    var b := Apply(a, Store(t));
    InvShape(b);
    StepKeeps(b, Publish(t));
    PublishHasRoom(b, t);
    hide Shape;
    assert b.hands - {t} == q.hands;
  }

  lemma PopShape<T>(q: Queue<T>, t: nat)
    requires Inv(q) && t !in q.hands && q.filled != []
    ensures Popped(q, PopSteps(q, t)) && Inv(PopSteps(q, t))
  {
    hide Inv;
    InvShape(q);
    FrontFilled(q);
    StepKeeps(q, Take(t));
    var a := Apply(q, Take(t));
    InvShape(a);
    StepKeeps(a, Move(t));
    var b := Apply(a, Move(t));
    InvShape(b);
    StepKeeps(b, Recycle(t));
    hide Shape;
    assert b.hands - {t} == q.hands;
  }

  lemma FreeNotFilled<T>(q: Queue<T>)
    requires Inv(q) && q.free != []
    ensures q.free[0] !in q.filled
  {
    var w :| Owned(q, w);
    assert w[q.free[0]] == Free && forall k :: 0 <= k < |q.filled| ==> w[q.filled[k]] == Filled;
  }

  lemma FilledDistinct<T>(q: Queue<T>)
    requires Inv(q)
    ensures Distinct(q.filled)
  {
    var w :| Owned(q, w);
  }

  /** A whole push appends its item and leaves the other tasks' indices alone. */
  lemma PushAppends<T>(q: Queue<T>, t: nat, item: T)
    requires Inv(q) && t !in q.hands && q.free != []
    ensures var r := PushSteps(q, t, item);
            Inv(r) && Pushed(q, r, item) && Contents(r) == Contents(q) + [Some(item)]
  {
    PushShape(q, t, item);
    FreeNotFilled(q);
    hide Inv;
    hide PushSteps;
    var r := PushSteps(q, t, item);
    forall k | 0 <= k < |q.filled| ensures Contents(r)[k] == Contents(q)[k] {
      assert q.filled[k] in q.filled;
    }
  }

  /** A whole pop removes the front item and delivers it. */
  lemma PopRemoves<T>(q: Queue<T>, t: nat)
    requires Inv(q) && t !in q.hands && q.filled != []
    ensures var r := PopSteps(q, t);
            Inv(r) && Popped(q, r) && Contents(q) == [q.slots[q.filled[0]]] + Contents(r)
  {
    hide Inv;
    hide PopSteps;
    PopShape(q, t);
    FilledDistinct(q);
    var r := PopSteps(q, t);
    forall k | 0 <= k < |r.filled| ensures Contents(r)[k] == Contents(q)[k + 1] {
      assert q.filled[k + 1] != q.filled[0];
    }
  }

  class WaitFreeQueue<T> {
    const cap: nat
    const slots: array<Option<T>>
    var free: seq<nat>
    var filled: seq<nat>
    ghost var hands: map<nat, Hand<T>>

    ghost function View(): Queue<T>
      reads this, slots
    {
      Queue(cap, slots[..], free, filled, hands)
    }

    /** init. */
    constructor (cap: nat)
      requires 0 < cap < 256
      ensures View() == Fresh(cap) && fresh(slots)
    {
      this.cap := cap;
      slots := new Option<T>[cap](_ => None);
      free := seq(cap, i => i);
      filled := [];
      hands := map[];
    }

    method TryPush(item: T, ghost t: nat) returns (ok: bool)
      requires Inv(View()) && t !in hands
      modifies this`free, this`filled, slots
      ensures ok <==> old(|filled| + |hands|) < cap
      ensures !ok ==> View() == old(View())
      ensures ok ==> Inv(View()) && Contents(View()) == old(Contents(View())) + [Some(item)]
    {
      ghost var q := View();
      RefusedIff(q);
      if |free| == 0 { return false; }
      PushAppends(q, t, item);
      hide PushSteps;
      hide Inv;
      hide Contents;
      var idx := free[0];
      free := free[1..];
      slots[idx] := Some(item);
      filled := filled + [idx];
      assert View() == PushSteps(q, t, item);
      ok := true;
    }

    method Peek() returns (r: Option<T>)
      requires Inv(View())
      ensures r == if |filled| == 0 then None else Contents(View())[0]
      ensures |filled| > 0 ==> r.Some?
    {
      if |filled| == 0 { return None; }
      FrontFilled(View());
      r := slots[filled[0]];
    }

    method TryPop(ghost t: nat) returns (r: Option<T>)
      requires Inv(View()) && t !in hands
      modifies this`free, this`filled, slots
      ensures r.None? <==> old(filled) == []
      ensures r.None? ==> View() == old(View())
      ensures r.Some? ==> Inv(View()) && old(Contents(View())) == [r] + Contents(View())
    {
      ghost var q := View();
      if |filled| == 0 { return None; }
      PopRemoves(q, t);
      hide PopSteps;
      hide Inv;
      hide Contents;
      var idx := filled[0];
      filled := filled[1..];
      r := slots[idx];
      slots[idx] := None;
      free := free + [idx];
      assert View() == PopSteps(q, t);
    }
  }
}
