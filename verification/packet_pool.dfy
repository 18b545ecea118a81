/** packet_allocator and its handles: 8-bit reference counts, a queue of free indices, and any
    number of tasks allocating, sharing, moving and dropping handles at once. */
module PacketPool {
  import opened Bytes
  import opened Listing

  const POOL_MAX: nat := 20

  /** `handles` maps each live handle to its buffer; `taking` and `returning` are tasks between
      two steps, each with one index. */
  datatype Pool = Pool(count: nat, refs: seq<byte>, free: seq<nat>, handles: map<nat, nat>, taking: map<nat, nat>,
                       returning: map<nat, nat>)

  datatype Step =
    | Take(task: nat)
    | Begin(task: nat, h: nat)
    | Share(h: nat, copy: nat)
    | Steal(h: nat, into: nat)
    | Drop(task: nat, h: nat)
    | Return(task: nat)

  /** fetch_add and fetch_sub on an 8-bit counter. */
  function Inc(b: byte): byte {
    var v: int := b;
    (v + 1) % 256
  }

  function Dec(b: byte): byte {
    var v: int := b;
    (v + 255) % 256
  }

  function Fresh(count: nat): Pool {
    Pool(count, seq<byte>(count, i => 0), seq(count, i => i), map[], map[], map[])
  }

  predicate Shape(p: Pool) {
    && |p.refs| == p.count && (forall h :: h in p.handles ==> p.handles[h] < p.count)
    && (forall k :: 0 <= k < |p.free| ==> p.free[k] < p.count)
    && (forall t :: t in p.taking ==> p.taking[t] < p.count)
    && (forall t :: t in p.returning ==> p.returning[t] < p.count)
  }

  predicate Enabled(p: Pool, s: Step) {
    match s
    case Take(t) => t !in p.taking && t !in p.returning
    case Begin(t, h) => t in p.taking && h !in p.handles
    case Share(h, copy) => h in p.handles && copy !in p.handles
    case Steal(h, into) => h in p.handles && into !in p.handles
    case Drop(t, h) => h in p.handles && t !in p.taking && t !in p.returning
    case Return(t) => t in p.returning
  }

  /** One atomic step: an operation on the free queue or on one reference count. */
  function Apply(p: Pool, s: Step): (r: Pool)
    requires Shape(p) && Enabled(p, s)
    ensures r.count == p.count
  {
    match s
    case Take(t) => if p.free == [] then p else p.(free := p.free[1..], taking := p.taking[t := p.free[0]])
    case Begin(t, h) =>
      p.(refs := p.refs[p.taking[t] := 1], handles := p.handles[h := p.taking[t]], taking := p.taking - {t})
    case Share(h, copy) =>
      var i := p.handles[h];
      p.(refs := p.refs[i := Inc(p.refs[i])], handles := p.handles[copy := i])
    case Steal(h, into) => p.(handles := (p.handles - {h})[into := p.handles[h]])
    case Drop(t, h) =>
      var i := p.handles[h];
      var q := p.(refs := p.refs[i := Dec(p.refs[i])], handles := p.handles - {h});
      if p.refs[i] == 1 then q.(returning := q.returning[t := i]) else q
    case Return(t) => p.(free := p.free + [p.returning[t]], returning := p.returning - {t})
  }

  // ---- Invariant -------------------------------------------------------

  /** Handles of buffer i. */
  function HandlesOf(handles: map<nat, nat>, i: nat): set<nat> { set h | h in handles && handles[h] == i }

  function Live(p: Pool, i: nat): nat { |HandlesOf(p.handles, i)| }

  datatype Owner = Free | Taking(t: nat) | Returning(t: nat) | InUse

  ghost predicate Owned(p: Pool, w: seq<Owner>) {
    && |w| == p.count && Shape(p) && Listed(p.free, w, Free)
    && (forall i: nat :: i < p.count ==> PlaceOk(p, w[i], i))
    && (forall t :: t in p.taking ==> w[p.taking[t]] == Taking(t))
    && (forall t :: t in p.returning ==> w[p.returning[t]] == Returning(t))
  }

  /** Free, in transit and distinct live buffers add up to the pool. */
  ghost predicate Conserved(p: Pool) {
    |p.free| + |p.taking| + |p.returning| + |p.handles.Values| == p.count
  }

  predicate RefOk(ref: byte, live: nat) { ref == live % 256 }

  /** An index is free or in transit exactly when it has no handle, and the count is the number
      of handles modulo 256. */
  ghost predicate PlaceOk(p: Pool, o: Owner, i: nat)
    requires i < |p.refs|
  {
    && RefOk(p.refs[i], Live(p, i)) && (o == InUse <==> Live(p, i) > 0)
    && (o.Taking? ==> o.t in p.taking && p.taking[o.t] == i)
    && (o.Returning? ==> o.t in p.returning && p.returning[o.t] == i)
  }

  ghost predicate Inv(p: Pool) { Conserved(p) && exists w :: Owned(p, w) }

  // ---- Handle counting -------------------------------------------------

  lemma LiveAdd(handles: map<nat, nat>, h: nat, i: nat)
    requires h !in handles
    ensures forall j: nat :: |HandlesOf(handles[h := i], j)| == |HandlesOf(handles, j)| + (if j == i then 1 else 0)
    ensures handles[h := i].Values == handles.Values + {i}
  {
    var r := handles[h := i];
    forall j: nat ensures |HandlesOf(r, j)| == |HandlesOf(handles, j)| + (if j == i then 1 else 0) {
      if j == i {
        assert HandlesOf(r, j) == HandlesOf(handles, j) + {h};
      } else {
        assert HandlesOf(r, j) == HandlesOf(handles, j);
      }
    }
    forall v | v in handles.Values ensures v in r.Values {
      var g :| g in handles && handles[g] == v;
      assert g in r && r[g] == v;
    }
    assert h in r && r[h] == i;
  }

  lemma LiveDrop(handles: map<nat, nat>, h: nat)
    requires h in handles
    ensures forall j: nat ::
              |HandlesOf(handles - {h}, j)| == |HandlesOf(handles, j)| - (if j == handles[h] then 1 else 0)
    ensures (handles - {h}).Values
            == if |HandlesOf(handles, handles[h])| == 1 then handles.Values - {handles[h]} else handles.Values
  {
    var r, i := handles - {h}, handles[h];
    assert r[h := i] == handles;
    LiveAdd(r, h, i);
    HasHandle(r, i);
  }

  /** A buffer has a handle exactly when it is some handle's value. */
  lemma HasHandle(handles: map<nat, nat>, i: nat)
    ensures i in handles.Values <==> |HandlesOf(handles, i)| > 0
  {
    if i in handles.Values {
      var h :| h in handles && handles[h] == i;
      assert h in HandlesOf(handles, i);
    }
    if |HandlesOf(handles, i)| > 0 {
      var h :| h in HandlesOf(handles, i);
    }
  }

  lemma LiveMove(handles: map<nat, nat>, h: nat, into: nat)
    requires h in handles && into !in handles
    ensures var r := (handles - {h})[into := handles[h]];
            (forall j: nat :: |HandlesOf(r, j)| == |HandlesOf(handles, j)|) && r.Values == handles.Values
  {
    LiveDrop(handles, h);
    LiveAdd(handles - {h}, into, handles[h]);
    HasHandle(handles, handles[h]);
    assert h in HandlesOf(handles, handles[h]);
  }

  // ---- Steps -----------------------------------------------------------

  lemma MapAdd(m: map<nat, nat>, t: nat, i: nat)
    requires t !in m
    ensures |m[t := i]| == |m| + 1
  {
    assert m[t := i].Keys == m.Keys + {t};
  }

  lemma MapDrop(m: map<nat, nat>, t: nat)
    requires t in m
    ensures |m - {t}| == |m| - 1
  {
    assert (m - {t}).Keys == m.Keys - {t};
  }

  lemma FreshInv(count: nat)
    ensures Inv(Fresh(count))
  {
    var p := Fresh(count);
    var w := seq(count, i => Free);
    forall i: nat | i < count ensures i in p.free && Live(p, i) == 0 {
      assert p.free[i] == i;
      assert HandlesOf(p.handles, i) == {};
    }
    assert p.handles.Values == {};
    assert Owned(p, w);
  }

  /** What a task holds is its own. */
  lemma InTransit(p: Pool, w: seq<Owner>, t: nat)
    requires Owned(p, w)
    ensures t in p.taking ==> w[p.taking[t]] == Taking(t) && Live(p, p.taking[t]) == 0
    ensures t in p.returning ==> w[p.returning[t]] == Returning(t) && Live(p, p.returning[t]) == 0
                                 && p.refs[p.returning[t]] == 0
    ensures forall u :: u in p.taking && t in p.taking && u != t ==> p.taking[u] != p.taking[t]
    ensures forall u :: u in p.returning && t in p.returning && u != t ==> p.returning[u] != p.returning[t]
    ensures forall u :: u in p.returning && t in p.taking ==> p.returning[u] != p.taking[t]
    ensures forall u :: u in p.taking && t in p.returning ==> p.taking[u] != p.returning[t]
  {
    hide HandlesOf;
    hide Listed;
    if t in p.taking { assert PlaceOk(p, w[p.taking[t]], p.taking[t]); }
    if t in p.returning { assert PlaceOk(p, w[p.returning[t]], p.returning[t]); }
  }

  lemma IncRef(ref: byte, live: nat)
    requires RefOk(ref, live)
    ensures RefOk(Inc(ref), live + 1)
  {
  }

  lemma DecRef(ref: byte, live: nat)
    requires RefOk(ref, live) && live > 0
    ensures RefOk(Dec(ref), live - 1) && (ref == 1 <==> live % 256 == 1)
  {
  }

  /** Only the count of one buffer moved, and it stays in use. */
  lemma SameOwner(p: Pool, r: Pool, w: seq<Owner>, x: nat, ref: byte)
    requires Owned(p, w) && x < p.count && r.refs == p.refs[x := ref]
    requires r.count == p.count && r.free == p.free && r.taking == p.taking && r.returning == p.returning
    requires forall h :: h in r.handles ==> r.handles[h] < p.count
    requires forall i: nat :: i != x ==> Live(r, i) == Live(p, i)
    requires RefOk(ref, Live(r, x)) && (Live(r, x) > 0 <==> Live(p, x) > 0)
    ensures Owned(r, w)
  {
    hide HandlesOf;
    hide Live;
    hide Listed;
    hide RefOk;
    forall i: nat | i < p.count ensures PlaceOk(r, w[i], i) { assert PlaceOk(p, w[i], i); }
  }

  lemma ShareKeeps(p: Pool, w: seq<Owner>, h: nat, copy: nat)
    requires Owned(p, w) && Conserved(p) && Enabled(p, Share(h, copy))
    ensures Owned(Apply(p, Share(h, copy)), w) && Conserved(Apply(p, Share(h, copy)))
  {
    var x := p.handles[h];
    LiveAdd(p.handles, copy, x);
    HasHandle(p.handles, x);
    assert x in p.handles.Values;
    assert p.handles.Values + {x} == p.handles.Values;
    assert PlaceOk(p, w[x], x);
    IncRef(p.refs[x], Live(p, x));
    hide HandlesOf;
    hide Listed;
    hide RefOk;
    var r := Apply(p, Share(h, copy));
    SameOwner(p, r, w, x, Inc(p.refs[x]));
  }

  lemma StealKeeps(p: Pool, w: seq<Owner>, h: nat, into: nat)
    requires Owned(p, w) && Conserved(p) && Enabled(p, Steal(h, into))
    ensures Owned(Apply(p, Steal(h, into)), w) && Conserved(Apply(p, Steal(h, into)))
  {
    var x := p.handles[h];
    LiveMove(p.handles, h, into);
    assert PlaceOk(p, w[x], x);
    hide HandlesOf;
    hide Listed;
    hide RefOk;
    SameOwner(p, Apply(p, Steal(h, into)), w, x, p.refs[x]);
  }

  /** Dropping is safe unless the count has wrapped to one with handles to spare. */
  predicate SafeDrop(p: Pool, h: nat)
    requires h in p.handles
  {
    Live(p, p.handles[h]) % 256 == 1 ==> Live(p, p.handles[h]) == 1
  }

  lemma DropShared(p: Pool, w: seq<Owner>, t: nat, h: nat)
    requires Owned(p, w) && Conserved(p) && Enabled(p, Drop(t, h)) && SafeDrop(p, h) && Live(p, p.handles[h]) != 1
    ensures Owned(Apply(p, Drop(t, h)), w) && Conserved(Apply(p, Drop(t, h)))
  {
    var x := p.handles[h];
    LiveDrop(p.handles, h);
    HasHandle(p.handles, x);
    assert x in p.handles.Values && PlaceOk(p, w[x], x);
    DecRef(p.refs[x], Live(p, x));
    hide HandlesOf;
    hide Listed;
    hide RefOk;
    SameOwner(p, Apply(p, Drop(t, h)), w, x, Dec(p.refs[x]));
  }

  /** The index tables of two states agree but for entries of x, which `mine` may keep. */
  ghost predicate SameBut(a: map<nat, nat>, b: map<nat, nat>, x: nat) {
    && (forall t :: t in b && b[t] != x ==> t in a && a[t] == b[t])
    && (forall t :: t in a && a[t] != x ==> t in b && b[t] == a[t])
  }

  /** Index x passes to another owner; nothing else moves. */
  lemma NewOwner(p: Pool, r: Pool, w: seq<Owner>, x: nat, o: Owner)
    requires Owned(p, w) && Shape(r) && r.count == p.count && x < p.count
    requires Listed(r.free, w[x := o], Free) && SameBut(p.taking, r.taking, x) && SameBut(p.returning, r.returning, x)
    requires forall i: nat :: i < p.count && i != x ==> r.refs[i] == p.refs[i] && Live(r, i) == Live(p, i)
    requires PlaceOk(r, o, x)
    requires forall t :: t in r.taking && r.taking[t] == x ==> o == Taking(t)
    requires forall t :: t in r.returning && r.returning[t] == x ==> o == Returning(t)
    ensures Owned(r, w[x := o])
  {
    hide HandlesOf;
    hide Live;
    hide Listed;
    hide RefOk;
    var v := w[x := o];
    forall i: nat | i < p.count ensures PlaceOk(r, v[i], i) {
      if i != x { assert PlaceOk(p, w[i], i); }
    }
  }

  lemma TakeOwner(p: Pool, w: seq<Owner>, t: nat)
    requires Owned(p, w) && Enabled(p, Take(t)) && p.free != []
    ensures Owned(Apply(p, Take(t)), w[p.free[0] := Taking(t)])
  {
    var x := p.free[0];
    ListedTail(p.free, w, Free, Taking(t));
    assert PlaceOk(p, w[x], x) && w[x] == Free;
    hide Listed;
    hide RefOk;
    hide HandlesOf;
    var r := Apply(p, Take(t));
    assert SameBut(p.taking, r.taking, x) && SameBut(p.returning, r.returning, x);
    NewOwner(p, r, w, x, Taking(t));
  }

  lemma BeginOwner(p: Pool, w: seq<Owner>, t: nat, h: nat)
    requires Owned(p, w) && Enabled(p, Begin(t, h))
    ensures Owned(Apply(p, Begin(t, h)), w[p.taking[t] := InUse])
  {
    hide Listed;
    hide HandlesOf;
    var x := p.taking[t];
    InTransit(p, w, t);
    ListedOther(p.free, w, Free, x, InUse);
    LiveAdd(p.handles, h, x);
    var r := Apply(p, Begin(t, h));
    assert RefOk(1, 1) && Live(r, x) == 1;
    hide RefOk;
    assert SameBut(p.taking, r.taking, x) && SameBut(p.returning, r.returning, x);
    NewOwner(p, r, w, x, InUse);
  }

  lemma DropOwner(p: Pool, w: seq<Owner>, t: nat, h: nat)
    requires Owned(p, w) && Enabled(p, Drop(t, h)) && Live(p, p.handles[h]) == 1
    ensures Owned(Apply(p, Drop(t, h)), w[p.handles[h] := Returning(t)])
  {
    var x := p.handles[h];
    LiveDrop(p.handles, h);
    assert PlaceOk(p, w[x], x) && w[x] == InUse;
    DecRef(p.refs[x], Live(p, x));
    ListedOther(p.free, w, Free, x, Returning(t));
    var r := Apply(p, Drop(t, h));
    assert Live(r, x) == 0 && r.returning == p.returning[t := x];
    hide Listed;
    hide RefOk;
    hide HandlesOf;
    assert SameBut(p.taking, r.taking, x) && SameBut(p.returning, r.returning, x);
    NewOwner(p, r, w, x, Returning(t));
  }

  lemma ReturnOwner(p: Pool, w: seq<Owner>, t: nat)
    requires Owned(p, w) && Enabled(p, Return(t))
    ensures Owned(Apply(p, Return(t)), w[p.returning[t] := Free])
  {
    var x := p.returning[t];
    InTransit(p, w, t);
    ListedSnoc(p.free, w, Free, x);
    assert PlaceOk(p, w[x], x);
    hide Listed;
    hide RefOk;
    hide HandlesOf;
    var r := Apply(p, Return(t));
    assert SameBut(p.taking, r.taking, x) && SameBut(p.returning, r.returning, x);
    NewOwner(p, r, w, x, Free);
  }

  lemma BuffersGrow(handles: map<nat, nat>, h: nat, x: nat)
    requires h !in handles && |HandlesOf(handles, x)| == 0
    ensures |handles[h := x].Values| == |handles.Values| + 1
  {
    LiveAdd(handles, h, x);
    HasHandle(handles, x);
  }

  lemma BuffersShrink(handles: map<nat, nat>, h: nat)
    requires h in handles && |HandlesOf(handles, handles[h])| == 1
    ensures |(handles - {h}).Values| == |handles.Values| - 1
  {
    LiveDrop(handles, h);
    HasHandle(handles, handles[h]);
  }

  lemma OwnedRef(p: Pool, w: seq<Owner>, h: nat)
    requires Owned(p, w) && h in p.handles
    ensures p.handles[h] < |p.refs| && RefOk(p.refs[p.handles[h]], Live(p, p.handles[h]))
  {
    assert PlaceOk(p, w[p.handles[h]], p.handles[h]);
  }

  // The pool's total, step by step.

  lemma TakeConserves(p: Pool, t: nat)
    requires Shape(p) && Conserved(p) && Enabled(p, Take(t)) && p.free != []
    ensures Conserved(Apply(p, Take(t)))
  {
    hide Shape;
    MapAdd(p.taking, t, p.free[0]);
  }

  lemma BeginConserves(p: Pool, t: nat, h: nat)
    requires Shape(p) && Conserved(p) && Enabled(p, Begin(t, h)) && Live(p, p.taking[t]) == 0
    ensures Conserved(Apply(p, Begin(t, h)))
  {
    hide HandlesOf;
    hide Shape;
    BuffersGrow(p.handles, h, p.taking[t]);
    MapDrop(p.taking, t);
  }

  lemma ReturnConserves(p: Pool, t: nat)
    requires Shape(p) && Conserved(p) && Enabled(p, Return(t))
    ensures Conserved(Apply(p, Return(t)))
  {
    hide Shape;
    MapDrop(p.returning, t);
  }

  lemma DropConserves(p: Pool, t: nat, h: nat)
    requires Shape(p) && Conserved(p) && Enabled(p, Drop(t, h)) && Live(p, p.handles[h]) == 1
    requires p.refs[p.handles[h]] == 1
    ensures Conserved(Apply(p, Drop(t, h)))
  {
    hide HandlesOf;
    hide Shape;
    BuffersShrink(p.handles, h);
    MapAdd(p.returning, t, p.handles[h]);
  }

  lemma OwnedShape(p: Pool, w: seq<Owner>)
    requires Owned(p, w)
    ensures Shape(p) && |w| == p.count == |p.refs|
  {
    hide Listed;
    hide PlaceOk;
  }

  lemma MoveKeeps(p: Pool, w: seq<Owner>, s: Step) returns (v: seq<Owner>)
    requires Owned(p, w) && Conserved(p) && Enabled(p, s)
    requires (s.Take? && p.free != []) || s.Begin? || s.Return? || (s.Drop? && Live(p, p.handles[s.h]) == 1)
    ensures Shape(p) && Owned(Apply(p, s), v) && Conserved(Apply(p, s))
  {
    hide Owned;
    hide Conserved;
    hide Apply;
    hide Live;
    OwnedShape(p, w);
    InTransit(p, w, if s.Share? || s.Steal? then 0 else s.task);
    if s.Drop? {
      OwnedRef(p, w, s.h);
      DecRef(p.refs[p.handles[s.h]], 1);
    }
    assert s.Drop? ==> p.refs[p.handles[s.h]] == 1;
    hide Shape;
    if s.Take? {
      TakeOwner(p, w, s.task);
      TakeConserves(p, s.task);
      v := w[p.free[0] := Taking(s.task)];
    } else if s.Begin? {
      BeginOwner(p, w, s.task, s.h);
      BeginConserves(p, s.task, s.h);
      v := w[p.taking[s.task] := InUse];
    } else if s.Return? {
      ReturnOwner(p, w, s.task);
      ReturnConserves(p, s.task);
      v := w[p.returning[s.task] := Free];
    } else {
      DropOwner(p, w, s.task, s.h);
      DropConserves(p, s.task, s.h);
      v := w[p.handles[s.h] := Returning(s.task)];
    }
  }

  /** Every step keeps the pool, a drop provided it is safe. */
  lemma StepKeeps(p: Pool, s: Step)
    requires Inv(p) && Enabled(p, s) && (s.Drop? ==> SafeDrop(p, s.h))
    ensures Shape(p) && Inv(Apply(p, s))
  {
    var w: seq<Owner> :| Owned(p, w);
    assert Shape(p) && ((s.Take? && p.free == []) ==> Apply(p, s) == p);
    hide Owned;
    hide Conserved;
    hide Apply;
    hide Shape;
    hide SafeDrop;
    hide Live;
    if s.Share? {
      ShareKeeps(p, w, s.h, s.copy);
    } else if s.Steal? {
      StealKeeps(p, w, s.h, s.into);
    } else if s.Drop? && Live(p, p.handles[s.h]) != 1 {
      DropShared(p, w, s.task, s.h);
    } else if !s.Take? || p.free != [] {
      var v := MoveKeeps(p, w, s);
    }
  }

  // ---- What the invariant says -----------------------------------------

  /** A buffer is free or in transit exactly when nobody has a handle, each index in one place
      only; below 256 handles the count is exact; and nothing leaks. */
  lemma PoolSound(p: Pool, i: nat)
    requires Inv(p) && i < p.count
    ensures |p.refs| == p.count
    ensures Live(p, i) == 0 <==> i in p.free || i in p.taking.Values || i in p.returning.Values
    ensures i in p.free ==> i !in p.taking.Values && i !in p.returning.Values
    ensures i in p.taking.Values ==> i !in p.returning.Values
    ensures Distinct(p.free)
    ensures Live(p, i) < 256 ==> p.refs[i] == Live(p, i)
    ensures |p.free| + |p.taking| + |p.returning| + |p.handles.Values| == p.count
  {
    var w: seq<Owner> :| Owned(p, w);
    hide HandlesOf;
    assert PlaceOk(p, w[i], i);
    if w[i].Taking? { assert p.taking[w[i].t] == i; }
    if w[i].Returning? { assert p.returning[w[i].t] == i; }
  }

  /** A drop keeps the pool if and only if it is safe: dropping one of 257, 513, ... handles
      puts a buffer that is still in use back on the free queue. */
  lemma DropExact(p: Pool, t: nat, h: nat)
    requires Inv(p) && Enabled(p, Drop(t, h))
    ensures Shape(p) && (Inv(Apply(p, Drop(t, h))) <==> SafeDrop(p, h))
  {
    hide Owned;
    hide HandlesOf;
    hide Conserved;
    InvShape(p);
    hide Shape;
    if SafeDrop(p, h) {
      StepKeeps(p, Drop(t, h));
    } else {
      UnsafeDrop(p, t, h);
      var r := Apply(p, Drop(t, h));
      InvCount(p);
      assert t in r.returning && r.returning[t] in r.returning.Values;
      if Inv(r) { PoolSound(r, p.handles[h]); }
    }
  }

  /** What an unsafe drop does: the buffer goes back while others hold it. */
  lemma UnsafeDrop(p: Pool, t: nat, h: nat)
    requires Inv(p) && Enabled(p, Drop(t, h)) && !SafeDrop(p, h)
    ensures Shape(p) && p.handles[h] < p.count
    ensures var r := Apply(p, Drop(t, h));
            t in r.returning && r.returning[t] == p.handles[h] && Live(r, p.handles[h]) > 0
  {
    var w: seq<Owner> :| Owned(p, w);
    var x := p.handles[h];
    OwnedRef(p, w, h);
    DecRef(p.refs[x], Live(p, x));
    LiveDrop(p.handles, h);
    hide HandlesOf;
    hide Listed;
    hide PlaceOk;
  }

  lemma InvCount(p: Pool)
    requires Inv(p)
    ensures |p.refs| == p.count
  {
    InvShape(p);
  }

  predicate Few(p: Pool) { forall i: nat :: i < p.count ==> Live(p, i) <= 256 }

  /** A caller who shares only buffers with at most 255 handles never meets an unsafe drop. */
  predicate Careful(p: Pool, s: Step) {
    s.Share? && s.h in p.handles ==> Live(p, p.handles[s.h]) <= 255
  }

  lemma FewAfter(p: Pool, s: Step)
    requires Shape(p) && Few(p) && Enabled(p, s) && Careful(p, s) && (s.Begin? ==> Live(p, p.taking[s.task]) == 0)
    ensures Few(Apply(p, s))
  {
    if s.Begin? { LiveAdd(p.handles, s.h, p.taking[s.task]); }
    if s.Share? { LiveAdd(p.handles, s.copy, p.handles[s.h]); }
    if s.Steal? { LiveMove(p.handles, s.h, s.into); }
    if s.Drop? { LiveDrop(p.handles, s.h); }
    hide HandlesOf;
    hide Shape;
    var r := Apply(p, s);
    forall i: nat | i < p.count ensures Live(r, i) <= 256 { assert Live(p, i) <= 256; }
  }

  lemma FewSafe(p: Pool, h: nat)
    requires Shape(p) && Few(p) && h in p.handles
    ensures SafeDrop(p, h)
  {
    assert Live(p, p.handles[h]) <= 256;
  }

  lemma CarefulKeeps(p: Pool, s: Step)
    requires Inv(p) && Few(p) && Enabled(p, s) && Careful(p, s)
    ensures Shape(p) && Inv(Apply(p, s)) && Few(Apply(p, s))
  {
    var w: seq<Owner> :| Owned(p, w);
    InvShape(p);
    if s.Begin? { InTransit(p, w, s.task); }
    hide Owned;
    hide Inv;
    hide Live;
    if s.Drop? { FewSafe(p, s.h); }
    hide Few;
    hide SafeDrop;
    hide Shape;
    hide Apply;
    StepKeeps(p, s);
    FewAfter(p, s);
  }

  function Run(p: Pool, ss: seq<Step>): Option<Pool> {
    if ss == [] then Some(p)
    else
      var q := Run(p, ss[..|ss| - 1]);
      var s := ss[|ss| - 1];
      if q.None? || !Shape(q.value) || !Enabled(q.value, s) || !Careful(q.value, s) then None
      else Some(Apply(q.value, s))
  }

  /** Under every interleaving of allocations, shares, moves and drops by careful callers the
      pool stays sound. */
  lemma {:induction false} RunSound(count: nat, ss: seq<Step>)
    ensures var r := Run(Fresh(count), ss); r.Some? ==> Inv(r.value) && Few(r.value)
  {
    if ss == [] {
      FreshInv(count);
      assert forall i: nat :: HandlesOf(map[], i) == {};
    } else {
      RunSound(count, ss[..|ss| - 1]);
      var q := Run(Fresh(count), ss[..|ss| - 1]);
      if q.Some? && Enabled(q.value, ss[|ss| - 1]) && Careful(q.value, ss[|ss| - 1]) {
        CarefulKeeps(q.value, ss[|ss| - 1]);
      }
    }
  }

  /** A run of callers who need not be careful. */
  function Plain(p: Pool, ss: seq<Step>): Option<Pool> {
    if ss == [] then Some(p)
    else
      var q := Plain(p, ss[..|ss| - 1]);
      if q.None? || !Shape(q.value) || !Enabled(q.value, ss[|ss| - 1]) then None
      else Some(Apply(q.value, ss[|ss| - 1]))
  }

  lemma PlainSnoc(p: Pool, ss: seq<Step>, s: Step)
    requires Plain(p, ss).Some? && Shape(Plain(p, ss).value) && Enabled(Plain(p, ss).value, s)
    ensures Plain(p, ss + [s]) == Some(Apply(Plain(p, ss).value, s))
  {
    assert (ss + [s])[..|ss|] == ss;
  }

  /** Every drop of a run is safe where it happens. */
  predicate AllSafe(p: Pool, ss: seq<Step>) {
    ss == []
    || (AllSafe(p, ss[..|ss| - 1])
        && StepSafe(Plain(p, ss[..|ss| - 1]), ss[|ss| - 1]))
  }

  predicate StepSafe(p: Option<Pool>, s: Step) {
    s.Drop? && p.Some? && s.h in p.value.handles ==> SafeDrop(p.value, s.h)
  }

  /** The pool is sound at every point of a run. */
  ghost predicate AlwaysInv(p: Pool, ss: seq<Step>) {
    Plain(p, ss).Some? && Inv(Plain(p, ss).value) && (ss == [] || AlwaysInv(p, ss[..|ss| - 1]))
  }

  /** Under every interleaving whatever, the pool stays sound if and only if every drop is safe. */
  lemma {:induction false} PlainExact(count: nat, ss: seq<Step>)
    requires Plain(Fresh(count), ss).Some?
    ensures AlwaysInv(Fresh(count), ss) <==> AllSafe(Fresh(count), ss)
  {
    hide Inv;
    hide SafeDrop;
    hide Apply;
    hide Shape;
    hide Enabled;
    if ss == [] {
      FreshInv(count);
    } else {
      var before, s := ss[..|ss| - 1], ss[|ss| - 1];
      PlainExact(count, before);
      if AlwaysInv(Fresh(count), before) {
        var q := Plain(Fresh(count), before).value;
        if s.Drop? {
          EnabledDrop(q, s);
          DropExact(q, s.task, s.h);
        } else {
          StepKeeps(q, s);
        }
      }
    }
  }

  lemma EnabledDrop(p: Pool, s: Step)
    requires s.Drop? && Enabled(p, s)
    ensures s.h in p.handles
  {
  }

  /** A pool whose buffer 0 has n + 1 handles, numbered 0..n, and a run that makes it. */
  lemma {:induction false} Crowd(n: nat) returns (p: Pool, ss: seq<Step>)
    ensures Plain(Fresh(1), ss) == Some(p)
    ensures Inv(p) && p.count == 1 && Live(p, 0) == n + 1 && p.taking == map[] && p.returning == map[]
    ensures forall h: nat :: h in p.handles <==> h <= n
    ensures 0 in p.handles && p.handles[0] == 0
  {
    hide Inv;
    hide Live;
    hide Plain;
    hide Apply;
    hide Shape;
    if n == 0 {
      p := First();
      ss := [] + [Take(0)] + [Begin(0, 0)];
    } else {
      var q, before := Crowd(n - 1);
      CrowdMore(q, n);
      PlainSnoc(Fresh(1), before, Share(0, n));
      p := Apply(q, Share(0, n));
      ss := before + [Share(0, n)];
    }
  }

  lemma CrowdMore(q: Pool, n: nat)
    requires Inv(q) && q.count == 1 && Live(q, 0) == n && n > 0 && q.taking == map[] && q.returning == map[]
    requires 0 in q.handles && q.handles[0] == 0 && forall h: nat :: h in q.handles <==> h < n
    ensures Shape(q) && Enabled(q, Share(0, n))
    ensures var p := Apply(q, Share(0, n));
            && Inv(p) && p.count == 1 && Live(p, 0) == n + 1 && p.taking == map[] && p.returning == map[]
            && 0 in p.handles && p.handles[0] == 0 && forall h: nat :: h in p.handles <==> h <= n
  {
    hide Inv;
    hide HandlesOf;
    InvShape(q);
    StepKeeps(q, Share(0, n));
    LiveAdd(q.handles, n, 0);
  }

  lemma First() returns (p: Pool)
    ensures Plain(Fresh(1), [] + [Take(0)] + [Begin(0, 0)]) == Some(p)
    ensures Inv(p) && p.count == 1 && Live(p, 0) == 1 && p.taking == map[] && p.returning == map[]
    ensures p.handles == map[0 := 0]
  {
    FreshInv(1);
    hide Inv;
    var a := Fresh(1);
    assert a.free[0] == 0;
    StepKeeps(a, Take(0));
    PlainSnoc(a, [], Take(0));
    var b := Apply(a, Take(0));
    assert b.taking == map[0 := 0];
    StepKeeps(b, Begin(0, 0));
    PlainSnoc(a, [] + [Take(0)], Begin(0, 0));
    p := Apply(b, Begin(0, 0));
    LiveAdd(b.handles, 0, 0);
    assert HandlesOf(map[], 0) == {};
    assert b.taking - {0} == map[];
  }

  /** Nothing in the class stops the 257th handle: a run from the fresh pool reaches it, and
      dropping one of 257 frees the buffer under the other 256. */
  lemma WrapFreesLive() returns (p: Pool, ss: seq<Step>)
    ensures Plain(Fresh(1), ss) == Some(p)
    ensures Inv(p) && Live(p, 0) == 257 && 0 in p.handles && p.handles[0] == 0
    ensures Shape(p) && Enabled(p, Drop(0, 0)) && !Inv(Apply(p, Drop(0, 0)))
    ensures Apply(p, Drop(0, 0)).returning == map[0 := 0]
  {
    hide Plain;
    hide Inv;
    hide HandlesOf;
    p, ss := Crowd(256);
    assert !SafeDrop(p, 0);
    DropExact(p, 0, 0);
    UnsafeDrop(p, 0, 0);
  }

  lemma InvShape(p: Pool)
    requires Inv(p)
    ensures Shape(p)
  {
    var w: seq<Owner> :| Owned(p, w);
  }

  lemma LastRef(p: Pool, h: nat)
    requires Inv(p) && h in p.handles && SafeDrop(p, h)
    ensures p.handles[h] < |p.refs| && (p.refs[p.handles[h]] == 1 <==> Live(p, p.handles[h]) == 1)
  {
    var w: seq<Owner> :| Owned(p, w);
    OwnedRef(p, w, h);
  }

  function Allocated(p: Pool, h: nat): Pool
    requires Shape(p) && p.free != []
  {
    p.(refs := p.refs[p.free[0] := 1], free := p.free[1..], handles := p.handles[h := p.free[0]])
  }

  function Released(p: Pool, h: nat): Pool
    requires Shape(p) && h in p.handles
  {
    var x := p.handles[h];
    p.(refs := p.refs[x := Dec(p.refs[x])], handles := p.handles - {h},
       free := if p.refs[x] == 1 then p.free + [x] else p.free)
  }

  lemma AllocateIs(p: Pool, t: nat, h: nat)
    requires Shape(p) && p.free != [] && t !in p.taking && t !in p.returning && h !in p.handles
    ensures var q := Apply(p, Take(t)); Shape(q) && Enabled(q, Begin(t, h)) && Apply(q, Begin(t, h)) == Allocated(p, h)
  {
    var q := Apply(p, Take(t));
    assert q.taking - {t} == p.taking;
  }

  lemma ReleaseIs(p: Pool, t: nat, h: nat)
    requires Shape(p) && h in p.handles && t !in p.taking && t !in p.returning
    ensures var q := Apply(p, Drop(t, h));
            && Shape(q)
            && (if p.refs[p.handles[h]] == 1 then Enabled(q, Return(t)) && Apply(q, Return(t)) == Released(p, h)
                else q == Released(p, h))
  {
    var q := Apply(p, Drop(t, h));
    assert p.refs[p.handles[h]] == 1 ==> q.returning - {t} == p.returning;
  }

  /** Take and Begin by one task, nobody in between. */
  lemma AllocateSteps(p: Pool, t: nat, h: nat)
    requires Inv(p) && p.free != [] && t !in p.taking && t !in p.returning && h !in p.handles
    ensures Shape(p) && Live(p, p.free[0]) == 0 && Inv(Allocated(p, h))
  {
    InvShape(p);
    assert p.free[0] < p.count && p.free[0] in p.free;
    PoolSound(p, p.free[0]);
    AllocateIs(p, t, h);
    hide Inv;
    hide Live;
    hide Shape;
    hide Apply;
    hide Allocated;
    StepKeeps(p, Take(t));
    StepKeeps(Apply(p, Take(t)), Begin(t, h));
  }

  /** Drop, and Return when it was the last handle. */
  lemma ReleaseSteps(p: Pool, t: nat, h: nat)
    requires Inv(p) && h in p.handles && t !in p.taking && t !in p.returning && SafeDrop(p, h)
    ensures Shape(p) && Inv(Released(p, h))
  {
    InvShape(p);
    ReleaseIs(p, t, h);
    hide Inv;
    hide SafeDrop;
    hide Shape;
    hide Apply;
    hide Released;
    StepKeeps(p, Drop(t, h));
    var q := Apply(p, Drop(t, h));
    if p.refs[p.handles[h]] == 1 { StepKeeps(q, Return(t)); }
  }

  // ---- The object ------------------------------------------------------

  /** One task's view of the allocator; the other tasks' handles and indices are ghost. */
  class PacketAllocator {
    const count: nat
    const refs: array<byte>
    var free: seq<nat>
    ghost var handles: map<nat, nat>
    ghost var taking: map<nat, nat>
    ghost var returning: map<nat, nat>

    ghost function View(): Pool
      reads this, refs
    {
      Pool(count, refs[..], free, handles, taking, returning)
    }

    constructor (count: nat)
      requires 0 < count <= POOL_MAX
      ensures View() == Fresh(count) && Inv(View()) && fresh(refs)
    {
      this.count := count;
      refs := new byte[count](_ => 0);
      free := seq(count, i => i);
      handles, taking, returning := map[], map[], map[];
      new;
      FreshInv(count);
    }

    /** allocate: claim an index, then set its count to one. */
    method Allocate(ghost t: nat, ghost h: nat) returns (r: Option<nat>)
      requires Inv(View()) && t !in taking && t !in returning && h !in handles
      modifies this`free, this`handles, refs
      ensures Inv(View()) && (r.None? <==> old(free) == []) && (r.None? ==> View() == old(View()))
      ensures r.Some? ==> r.value == old(free)[0] && handles == old(handles)[h := r.value] && free == old(free)[1..]
      ensures r.Some? ==> Live(old(View()), r.value) == 0
    {
      ghost var p := View();
      if |free| == 0 { return None; }
      AllocateSteps(p, t, h);
      hide Inv;
      hide Live;
      var idx := free[0];
      free := free[1..];
      refs[idx] := 1;
      handles := handles[h := idx];
      r := Some(idx);
    }

    /** share of handle h: one more reference. */
    method AddRef(idx: nat, ghost h: nat, ghost copy: nat)
      requires Inv(View()) && h in handles && handles[h] == idx && copy !in handles
      modifies this`handles, refs
      ensures Inv(View()) && handles == old(handles)[copy := idx]
    {
      ghost var p := View();
      InvShape(p);
      StepKeeps(p, Share(h, copy));
      hide Inv;
      refs[idx] := Inc(refs[idx]);
      handles := handles[copy := idx];
      assert View() == Apply(p, Share(h, copy));
    }

    /** release of handle h: the last one puts the index back on the free queue. */
    method Release(idx: nat, ghost t: nat, ghost h: nat) returns (freed: bool)
      requires Inv(View()) && h in handles && handles[h] == idx && t !in taking && t !in returning
      requires SafeDrop(View(), h)
      modifies this`free, this`handles, refs
      ensures Inv(View()) && handles == old(handles) - {h}
      ensures freed <==> old(Live(View(), idx)) == 1
      ensures free == if freed then old(free) + [idx] else old(free)
    {
      ghost var p := View();
      LastRef(p, h);
      ReleaseSteps(p, t, h);
      hide Inv;
      hide Live;
      hide SafeDrop;
      var prev := refs[idx];
      refs[idx] := Dec(refs[idx]);
      handles := handles - {h};
      if prev != 1 { return false; }
      free := free + [idx];
      freed := true;
    }
  }
}
