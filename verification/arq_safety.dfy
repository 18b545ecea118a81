/** What the byte pipe promises over every run: order, completeness up to now, and the window. */
module ArqSafety {
  import opened Bytes
  import opened ArqSpec
  import opened ArqLink
  import opened ArqSteps

  lemma OutputPrefix(x: Node, y: Node)
    requires Half(x, y)
    ensures y.Output() <= x.app
  {
    ConcatPrefix(x.segs, y.rcvd);
  }

  /** Over every run of the two streams and the radio, what each side has put out is a
      prefix of what the other side's application wrote. */
  lemma DeliveredIsPrefix(now: int, run: seq<Event>)
    requires Allowed(Init(now), run)
    ensures var s := Exec(Init(now), run);
            s.b.Output() <= s.a.app && s.a.Output() <= s.b.app
  {
    RunInv(Init(now), run);
    var s := Exec(Init(now), run);
    OutputPrefix(s.a, s.b);
    OutputPrefix(s.b, s.a);
  }

  lemma BufferedGenuine(y: Node, segs: seq<seq<byte>>, v: u16)
    requires Receiver(y, segs) && v in y.st.reorder
    ensures exists t: nat :: y.rcvd < t < y.rcvd + WINDOW && t < |segs| && t % WRAP == v
                             && y.st.reorder[v] == segs[t]
  {
    hide Concat;
    var t := TrueSeq(y, v);
    assert Buffered(y, segs) && v != y.st.rxSeq;
    assert t < y.rcvd + WINDOW && t < |segs| && y.st.reorder[v] == segs[t];
    hide Receiver;
    hide Buffered;
    TrueSeqWraps(y, v);
    assert y.rcvd < t < y.rcvd + WINDOW && t < |segs| && t % WRAP == v && y.st.reorder[v] == segs[t];
  }

  lemma TrueSeqWraps(y: Node, v: u16)
    requires y.st.rxSeq == y.rcvd % WRAP && v != y.st.rxSeq
    ensures TrueSeq(y, v) % WRAP == v && TrueSeq(y, v) > y.rcvd
  {
    var q := y.rcvd / WRAP;
    assert y.rcvd == q * WRAP + y.st.rxSeq;
    if v > y.st.rxSeq {
      assert TrueSeq(y, v) == q * WRAP + v;
    } else {
      assert TrueSeq(y, v) == (q + 1) * WRAP + v;
    }
  }

  /** The true counters are ordered, the window holds exactly the unacknowledged segments
      of x, the reorder buffer of y only genuine ones strictly ahead of the next expected,
      and a segment marked sacked is held by y. */
  ghost predicate WindowFacts(x: Node, y: Node) {
    && 0 <= x.Acked() <= y.rcvd <= |x.segs| <= x.Acked() + WINDOW
    && (forall i :: 0 <= i < |x.st.unacked| ==>
          && x.st.unacked[i].seqNo == (x.Acked() + i) % WRAP
          && x.st.unacked[i].payload == x.segs[x.Acked() + i]
          && (x.st.unacked[i].sacked ==> Held(y, x.Acked() + i)))
    && (forall v :: v in y.st.reorder ==>
          exists t: nat :: y.rcvd < t < y.rcvd + WINDOW && t < |x.segs| && t % WRAP == v
                           && y.st.reorder[v] == x.segs[t])
  }

  lemma HalfFacts(x: Node, y: Node)
    requires Half(x, y)
    ensures WindowFacts(x, y)
  {
    forall v | v in y.st.reorder
      ensures exists t: nat :: y.rcvd < t < y.rcvd + WINDOW && t < |x.segs| && t % WRAP == v
                               && y.st.reorder[v] == x.segs[t]
    {
      BufferedGenuine(y, x.segs, v);
    }
    hide Buffered;
  }

  /** The window facts hold in every reachable state, in both directions. */
  lemma WindowInvariant(now: int, run: seq<Event>)
    requires Allowed(Init(now), run)
    ensures var s := Exec(Init(now), run); WindowFacts(s.a, s.b) && WindowFacts(s.b, s.a)
  {
    RunInv(Init(now), run);
    var s := Exec(Init(now), run);
    hide Exec;
    hide Allowed;
    HalfFacts(s.a, s.b);
    HalfFacts(s.b, s.a);
  }

  /** The oldest unacknowledged segment is never marked sacked, so it is always resent. */
  lemma OldestNotSacked(x: Node, y: Node)
    requires Half(x, y) && x.st.unacked != []
    ensures !x.st.unacked[0].sacked
  {
  }
}
