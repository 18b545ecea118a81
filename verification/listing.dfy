/** Index queues: a sequence that lists each index of one owner exactly once. */
module Listing {
  predicate Distinct(s: seq<nat>) { forall i, j :: 0 <= i < j < |s| ==> s[i] != s[j] }

  /** A queue lists exactly its owner's indices, each once. */
  ghost predicate Listed<O>(s: seq<nat>, w: seq<O>, o: O) {
    && Distinct(s) && (forall k :: 0 <= k < |s| ==> s[k] < |w| && w[s[k]] == o)
    && (forall i: nat :: i < |w| && w[i] == o ==> i in s)
  }

  lemma ListedFront<O>(s: seq<nat>, w: seq<O>, o: O)
    requires s != [] && Listed(s, w, o)
    ensures s[0] < |w| && w[s[0]] == o
  {
  }

  lemma ListedTail<O>(s: seq<nat>, w: seq<O>, o: O, to: O)
    requires s != [] && Listed(s, w, o) && to != o
    ensures s[0] < |w| && Listed(s[1..], w[s[0] := to], o)
  {
    forall i: nat | i < |w| && i != s[0] && w[i] == o ensures i in s[1..] {
      assert i in s;
      var k :| 0 <= k < |s| && s[k] == i;
      assert s[1..][k - 1] == i;
    }
  }

  lemma ListedSnoc<O>(s: seq<nat>, w: seq<O>, o: O, x: nat)
    requires Listed(s, w, o) && x < |w| && w[x] != o
    ensures Listed(s + [x], w[x := o], o)
  {
    forall k | 0 <= k < |s| ensures s[k] != x {}
    forall i: nat | i < |w| && w[x := o][i] == o ensures i in s + [x] {
      if i == x { assert (s + [x])[|s|] == x; }
    }
  }

  lemma ListedOther<O>(s: seq<nat>, w: seq<O>, o: O, x: nat, to: O)
    requires Listed(s, w, o) && x < |w| && w[x] != o && to != o
    ensures Listed(s, w[x := to], o)
  {
  }
}
