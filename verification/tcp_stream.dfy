/** The stream object of tcp_stream.h: its fields are updated in place, loop by loop, and
    every method is proved against the function of ArqSpec that the link proofs reason about. */
module TcpStreamClass {
  import opened Bytes
  import opened ArqSpec

  lemma NewPendingCons(txSeq: u16, a: seq<byte>, rest: seq<seq<byte>>)
    ensures NewPending(txSeq, [a] + rest) ==
            [Pending(txSeq, a, 0, false, false)] + NewPending((txSeq + 1) % 65536, rest)
  {
    var l := NewPending(txSeq, [a] + rest);
    var r := [Pending(txSeq, a, 0, false, false)] + NewPending((txSeq + 1) % 65536, rest);
    forall i | 0 <= i < |l| ensures l[i] == r[i] {
      if i > 0 {
        assert (txSeq + i) % 65536 == ((txSeq + 1) % 65536 + (i - 1)) % 65536;
      }
    }
  }

  function SegmentSize(data: seq<byte>): nat {
    if |data| < MAX_SEGMENT then |data| else MAX_SEGMENT
  }

  lemma CutFirst(data: seq<byte>, room: nat)
    requires room > 0 && data != []
    ensures var n := SegmentSize(data);
            var rest := Cut(data[n..], room - 1);
            && Cut(data, room) == [data[..n]] + rest
            && n + |Concat(rest)| <= |data|
            && data[|Concat(Cut(data, room))|..] == data[n..][|Concat(rest)|..]
  {
    var n := SegmentSize(data);
    var rest := Cut(data[n..], room - 1);
    assert ([data[..n]] + rest)[1..] == rest;
    assert Concat([data[..n]] + rest) == data[..n] + Concat(rest);
  }

  /** Window, next number and waiting bytes after everything that fits has been cut. */
  ghost predicate CutTo(unacked: seq<Pending>, txSeq: u16, data: seq<byte>,
                        unacked': seq<Pending>, txSeq': u16, data': seq<byte>) {
    |unacked| <= WINDOW &&
    var segs := Cut(data, WINDOW - |unacked|);
    && unacked' == unacked + NewPending(txSeq, segs)
    && txSeq' == (txSeq + |segs|) % 65536
    && data' == data[|Concat(segs)|..]
  }

  lemma SnocCons(a: seq<Pending>, p: Pending, b: seq<Pending>)
    ensures a + ([p] + b) == a + [p] + b
  {
  }

  /** Cutting one segment off first changes nothing. */
  lemma CutStep(unacked: seq<Pending>, txSeq: u16, data: seq<byte>,
                unacked': seq<Pending>, txSeq': u16, data': seq<byte>)
    requires CutTo(unacked, txSeq, data, unacked', txSeq', data')
    requires |unacked| < WINDOW && data != []
    ensures var n := SegmentSize(data);
            CutTo(unacked + [Pending(txSeq, data[..n], 0, false, false)], (txSeq + 1) % 65536, data[n..],
                  unacked', txSeq', data')
  {
    hide Cut;
    hide NewPending;
    hide Concat;
    var n := SegmentSize(data);
    var p := Pending(txSeq, data[..n], 0, false, false);
    CutFirst(data, WINDOW - |unacked|);
    var rest := Cut(data[n..], WINDOW - |unacked| - 1);
    NewPendingCons(txSeq, data[..n], rest);
    SnocCons(unacked, p, NewPending((txSeq + 1) % 65536, rest));
    assert WINDOW - |unacked + [p]| == WINDOW - |unacked| - 1;
  }

  lemma CutDone(unacked: seq<Pending>, txSeq: u16, data: seq<byte>,
                unacked': seq<Pending>, txSeq': u16, data': seq<byte>)
    requires CutTo(unacked, txSeq, data, unacked', txSeq', data')
    requires |unacked| == WINDOW || data == []
    ensures unacked' == unacked && txSeq' == txSeq && data' == data
  {
    assert Cut(data, WINDOW - |unacked|) == [];
    assert unacked + [] == unacked;
  }

  /** The window numbers its segments consecutively, ending before the next to be sent. */
  ghost predicate Consecutive(unacked: seq<Pending>, txSeq: u16) {
    |unacked| <= WINDOW &&
    forall i :: 0 <= i < |unacked| ==> unacked[i].seqNo == (txSeq - |unacked| + i) % 65536
  }

  lemma Distinct(unacked: seq<Pending>, txSeq: u16, i: nat, j: nat)
    requires Consecutive(unacked, txSeq) && i < j < |unacked|
    ensures unacked[i].seqNo != unacked[j].seqNo
  {
  }

  function MarkUpTo(unacked: seq<Pending>, sn: u16, count: nat): seq<Pending> {
    seq(|unacked|, i requires 0 <= i < |unacked| =>
      unacked[i].(sacked := unacked[i].sacked || (unacked[i].seqNo - sn) % 65536 < count))
  }

  /** Marking block by block is marking by the whole list. */
  lemma MarkBlock(unacked: seq<Pending>, blocks: seq<byte>)
    requires |blocks| >= SACK_BLOCK
    ensures var sn, count := U16At(blocks, 0), U16At(blocks, 2);
            MarkSacked(unacked, blocks) ==
            MarkSacked(if 0 < count <= WINDOW then MarkUpTo(unacked, sn, count) else unacked, blocks[SACK_BLOCK..])
  {
    hide U16At;
  }

  lemma WindowBound(unacked: seq<Pending>, txSeq: u16)
    requires Consecutive(unacked, txSeq)
    ensures |unacked| <= WINDOW
  {
  }

  /** Two streams that differ in the receiving fields only. */
  ghost predicate SameButOutput(s: Stream, start: Stream) {
    s == start.(tcpOut := s.tcpOut, rxSeq := s.rxSeq, reorder := s.reorder)
  }

  lemma DrainUnfold(s: Stream, start: Stream)
    requires s.rxSeq in s.reorder && SameButOutput(s, start)
    ensures Drain(s) == Drain(DrainOne(s)) && SameButOutput(DrainOne(s), start)
    ensures DrainOne(s).tcpOut == s.tcpOut + s.reorder[s.rxSeq] && DrainOne(s).rxSeq == (s.rxSeq + 1) % 65536
    ensures DrainOne(s).reorder == s.reorder - {s.rxSeq} && |s.reorder - {s.rxSeq}| < |s.reorder|
  {
    assert (s.reorder - {s.rxSeq}).Keys == s.reorder.Keys - {s.rxSeq};
  }

  lemma DrainDone(s: Stream, start: Stream)
    requires s.rxSeq !in s.reorder && SameButOutput(s, start)
    ensures Drain(s) == start.(tcpOut := s.tcpOut, rxSeq := s.rxSeq, reorder := s.reorder)
  {
  }

  lemma NothingDrained(start: Stream)
    ensures SameButOutput(start, start)
  {
  }

  /** Position of the next entry of the ordered buffer, from `from` on. */
  method NextKey(keys: set<u16>, from: nat) returns (k: nat)
    requires from <= 65536
    ensures k == LeastFrom(keys, from)
  {
    k := from;
    while k < 65536 && k !in keys
      invariant from <= k <= 65536 && LeastFrom(keys, k) == LeastFrom(keys, from)
    {
      k := k + 1;
    }
  }

  /** Count the entries of the ordered buffer that continue the run at `sn`. */
  method RunFrom(keys: set<u16>, sn: nat) returns (count: nat)
    requires sn < 65536 && sn in keys
    ensures count == RunLength(keys, sn)
  {
    count := 1;
    while sn + count < 65536 && sn + count in keys
      invariant 1 <= count && sn + count <= 65536
      invariant count + RunLength(keys, sn + count) == RunLength(keys, sn)
      decreases 65536 - sn - count
    {
      count := count + 1;
    }
  }

  lemma SackStop(keys: set<u16>, from: nat, used: nat, room: nat)
    requires from <= 65536 && used <= MAX_SACK_BLOCKS
    requires used == MAX_SACK_BLOCKS || LeastFrom(keys, from) == 65536 || room < SACK_BLOCK
    ensures SackBlocks(keys, from, used, room) == []
  {
  }

  lemma SackUnfold(keys: set<u16>, from: nat, used: nat, room: nat, out: seq<byte>, all: seq<byte>)
    requires from <= 65536 && used < MAX_SACK_BLOCKS && room >= SACK_BLOCK && LeastFrom(keys, from) < 65536
    requires all == out + SackBlocks(keys, from, used, room)
    ensures var sn := LeastFrom(keys, from);
            var n := RunLength(keys, sn);
            all == out + (Be16(sn) + Be16(n % 65536)) + SackBlocks(keys, sn + n, used + 1, room - SACK_BLOCK)
  {
    hide LeastFrom;
    hide RunLength;
    hide Be16;
    var sn := LeastFrom(keys, from);
    var n := RunLength(keys, sn);
    var rest := SackBlocks(keys, sn + n, used + 1, room - SACK_BLOCK);
    assert out + (Be16(sn) + Be16(n % 65536) + rest) == out + (Be16(sn) + Be16(n % 65536)) + rest;
  }

  /** Loop of fill_sack_payload over the ordered buffer. */
  method WriteBlocks(keys: set<u16>, max: nat) returns (out: seq<byte>)
    ensures out == SackBlocks(keys, 0, 0, max)
  {
    hide RunLength;
    hide LeastFrom;
    hide SackBlocks;
    out := [];
    var blocks: nat := 0;
    var from: nat := 0;
    var it := NextKey(keys, from);
    ghost var all := SackBlocks(keys, 0, 0, max);
    assert all == [] + all;
    while it != 65536 && blocks < MAX_SACK_BLOCKS && |out| + SACK_BLOCK <= max
      invariant from <= 65536 && it == LeastFrom(keys, from)
      invariant blocks <= MAX_SACK_BLOCKS && |out| <= max
      invariant all == out + SackBlocks(keys, from, blocks, max - |out|)
      decreases MAX_SACK_BLOCKS - blocks
    {
      var sn: u16 := it;
      var count := RunFrom(keys, sn);
      SackUnfold(keys, from, blocks, max - |out|, out, all);
      out := out + (Be16(sn) + Be16(count % 65536));
      blocks := blocks + 1;
      from := sn + count;
      it := NextKey(keys, from);
    }
    SackStop(keys, from, blocks, max - |out|);
    assert out + [] == out;
  }

  class TcpStream {
    var local: bool
    var peerConnect: bool
    var peerClose: bool
    var ackPending: bool
    var connectGiveUp: bool
    var stallGiveUp: bool
    var txSeq: u16
    var rxSeq: u16
    var txAcked: u16
    var tcpInOff: nat
    var connectStarted: int
    var lastConnect: int
    var lastProgress: int
    var tcpIn: seq<byte>
    var tcpOut: seq<byte>
    var unacked: seq<Pending>
    var ctrlq: seq<Ctrl>
    var reorder: map<u16, seq<byte>>

    ghost predicate Valid()
      reads this
    {
      tcpInOff <= |tcpIn| && Consecutive(unacked, txSeq)
    }

    /** The state that ArqSpec speaks of; consumed bytes of `tcpIn` are not part of it. */
    ghost function View(): Stream
      reads this
      requires Valid()
    {
      Stream(local, peerConnect, peerClose, ackPending, connectGiveUp, stallGiveUp, txSeq, rxSeq, txAcked,
             connectStarted, lastConnect, lastProgress, tcpIn[tcpInOff..], tcpOut, unacked, ctrlq, reorder)
    }

    constructor (now: int)
      ensures Valid() && View() == Fresh(now)
    {
      local, peerConnect, peerClose, ackPending := false, false, false, false;
      connectGiveUp, stallGiveUp := false, false;
      txSeq, rxSeq, txAcked, tcpInOff := 0, 0, 0, 0;
      connectStarted, lastConnect, lastProgress := now, now, now;
      tcpIn, tcpOut, unacked, ctrlq, reorder := [], [], [], [], map[];
    }

    method ClearFlags()
      modifies this`local, this`peerConnect, this`peerClose, this`ackPending, this`connectGiveUp, this`stallGiveUp
      ensures !local && !peerConnect && !peerClose && !ackPending && !connectGiveUp && !stallGiveUp
    {
      local, peerConnect, peerClose, ackPending := false, false, false, false;
      connectGiveUp, stallGiveUp := false, false;
    }

    method ClearCounters()
      modifies this`txSeq, this`rxSeq, this`txAcked, this`tcpInOff, this`tcpIn
      ensures txSeq == rxSeq == txAcked == tcpInOff == 0 && tcpIn == []
    {
      txSeq, rxSeq, txAcked, tcpInOff, tcpIn := 0, 0, 0, 0, [];
    }

    method ClearQueues()
      modifies this`tcpOut, this`unacked, this`ctrlq, this`reorder
      ensures tcpOut == [] && unacked == [] && ctrlq == [] && reorder == map[]
    {
      tcpOut, unacked, ctrlq, reorder := [], [], [], map[];
    }

    /** Back to the initial state; the clocks are left alone. */
    method Reset()
      modifies this
      ensures Valid()
      ensures View() == Fresh(0).(connectStarted := old(connectStarted), lastConnect := old(lastConnect),
                                  lastProgress := old(lastProgress))
    {
      ClearFlags();
      ClearCounters();
      ClearQueues();
    }

    predicate Established()
      reads this
    {
      local && peerConnect && !peerClose
    }

    method PushCtrl(kind: byte)
      requires Valid()
      modifies this`ctrlq
      ensures Valid() && ctrlq == old(ctrlq) + [Ctrl(kind, txSeq)]
    {
      ctrlq := ctrlq + [Ctrl(kind, txSeq)];
    }

    method StartConnect(now: int)
      modifies this`local, this`connectGiveUp, this`stallGiveUp, this`connectStarted, this`lastConnect,
               this`lastProgress
      ensures local && !connectGiveUp && !stallGiveUp
      ensures connectStarted == lastConnect == lastProgress == now
    {
      local, connectGiveUp, stallGiveUp := true, false, false;
      connectStarted, lastConnect, lastProgress := now, now, now;
    }

    method Up(now: int)
      requires Valid()
      modifies this`local, this`connectGiveUp, this`stallGiveUp, this`connectStarted, this`lastConnect,
               this`lastProgress, this`ctrlq
      ensures Valid() && View() == LocalUp(old(View()), now)
    {
      if local { return; }
      hide Consecutive;
      StartConnect(now);
      PushCtrl(TYPE_CONNECT);
    }

    /** Unsent and unacknowledged bytes are discarded; the counters are not. */
    method DropBytes()
      modifies this`unacked, this`tcpIn, this`tcpInOff, this`reorder
      ensures unacked == [] && tcpIn == [] && tcpInOff == 0 && reorder == map[] && Valid()
    {
      unacked, tcpIn, tcpInOff, reorder := [], [], 0, map[];
    }

    /** CLOSE is repeated because nothing resends it. */
    method PushCloses()
      requires Valid()
      modifies this`ctrlq
      ensures Valid()
      ensures ctrlq == old(ctrlq) + [Ctrl(TYPE_CLOSE, txSeq)] + [Ctrl(TYPE_CLOSE, txSeq)] + [Ctrl(TYPE_CLOSE, txSeq)]
    {
      PushCtrl(TYPE_CLOSE);
      PushCtrl(TYPE_CLOSE);
      PushCtrl(TYPE_CLOSE);
    }

    /** Forget the connection and tell the peer. */
    method Leave(closes: bool)
      requires Valid()
      modifies this`local, this`peerConnect, this`ctrlq, this`unacked, this`tcpIn, this`tcpInOff, this`reorder
      ensures !local && !peerConnect && unacked == [] && tcpIn == [] && tcpInOff == 0 && reorder == map[]
      ensures closes ==>
        ctrlq == old(ctrlq) + [Ctrl(TYPE_CLOSE, txSeq)] + [Ctrl(TYPE_CLOSE, txSeq)] + [Ctrl(TYPE_CLOSE, txSeq)]
      ensures !closes ==> ctrlq == old(ctrlq) + [Ctrl(TYPE_ABORT, txSeq)]
    {
      local, peerConnect := false, false;
      hide Consecutive;
      if closes {
        PushCloses();
      } else {
        PushCtrl(TYPE_ABORT);
      }
      DropBytes();
    }

    method Down()
      requires Valid()
      modifies this`local, this`peerConnect, this`ctrlq, this`unacked, this`tcpIn, this`tcpInOff, this`reorder
      ensures Valid() && View() == LocalDown(old(View()))
    {
      if !local { return; }
      Leave(true);
    }

    method Abort()
      requires Valid()
      modifies this`local, this`peerConnect, this`ctrlq, this`unacked, this`tcpIn, this`tcpInOff, this`reorder
      ensures Valid() && View() == LocalAbort(old(View()))
    {
      if !local { return; }
      Leave(false);
    }

    method CompactTcpIn()
      requires Valid()
      modifies this`tcpIn, this`tcpInOff
      ensures Valid() && tcpIn[tcpInOff..] == old(tcpIn[tcpInOff..]) && tcpInOff == 0
    {
      if tcpInOff == 0 { return; }
      if tcpInOff >= |tcpIn| {
        tcpIn, tcpInOff := [], 0;
        return;
      }
      tcpIn := tcpIn[tcpInOff..];
      tcpInOff := 0;
    }

    /** Move one segment from the waiting bytes into the window. */
    method CutOne(now: int)
      requires Valid() && |unacked| < WINDOW && tcpInOff < |tcpIn|
      modifies this`unacked, this`tcpInOff, this`txSeq, this`lastProgress
      ensures Valid()
      ensures var data := old(tcpIn[tcpInOff..]);
              var n := SegmentSize(data);
              && unacked == old(unacked) + [Pending(old(txSeq), data[..n], 0, false, false)]
              && txSeq == (old(txSeq) + 1) % 65536
              && tcpIn[tcpInOff..] == data[n..] && tcpInOff > old(tcpInOff)
      ensures lastProgress == if |old(unacked)| == 0 then now else old(lastProgress)
    {
      var avail := |tcpIn| - tcpInOff;
      var n := if avail < MAX_SEGMENT then avail else MAX_SEGMENT;
      var p := Pending(txSeq, tcpIn[tcpInOff..tcpInOff + n], 0, false, false);
      assert tcpIn[tcpInOff..][..n] == tcpIn[tcpInOff..tcpInOff + n];
      assert tcpIn[tcpInOff..][n..] == tcpIn[tcpInOff + n..];
      AppendConsecutive(unacked, txSeq, p);
      hide Consecutive;
      tcpInOff := tcpInOff + n;
      txSeq := (txSeq + 1) % 65536;
      var first := |unacked| == 0;
      unacked := unacked + [p];
      if first { lastProgress := now; }
    }

    /** Loop of queue_data: fill the window from the waiting bytes, given what it must reach. */
    method FillWindow(now: int, ghost u: seq<Pending>, ghost t: u16, ghost d: seq<byte>)
      requires Valid() && CutTo(unacked, txSeq, tcpIn[tcpInOff..], u, t, d)
      modifies this`unacked, this`tcpInOff, this`txSeq, this`lastProgress
      ensures Valid() && unacked == u && txSeq == t && tcpIn[tcpInOff..] == d
      ensures lastProgress == if |old(unacked)| == 0 && old(tcpInOff) < |tcpIn| then now else old(lastProgress)
    {
      hide CutTo;
      hide Consecutive;
      while |unacked| < WINDOW && tcpInOff < |tcpIn|
        invariant Valid() && CutTo(unacked, txSeq, tcpIn[tcpInOff..], u, t, d)
        invariant (if |old(unacked)| == 0 && old(tcpInOff) < |tcpIn| then now else old(lastProgress)) ==
                  (if |unacked| == 0 && tcpInOff < |tcpIn| then now else lastProgress)
        decreases |tcpIn| - tcpInOff
      {
        CutStep(unacked, txSeq, tcpIn[tcpInOff..], u, t, d);
        CutOne(now);
      }
      WindowBound(unacked, txSeq);
      CutDone(unacked, txSeq, tcpIn[tcpInOff..], u, t, d);
    }

    method FillAndCompact(now: int, ghost u: seq<Pending>, ghost t: u16, ghost d: seq<byte>)
      requires Valid() && CutTo(unacked, txSeq, tcpIn[tcpInOff..], u, t, d)
      modifies this`unacked, this`tcpIn, this`tcpInOff, this`txSeq, this`lastProgress
      ensures Valid() && unacked == u && txSeq == t && tcpIn[tcpInOff..] == d
      ensures lastProgress == if |old(unacked)| == 0 && old(tcpInOff) < |old(tcpIn)| then now else old(lastProgress)
    {
      hide *;
      FillWindow(now, u, t, d);
      if tcpInOff > 65536 || tcpInOff == |tcpIn| { CompactTcpIn(); }
    }

    method Queue(now: int)
      requires Valid()
      modifies this`unacked, this`tcpIn, this`tcpInOff, this`txSeq, this`lastProgress
      ensures Valid() && View() == QueueData(old(View()), now)
    {
      if !Established() { return; }
      WindowBound(unacked, txSeq);
      ghost var after := QueueData(View(), now);
      QueueFields(View(), now);
      hide QueueData;
      hide CutTo;
      hide Consecutive;
      FillAndCompact(now, after.unacked, after.txSeq, after.tcpIn);
    }

    method TcpBytes(data: seq<byte>, now: int)
      requires Valid()
      modifies this`unacked, this`tcpIn, this`tcpInOff, this`txSeq, this`lastProgress
      ensures Valid() && View() == OnTcpBytes(old(View()), data, now)
    {
      if |data| == 0 || !Established() { return; }
      assert (tcpIn + data)[tcpInOff..] == tcpIn[tcpInOff..] + data;
      tcpIn := tcpIn + data;
      Queue(now);
    }

    /** Hand the application up to `max` bytes, one at a time from the front. */
    method PullTcp(max: nat) returns (out: seq<byte>)
      requires Valid()
      modifies this`tcpOut
      ensures Valid()
      ensures out == old(tcpOut)[..if |old(tcpOut)| < max then |old(tcpOut)| else max]
      ensures out + tcpOut == old(tcpOut)
    {
      out := [];
      var c := if |tcpOut| < max then |tcpOut| else max;
      for i := 0 to c
        invariant |out| == i && out + tcpOut == old(tcpOut)
      {
        out := out + [tcpOut[0]];
        tcpOut := tcpOut[1..];
      }
    }

    /** Pop acknowledged segments one by one. */
    method TakeAck(ack: u16, now: int)
      requires Valid()
      modifies this`unacked, this`txAcked, this`lastProgress, this`stallGiveUp
      ensures Valid() && View() == ApplyAck(old(View()), ack, now)
    {
      var delta := (ack - txAcked) % 65536;
      if delta == 0 || delta > |unacked| || delta > WINDOW { return; }
      DropConsecutive(unacked, txSeq, delta);
      hide Consecutive;
      PopAcked(delta);
      lastProgress := now;
      stallGiveUp := false;
    }

    method PopAcked(delta: nat)
      requires delta <= |unacked|
      modifies this`unacked, this`txAcked
      ensures unacked == old(unacked)[delta..] && txAcked == (old(txAcked) + delta) % 65536
    {
      for i := 0 to delta
        invariant unacked == old(unacked)[i..] && txAcked == (old(txAcked) + i) % 65536
      {
        unacked := unacked[1..];
        txAcked := (txAcked + 1) % 65536;
      }
    }

    /** Mark the pending segment numbered `s`, if there is one: the search stops at the first. */
    method MarkNumber(s: u16)
      requires Valid()
      modifies this`unacked
      ensures Valid() && |unacked| == |old(unacked)|
      ensures forall j :: 0 <= j < |unacked| ==>
        unacked[j] == old(unacked)[j].(sacked := old(unacked)[j].sacked || old(unacked)[j].seqNo == s)
    {
      var j := 0;
      while j < |unacked|
        invariant j <= |unacked| && unacked == old(unacked)
        invariant forall k :: 0 <= k < j ==> unacked[k].seqNo != s
      {
        if unacked[j].seqNo == s {
          forall k | j < k < |unacked| ensures unacked[k].seqNo != s { Distinct(unacked, txSeq, j, k); }
          unacked := unacked[j := unacked[j].(sacked := true)];
          return;
        }
        j := j + 1;
      }
    }

    method MarkRun(sn: u16, count: u16)
      requires Valid() && 0 < count <= WINDOW
      modifies this`unacked
      ensures Valid() && unacked == MarkUpTo(old(unacked), sn, count)
    {
      for i := 0 to count
        invariant Valid() && unacked == MarkUpTo(old(unacked), sn, i)
      {
        MarkNumber((sn + i) % 65536);
        MarkNext(old(unacked), unacked, sn, i);
      }
    }

    method TakeSack(blocks: seq<byte>)
      requires Valid()
      modifies this`unacked
      ensures Valid() && View() == ApplySack(old(View()), blocks)
    {
      var off := 0;
      assert blocks[0..] == blocks;
      while off + SACK_BLOCK <= |blocks|
        invariant Valid() && off <= |blocks|
        invariant MarkSacked(unacked, blocks[off..]) == MarkSacked(old(unacked), blocks)
      {
        var sn := U16At(blocks, off);
        var count := U16At(blocks, off + 2);
        var rest := blocks[off..];
        assert U16At(rest, 0) == sn && U16At(rest, 2) == count;
        MarkBlock(unacked, rest);
        assert rest[SACK_BLOCK..] == blocks[off + SACK_BLOCK..];
        off := off + SACK_BLOCK;
        if count == 0 || count > WINDOW { continue; }
        MarkRun(sn, count);
      }
      MarkNothing(unacked, blocks[off..]);
    }

    /** Block list of an ACK: runs of the ordered buffer, at most eight and at most `max` bytes. */
    method FillSack(max: nat) returns (out: seq<byte>)
      ensures out == SackBlocks(reorder.Keys, 0, 0, max)
    {
      out := WriteBlocks(reorder.Keys, max);
    }

    /** Loop of deliver_data: everything that has become next in order. */
    method DrainBuffer(ghost start: Stream)
      requires start.tcpOut == tcpOut && start.rxSeq == rxSeq && start.reorder == reorder
      modifies this`tcpOut, this`rxSeq, this`reorder
      ensures Drain(start) == start.(tcpOut := tcpOut, rxSeq := rxSeq, reorder := reorder)
    {
      hide Drain;
      hide DrainOne;
      hide SameButOutput;
      ghost var s := start;
      NothingDrained(start);
      while rxSeq in reorder
        invariant Drain(s) == Drain(start) && SameButOutput(s, start)
        invariant s.tcpOut == tcpOut && s.rxSeq == rxSeq && s.reorder == reorder
        decreases |reorder|
      {
        DrainUnfold(s, start);
        s := DrainOne(s);
        tcpOut := tcpOut + reorder[rxSeq];
        reorder := reorder - {rxSeq};
        rxSeq := (rxSeq + 1) % 65536;
      }
      DrainDone(s, start);
    }

    /** Put out the segment that is next in order. */
    method PutNext(payload: seq<byte>)
      requires Valid()
      modifies this`tcpOut, this`rxSeq
      ensures Valid() && View() == old(View()).(tcpOut := old(tcpOut) + payload, rxSeq := (old(rxSeq) + 1) % 65536)
    {
      hide Consecutive;
      if |payload| > 0 { tcpOut := tcpOut + payload; }
      rxSeq := (rxSeq + 1) % 65536;
    }

    /** Put out the segment that is next in order and everything buffered behind it. */
    method PutOut(payload: seq<byte>)
      requires Valid()
      modifies this`tcpOut, this`rxSeq, this`reorder
      ensures Valid()
      ensures View() == Drain(old(View()).(tcpOut := old(tcpOut) + payload, rxSeq := (old(rxSeq) + 1) % 65536))
    {
      hide Drain;
      hide Consecutive;
      PutNext(payload);
      DrainBuffer(View());
    }

    method DeliverData(seqNo: u16, payload: seq<byte>)
      requires Valid()
      modifies this`tcpOut, this`rxSeq, this`reorder, this`ackPending
      ensures Valid() && View() == Deliver(old(View()), seqNo, payload)
    {
      if !peerConnect || peerClose { return; }
      var dist := (seqNo - rxSeq) % 65536;
      if dist >= WINDOW {
        ackPending := true;
        return;
      }
      if seqNo == rxSeq {
        PutOut(payload);
      } else if seqNo !in reorder {
        reorder := reorder[seqNo := payload];
      }
      ackPending := true;
      hide Drain;
    }

    method PeerOpen()
      requires Valid()
      modifies this`rxSeq, this`tcpOut, this`reorder, this`peerConnect, this`peerClose, this`ackPending
      ensures Valid() && View() == OnConnect(old(View()))
    {
      if !peerConnect { rxSeq, tcpOut, reorder := 0, [], map[]; }
      peerConnect, peerClose, ackPending := true, false, true;
    }

    method PeerEnd()
      requires Valid()
      modifies this`peerConnect, this`peerClose, this`ackPending
      ensures Valid() && View() == OnEnd(old(View()))
    {
      if !Established() {
        ackPending := true;
        return;
      }
      peerClose, peerConnect := true, false;
    }

    method TakeAckFields(kind: byte, ack: u16, payload: seq<byte>, ghost f: Frame, now: int)
      requires Valid() && f.kind == kind && f.ack == ack && f.payload == payload
      modifies this`unacked, this`txAcked, this`lastProgress, this`stallGiveUp
      ensures Valid() && View() == Acknowledge(old(View()), f, now)
    {
      TakeAck(ack, now);
      if kind == TYPE_ACK && |payload| > 0 { TakeSack(payload); }
      hide ApplyAck;
      hide ApplySack;
    }

    method ParseRadio(data: seq<byte>, now: int)
      requires Valid()
      modifies this
      ensures Valid()
      ensures View() == if Decode(data).None? then old(View()) else OnFrame(old(View()), Decode(data).value, now)
    {
      if |data| < HEADER { return; }
      var kind := data[0];
      var seqNo := U16At(data, 2);
      var ack := U16At(data, 4);
      var plen := U16At(data, 6);
      if |data| < HEADER + plen { return; }
      var payload := data[HEADER..HEADER + plen];
      ghost var f := Frame(kind, seqNo, ack, payload);
      assert Decode(data) == Some(f);
      hide Decode;
      hide Acknowledge;
      hide Deliver;
      hide OnConnect;
      hide OnEnd;
      TakeAckFields(kind, ack, payload, f, now);
      if kind == TYPE_CONNECT {
        PeerOpen();
      } else if kind == TYPE_CLOSE || kind == TYPE_ABORT {
        PeerEnd();
      } else if kind == TYPE_DATA {
        DeliverData(seqNo, payload);
      }
    }

    method RadioRx(data: seq<byte>, now: int)
      requires Valid()
      modifies this
      ensures Valid() && View() == OnRadioRx(old(View()), data, now)
    {
      ParseRadio(data, now);
      Queue(now);
    }

    method Transmittable() returns (r: bool)
      requires Valid()
      ensures r == View().HasTx()
    {
      if ackPending || |ctrlq| != 0 { return true; }
      for i := 0 to |unacked|
        invariant forall j :: 0 <= j < i ==> unacked[j].inFlight || unacked[j].sacked
      {
        if !unacked[i].inFlight && !unacked[i].sacked { return true; }
      }
      return false;
    }

    method PullCtrl() returns (frame: seq<byte>)
      requires ctrlq != []
      modifies this`ctrlq
      ensures ctrlq == old(ctrlq)[1..] && frame == Encode(old(ctrlq)[0].kind, old(ctrlq)[0].seqNo, rxSeq, [])
    {
      frame := Encode(ctrlq[0].kind, ctrlq[0].seqNo, rxSeq, []);
      ctrlq := ctrlq[1..];
    }

    method PullAck(max: nat) returns (frame: seq<byte>)
      requires max >= HEADER
      modifies this`ackPending
      ensures !ackPending && frame == Encode(TYPE_ACK, txSeq, rxSeq, SackBlocks(reorder.Keys, 0, 0, max - HEADER))
    {
      hide SackBlocks;
      hide Encode;
      var blocks := FillSack(max - HEADER);
      frame := Encode(TYPE_ACK, txSeq, rxSeq, blocks);
      ackPending := false;
    }

    /** Send the oldest segment that may be sent. */
    method PullSegment(max: nat, now: int) returns (frame: seq<byte>)
      requires Valid()
      modifies this`unacked
      ensures Valid()
      ensures var i := FirstReady(old(unacked), max);
              if i == |old(unacked)| then unacked == old(unacked) && frame == []
              else
                var p := old(unacked)[i];
                && unacked == old(unacked)[i := p.(inFlight := true, sent := now)]
                && frame == Encode(TYPE_DATA, p.seqNo, rxSeq, p.payload)
    {
      hide Encode;
      frame := [];
      for i := 0 to |unacked|
        invariant unacked == old(unacked)
        invariant forall j :: 0 <= j < i ==> !Ready(unacked[j], max)
      {
        if Ready(unacked[i], max) {
          FirstReadyIs(unacked, max, i);
          var p := unacked[i];
          frame := Encode(TYPE_DATA, p.seqNo, rxSeq, p.payload);
          unacked := unacked[i := p.(inFlight := true, sent := now)];
          return;
        }
      }
      FirstReadyIs(unacked, max, |unacked|);
    }

    /** The next frame: control first, then an owed ACK, then the oldest segment to send. */
    method Pull(max: nat, now: int) returns (frame: seq<byte>, isAck: bool)
      requires Valid()
      modifies this`ctrlq, this`ackPending, this`unacked
      ensures Valid() && Pulled(View(), frame, isAck) == PullTx(old(View()), max, now)
    {
      hide Encode;
      hide SackBlocks;
      frame, isAck := [], false;
      if max < HEADER { return; }
      if |ctrlq| != 0 {
        frame := PullCtrl();
        isAck := true;
        return;
      }
      if ackPending {
        frame := PullAck(max);
        isAck := true;
        return;
      }
      frame := PullSegment(max, now);
    }

    /** Release every timed-out hole for resending. */
    method ExpireWindow(now: int)
      requires Valid()
      modifies this`unacked
      ensures Valid() && unacked == ExpireAll(old(unacked), now)
    {
      for i := 0 to |unacked|
        invariant Valid() && |unacked| == |old(unacked)|
        invariant forall j :: 0 <= j < i ==> unacked[j] == Expire(old(unacked)[j], now)
        invariant forall j :: i <= j < |unacked| ==> unacked[j] == old(unacked)[j]
      {
        if unacked[i].sacked { continue; }
        if unacked[i].inFlight && now - unacked[i].sent >= REXMIT {
          unacked := unacked[i := unacked[i].(inFlight := false)];
        }
      }
    }

    method PendingConnect() returns (r: bool)
      ensures r == HasConnect(ctrlq)
    {
      for i := 0 to |ctrlq|
        invariant forall j :: 0 <= j < i ==> ctrlq[j].kind != TYPE_CONNECT
      {
        if ctrlq[i].kind == TYPE_CONNECT { return true; }
      }
      return false;
    }

    method Retry(now: int)
      requires Valid()
      modifies this`lastConnect, this`ctrlq
      ensures Valid() && View() == RetryConnect(old(View()), now)
    {
      if local && !peerConnect && !peerClose {
        var queued := PendingConnect();
        if now - lastConnect >= REXMIT && !queued {
          lastConnect := now;
          PushCtrl(TYPE_CONNECT);
        }
      }
    }

    method Tick(now: int)
      requires Valid()
      modifies this
      ensures Valid() && View() == OnTick(old(View()), now)
    {
      ExpireWindow(now);
      if local && !peerConnect && !peerClose && now - connectStarted >= CONNECT_TIMEOUT {
        connectGiveUp := true;
        return;
      }
      hide RetryConnect;
      hide QueueData;
      hide ExpireAll;
      hide Consecutive;
      Retry(now);
      if Established() && |unacked| != 0 && now - lastProgress >= STALL_TIMEOUT {
        stallGiveUp := true;
        return;
      }
      Queue(now);
    }
  }

  lemma QueueFields(s: Stream, now: int)
    requires s.Established() && |s.unacked| <= WINDOW
    ensures var a := QueueData(s, now);
            && CutTo(s.unacked, s.txSeq, s.tcpIn, a.unacked, a.txSeq, a.tcpIn)
            && a == s.(unacked := a.unacked, txSeq := a.txSeq, tcpIn := a.tcpIn,
                       lastProgress := if s.unacked == [] && s.tcpIn != [] then now else s.lastProgress)
  {
  }

  lemma AppendConsecutive(unacked: seq<Pending>, txSeq: u16, p: Pending)
    requires Consecutive(unacked, txSeq) && |unacked| < WINDOW && p.seqNo == txSeq
    ensures Consecutive(unacked + [p], (txSeq + 1) % 65536)
  {
  }

  lemma DropConsecutive(unacked: seq<Pending>, txSeq: u16, d: nat)
    requires Consecutive(unacked, txSeq) && d <= |unacked|
    ensures Consecutive(unacked[d..], txSeq)
  {
    forall i | 0 <= i < |unacked[d..]|
      ensures unacked[d..][i].seqNo == (txSeq - |unacked[d..]| + i) % 65536
    {
      assert unacked[d..][i] == unacked[d + i];
    }
  }

  lemma FirstReadyIs(unacked: seq<Pending>, max: nat, i: nat)
    requires i <= |unacked| && forall j :: 0 <= j < i ==> !Ready(unacked[j], max)
    requires i < |unacked| ==> Ready(unacked[i], max)
    ensures FirstReady(unacked, max) == i
  {
  }

  lemma MarkNothing(unacked: seq<Pending>, blocks: seq<byte>)
    requires |blocks| < SACK_BLOCK
    ensures MarkSacked(unacked, blocks) == unacked
  {
  }

  lemma MarkNext(before: seq<Pending>, after: seq<Pending>, sn: u16, i: nat)
    requires i < WINDOW && |after| == |before|
    requires forall j :: 0 <= j < |after| ==>
      after[j] == MarkUpTo(before, sn, i)[j].(sacked := MarkUpTo(before, sn, i)[j].sacked
                                                        || before[j].seqNo == (sn + i) % 65536)
    ensures after == MarkUpTo(before, sn, i + 1)
  {
    forall j | 0 <= j < |after|
      ensures after[j] == MarkUpTo(before, sn, i + 1)[j]
    {
      assert before[j].seqNo == (sn + i) % 65536 <==> (before[j].seqNo - sn) % 65536 == i;
    }
  }
}
