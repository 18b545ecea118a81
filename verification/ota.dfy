/** The update handler of the HTTP server: find the boundary, skip the part header, write the
    part's bytes to flash while the body arrives in pieces of any size. */
module Ota {
  import opened Bytes

  const HEAD_MAX: nat := 1024
  const CHUNK_MAX: nat := 1024
  const TAIL_MAX: nat := 80
  const WINDOW_MAX: nat := 1104
  const TOKEN_MAX: nat := 71
  const BLANK: seq<byte> := [13, 10, 13, 10]
  const DELIMITER: seq<byte> := [13, 10, 45, 45]

  // ---- First occurrence ------------------------------------------------

  predicate At(s: seq<byte>, pat: seq<byte>, i: nat) { i + |pat| <= |s| && s[i..i + |pat|] == pat }

  ghost predicate IsFirst(s: seq<byte>, pat: seq<byte>, i: nat) {
    At(s, pat, i) && forall j: nat :: j < i ==> !At(s, pat, j)
  }

  ghost predicate Occurs(s: seq<byte>, pat: seq<byte>) { exists i: nat :: At(s, pat, i) }

  function First(s: seq<byte>, pat: seq<byte>, from: nat): (r: Option<nat>)
    requires forall j: nat :: j < from ==> !At(s, pat, j)
    ensures r.Some? ==> IsFirst(s, pat, r.value)
    ensures r.None? ==> !Occurs(s, pat)
    decreases |s| - from
  {
    if from + |pat| > |s| then None
    else if At(s, pat, from) then Some(from)
    else First(s, pat, from + 1)
  }

  function Find(s: seq<byte>, pat: seq<byte>): (r: Option<nat>)
    ensures r.Some? ==> IsFirst(s, pat, r.value)
    ensures r.None? ==> !Occurs(s, pat)
  {
    First(s, pat, 0)
  }

  lemma FindIs(s: seq<byte>, pat: seq<byte>, i: nat)
    requires IsFirst(s, pat, i)
    ensures Find(s, pat) == Some(i)
  {
  }

  /** Nothing that arrives later moves a first occurrence. */
  lemma FindStays(s: seq<byte>, more: seq<byte>, pat: seq<byte>)
    requires Find(s, pat).Some?
    ensures Find(s + more, pat) == Find(s, pat)
  {
    var i := Find(s, pat).value;
    assert (s + more)[i..i + |pat|] == s[i..i + |pat|];
    forall j: nat | j < i ensures !At(s + more, pat, j) {
      assert !At(s, pat, j) && j + |pat| <= |s|;
      assert (s + more)[j..j + |pat|] == s[j..j + |pat|];
    }
    FindIs(s + more, pat, i);
  }

  // ---- Whole-body specification ----------------------------------------

  /** Everything behind the first blank line. */
  function Part(body: seq<byte>): seq<byte>
    requires Find(body, BLANK).Some?
  {
    body[Find(body, BLANK).value + 4..]
  }

  /** The part up to the first marker; all of it while no marker is in sight. */
  function Payload(body: seq<byte>, marker: seq<byte>): seq<byte> {
    if Find(body, BLANK).None? then []
    else
      var p := Part(body);
      var e := Find(p, marker);
      if e.None? then p else p[..e.value]
  }

  predicate Complete(body: seq<byte>, marker: seq<byte>) {
    Find(body, BLANK).Some? && Find(Part(body), marker).Some?
  }

  predicate Pieces(chunks: seq<seq<byte>>) {
    forall c :: 0 <= c < |chunks| ==> 1 <= |chunks[c]| <= CHUNK_MAX
  }

  /** The pieces up to the one that completes the first blank line fit the header buffer. */
  ghost predicate HeaderFits(chunks: seq<seq<byte>>) {
    exists c :: 0 <= c <= |chunks| && HeaderIn(chunks, c)
  }

  predicate HeaderIn(chunks: seq<seq<byte>>, c: nat)
    requires c <= |chunks|
  {
    |Concat(chunks[..c])| <= HEAD_MAX && Find(Concat(chunks[..c]), BLANK).Some?
  }

  // ---- Content-Type ----------------------------------------------------

  function Lower(b: byte): byte { if 65 <= b <= 90 then b + 32 else b }

  /** boundary= in lower case. */
  const BOUNDARY_KEY: seq<byte> := [98, 111, 117, 110, 100, 97, 114, 121, 61]

  function LowerAll(s: seq<byte>): seq<byte> { seq<byte>(|s|, i requires 0 <= i < |s| => Lower(s[i])) }

  predicate InToken(b: byte) { b != 0 && b != 34 && b != 59 && b != 32 }

  function TokenLen(s: seq<byte>): nat {
    if s == [] || !InToken(s[0]) then 0 else 1 + TokenLen(s[1..])
  }

  /** The marker that ends the part, or None when the request is not multipart. */
  function Marker(contentType: Option<seq<byte>>): (m: Option<seq<byte>>)
    ensures m.Some? ==> 5 <= |m.value| <= 4 + TOKEN_MAX && m.value[..4] == DELIMITER
  {
    if contentType.None? then None
    else
      var t := contentType.value;
      var key := Find(LowerAll(t), BOUNDARY_KEY);
      if key.None? then None
      else
        var rest := t[key.value + 9..];
        var token := if rest != [] && rest[0] == 34 then rest[1..] else rest;
        var n := Min(TokenLen(token), Min(TOKEN_MAX, |token|));
        if n == 0 then None else Some(DELIMITER + token[..n])
  }

  lemma {:induction false} TokenLenIs(s: seq<byte>, n: nat)
    requires n <= |s| && (forall i :: 0 <= i < n ==> InToken(s[i])) && (n < |s| ==> !InToken(s[n]))
    ensures TokenLen(s) == n
  {
    if n > 0 { TokenLenIs(s[1..], n - 1); }
  }

  lemma {:induction false} TokenAtLeast(s: seq<byte>, n: nat)
    requires n <= |s| && (forall i :: 0 <= i < n ==> InToken(s[i]))
    ensures TokenLen(s) >= n
  {
    if n > 0 { TokenAtLeast(s[1..], n - 1); }
  }

  /** strncasecmp against boundary= at position p. */
  predicate SameNoCase(t: seq<byte>, p: nat) { p + 9 <= |t| && LowerAll(t[p..p + 9]) == BOUNDARY_KEY }

  lemma SameNoCaseIs(t: seq<byte>, p: nat)
    ensures SameNoCase(t, p) <==> At(LowerAll(t), BOUNDARY_KEY, p)
  {
    if p + 9 <= |t| {
      assert LowerAll(t[p..p + 9]) == LowerAll(t)[p..p + 9];
    }
  }

  method FindKey(t: seq<byte>) returns (r: Option<nat>)
    ensures r == Find(LowerAll(t), BOUNDARY_KEY)
  {
    hide LowerAll;
    ghost var low := LowerAll(t);
    for p := 0 to |t|
      invariant forall j: nat :: j < p ==> !At(low, BOUNDARY_KEY, j)
    {
      SameNoCaseIs(t, p);
      if SameNoCase(t, p) {
        FindIs(low, BOUNDARY_KEY, p);
        return Some(p);
      }
    }
    assert |low| == |t| by { SameLength(t); }
    r := None;
  }

  lemma SameLength(t: seq<byte>)
    ensures |LowerAll(t)| == |t|
  {
  }

  method TokenAt(t: seq<byte>) returns (i: nat)
    ensures i == Min(TokenLen(t), Min(TOKEN_MAX, |t|))
  {
    i := 0;
    while i < |t| && InToken(t[i]) && i + 1 < TOKEN_MAX + 1
      invariant i <= |t| && i <= TOKEN_MAX
      invariant forall j :: 0 <= j < i ==> InToken(t[j])
    {
      i := i + 1;
    }
    if i < TOKEN_MAX { TokenLenIs(t, i); } else { TokenAtLeast(t, i); }
  }

  method MultipartBoundary(contentType: Option<seq<byte>>) returns (m: Option<seq<byte>>)
    ensures m == Marker(contentType)
  {
    hide Find;
    hide TokenLen;
    if contentType.None? { return None; }
    var t := contentType.value;
    var key := FindKey(t);
    if key.None? { return None; }
    SameLength(t);
    var rest := t[key.value + 9..];
    if rest != [] && rest[0] == 34 { rest := rest[1..]; }
    var i := TokenAt(rest);
    if i == 0 { return None; }
    m := Some(DELIMITER + rest[..i]);
  }

  // ---- The boundary a client writes -------------------------------------

  /** boundary= in any mix of cases. */
  predicate SpellsKey(s: seq<byte>) {
    && |s| == 9 && s[0] in {98, 66} && s[1] in {111, 79} && s[2] in {117, 85} && s[3] in {110, 78} && s[4] in {100, 68}
    && s[5] in {97, 65} && s[6] in {114, 82} && s[7] in {121, 89} && s[8] == 61
  }

  predicate SpellsAt(t: seq<byte>, p: nat) { p + 9 <= |t| && SpellsKey(t[p..p + 9]) }

  /** NUL, the double quote, the semicolon and the space end a token. */
  predicate EndsToken(b: byte) { b in {0, 34, 59, 32} }

  lemma SpellsIs(s: seq<byte>)
    requires |s| == 9
    ensures LowerAll(s) == BOUNDARY_KEY <==> SpellsKey(s)
  {
    var l := LowerAll(s);
    assert l == [l[0], l[1], l[2], l[3], l[4], l[5], l[6], l[7], l[8]];
    assert forall i :: 0 <= i < 9 ==> l[i] == Lower(s[i]);
  }

  lemma SpellsAtIs(t: seq<byte>, p: nat)
    ensures SpellsAt(t, p) <==> At(LowerAll(t), BOUNDARY_KEY, p)
  {
    hide SpellsKey;
    SameNoCaseIs(t, p);
    SameLength(t);
    if p + 9 <= |t| { SpellsIs(t[p..p + 9]); }
    hide LowerAll;
  }

  /** Without the key there is no marker. */
  lemma NoBoundary(t: seq<byte>)
    requires forall p: nat :: !SpellsAt(t, p)
    ensures Marker(Some(t)).None? && Marker(None).None?
  {
    hide SpellsAt;
    hide At;
    hide LowerAll;
    forall p: nat ensures !At(LowerAll(t), BOUNDARY_KEY, p) { SpellsAtIs(t, p); }
  }

  lemma KeyFound(t: seq<byte>, at: nat)
    requires SpellsAt(t, at) && forall p: nat :: p < at ==> !SpellsAt(t, p)
    ensures Find(LowerAll(t), BOUNDARY_KEY) == Some(at) && at + 9 <= |t|
  {
    SpellsAtIs(t, at);
    hide SpellsKey;
    hide At;
    hide LowerAll;
    forall p: nat | p < at ensures !At(LowerAll(t), BOUNDARY_KEY, p) { SpellsAtIs(t, p); }
    FindIs(LowerAll(t), BOUNDARY_KEY, at);
  }

  /** A key that first occurs at the end of `pre + key` first occurs there in any longer text. */
  lemma KeyFirst(pre: seq<byte>, key: seq<byte>, rest: seq<byte>)
    requires SpellsKey(key) && forall p: nat :: p < |pre| ==> !SpellsAt(pre + key, p)
    ensures SpellsAt(pre + key + rest, |pre|)
    ensures forall p: nat :: p < |pre| ==> !SpellsAt(pre + key + rest, p)
  {
    assert |key| == 9;
    hide SpellsKey;
    var t := pre + key + rest;
    assert t[|pre|..|pre| + 9] == key;
    forall p: nat | p < |pre| ensures !SpellsAt(t, p) {
      assert t[p..p + 9] == (pre + key)[p..p + 9];
      assert !SpellsAt(pre + key, p);
    }
  }

  /** What a client writes is what the handler searches for. Behind the first boundary=, in any
      case, and an opening quote if there is one, stands the token, up to the end or to a byte
      that ends it: the marker is CRLF, two dashes and the token, cut at 71 bytes; none if the
      token is empty. */
  lemma BoundaryRead(pre: seq<byte>, key: seq<byte>, quote: bool, token: seq<byte>, rest: seq<byte>)
    requires SpellsKey(key) && forall p: nat :: p < |pre| ==> !SpellsAt(pre + key, p)
    requires forall i :: 0 <= i < |token| ==> !EndsToken(token[i])
    requires rest == [] || EndsToken(rest[0])
    requires !quote && token == [] && rest != [] ==> rest[0] != 34
    ensures Marker(Some(pre + key + (if quote then [34] else []) + token + rest))
            == if token == [] then None
               else Some([13, 10, 45, 45] + token[..if |token| < 71 then |token| else 71])
  {
    assert |key| == 9;
    hide SpellsKey;
    hide SpellsAt;
    hide Find;
    hide LowerAll;
    hide TokenLen;
    hide Marker;
    var open: seq<byte> := if quote then [34] else [];
    var tail := open + token + rest;
    var t := pre + key + open + token + rest;
    assert t == pre + key + tail;
    KeyFirst(pre, key, tail);
    KeyFound(t, |pre|);
    assert t[|pre| + 9..] == tail;
    var text := if tail != [] && tail[0] == 34 then tail[1..] else tail;
    Unquoted(quote, token, rest);
    TokenLenIs(text, |token|) by {
      forall i | 0 <= i < |token| ensures InToken(text[i]) { assert text[i] == token[i]; }
    }
    MarkerAt(t, |pre|, tail);
    TokenCut(token, rest);
  }

  /** The marker from what stands behind the key. */
  lemma MarkerAt(t: seq<byte>, at: nat, tail: seq<byte>)
    requires Find(LowerAll(t), BOUNDARY_KEY) == Some(at) && at + 9 <= |t| && t[at + 9..] == tail
    ensures var text := if tail != [] && tail[0] == 34 then tail[1..] else tail;
            var n := Min(TokenLen(text), Min(TOKEN_MAX, |text|));
            Marker(Some(t)) == if n == 0 then None else Some(DELIMITER + text[..n])
  {
    hide Find;
    hide LowerAll;
    hide TokenLen;
  }

  lemma Unquoted(quote: bool, token: seq<byte>, rest: seq<byte>)
    requires forall i :: 0 <= i < |token| ==> !EndsToken(token[i])
    requires !quote && token == [] && rest != [] ==> rest[0] != 34
    ensures var tail := (if quote then [34] else []) + token + rest;
            (if tail != [] && tail[0] == 34 then tail[1..] else tail) == token + rest
  {
    if token != [] { assert (token + rest)[0] == token[0]; }
  }

  lemma TokenCut(token: seq<byte>, rest: seq<byte>)
    ensures var n := Min(|token|, Min(TOKEN_MAX, |token + rest|));
            (token + rest)[..n] == token[..if |token| < 71 then |token| else 71]
  {
  }

  // ---- Sliding window --------------------------------------------------

  /** What the loop knows of the received bytes: before the blank line they all sit in `head`;
      afterwards the part is what was flashed plus a tail too short to hold a marker. */
  ghost predicate Progress(marker: seq<byte>, got: seq<byte>, inBody: bool, head: seq<byte>, flash: seq<byte>,
                           tail: seq<byte>)
  {
    if !inBody then head == got && Find(got, BLANK).None? && flash == [] && tail == []
    else Find(got, BLANK).Some? && Sliding(marker, Part(got), flash, tail)
  }

  ghost predicate Sliding(marker: seq<byte>, part: seq<byte>, flash: seq<byte>, tail: seq<byte>) {
    && part == flash + tail && Find(part, marker).None? && |tail| == Min(|part|, |marker| - 1)
  }

  /** Bytes put in front move every occurrence behind them. */
  lemma Shifted(front: seq<byte>, w: seq<byte>, pat: seq<byte>, i: nat)
    ensures At(front + w, pat, |front| + i) <==> At(w, pat, i)
  {
    if i + |pat| <= |w| {
      assert (front + w)[|front| + i..|front| + i + |pat|] == w[i..i + |pat|];
    }
  }

  lemma FindShifted(front: seq<byte>, w: seq<byte>, pat: seq<byte>)
    requires forall i: nat :: i < |front| ==> !At(front + w, pat, i)
    ensures Find(front + w, pat) == if Find(w, pat).None? then None else Some(|front| + Find(w, pat).value)
  {
    var all := front + w;
    forall i: nat ensures At(all, pat, |front| + i) <==> At(w, pat, i) { Shifted(front, w, pat, i); }
    var f := Find(w, pat);
    hide At;
    if f.Some? {
      forall j: nat | j < |front| + f.value ensures !At(all, pat, j) {
        if j >= |front| { assert !At(w, pat, j - |front|) && j == |front| + (j - |front|); }
      }
      FindIs(all, pat, |front| + f.value);
    } else {
      forall j: nat ensures !At(all, pat, j) {
        if j >= |front| { assert !At(w, pat, j - |front|) && j == |front| + (j - |front|); }
      }
    }
  }

  /** Searching the tail and the new bytes finds exactly what searching the whole part would. */
  lemma WindowFinds(marker: seq<byte>, part: seq<byte>, flash: seq<byte>, tail: seq<byte>, p: seq<byte>)
    requires |marker| >= 1 && Sliding(marker, part, flash, tail)
    ensures var f := Find(tail + p, marker);
            Find(part + p, marker) == if f.None? then None else Some(|flash| + f.value)
  {
    var all := part + p;
    assert all == flash + (tail + p);
    forall i: nat | i < |flash| ensures !At(all, marker, i) {
      assert |tail| == |marker| - 1 && i + |marker| <= |part|;
      assert all[i..i + |marker|] == part[i..i + |marker|];
      assert !At(part, marker, i);
    }
    hide At;
    hide Find;
    FindShifted(flash, tail + p, marker);
  }

  method FindBytes(data: array<byte>, len: nat, pat: seq<byte>) returns (r: Option<nat>)
    requires len <= data.Length
    ensures r == if |pat| == 0 then None else Find(data[..len], pat)
  {
    if |pat| == 0 || len < |pat| { return None; }
    ghost var s := data[..len];
    var i := 0;
    while i + |pat| <= len
      invariant forall j: nat :: j < i ==> !At(s, pat, j)
    {
      assert data[i..i + |pat|] == s[i..i + |pat|];
      if data[i..i + |pat|] == pat {
        FindIs(s, pat, i);
        return Some(i);
      }
      i := i + 1;
    }
    r := None;
  }

  // ---- The ways out of the loop ----------------------------------------

  /** What the handler promises for a multipart body received in these pieces. */
  ghost predicate Result(chunks: seq<seq<byte>>, marker: seq<byte>, written: bool, ok: bool, flash: seq<byte>) {
    var body := Concat(chunks);
    && (ok <==> HeaderFits(chunks) && Complete(body, marker) && written)
    && (ok ==> flash == Payload(body, marker))
    && flash <= Payload(body, marker)
  }

  lemma PartGrows(got: seq<byte>, more: seq<byte>)
    requires Find(got, BLANK).Some?
    ensures Find(got + more, BLANK).Some? && Part(got + more) == Part(got) + more
  {
    FindStays(got, more, BLANK);
  }

  /** Flashed bytes stay in front of any marker that is still to come. */
  lemma FlashSafe(marker: seq<byte>, got: seq<byte>, more: seq<byte>, inBody: bool, head: seq<byte>,
                  flash: seq<byte>, tail: seq<byte>)
    requires |marker| >= 1 && Progress(marker, got, inBody, head, flash, tail)
    ensures flash <= Payload(got + more, marker)
  {
    if inBody {
      PartGrows(got, more);
      WindowFinds(marker, Part(got), flash, tail, more);
    }
  }

  lemma OutOfBytes(chunks: seq<seq<byte>>, marker: seq<byte>, written: bool, inBody: bool, head: seq<byte>,
                   flash: seq<byte>, tail: seq<byte>)
    requires Progress(marker, Concat(chunks), inBody, head, flash, tail)
    ensures Result(chunks, marker, written, false, flash)
  {
  }

  lemma WriteFailed(chunks: seq<seq<byte>>, c: nat, marker: seq<byte>, inBody: bool, head: seq<byte>,
                    flash: seq<byte>, tail: seq<byte>)
    requires c <= |chunks| && |marker| >= 1
    requires Progress(marker, Concat(chunks[..c]), inBody, head, flash, tail)
    ensures Result(chunks, marker, false, false, flash)
  {
    assert chunks == chunks[..c] + chunks[c..];
    ConcatAppend(chunks[..c], chunks[c..]);
    FlashSafe(marker, Concat(chunks[..c]), Concat(chunks[c..]), inBody, head, flash, tail);
  }

  lemma Overflowed(chunks: seq<seq<byte>>, c: nat, marker: seq<byte>, written: bool)
    requires c < |chunks|
    requires Find(Concat(chunks[..c]), BLANK).None? && |Concat(chunks[..c + 1])| > HEAD_MAX
    ensures Result(chunks, marker, written, false, [])
  {
    forall d | 0 <= d <= |chunks| && HeaderIn(chunks, d) ensures false {
      if d <= c {
        assert chunks[..c][..d] == chunks[..d];
        var early, later := Concat(chunks[..d]), Concat(chunks[..c]);
        ConcatPrefix(chunks[..c], d);
        assert later == early + later[|early|..];
        FindStays(early, later[|early|..], BLANK);
      } else {
        assert chunks[..d][..c + 1] == chunks[..c + 1];
        ConcatPrefix(chunks[..d], c + 1);
      }
    }
  }

  lemma MarkerFound(chunks: seq<seq<byte>>, h: nat, c: nat, marker: seq<byte>)
    requires h <= |chunks| && c <= |chunks| && HeaderIn(chunks, h)
    requires Complete(Concat(chunks[..c]), marker)
    ensures Result(chunks, marker, true, true, Payload(Concat(chunks[..c]), marker))
  {
    var got, more := Concat(chunks[..c]), Concat(chunks[c..]);
    assert chunks == chunks[..c] + chunks[c..];
    ConcatAppend(chunks[..c], chunks[c..]);
    PartGrows(got, more);
    FindStays(Part(got), more, marker);
  }

  // ---- handleUpdate ----------------------------------------------------

  ghost predicate Written(flashOk: nat -> bool, writes: nat) { forall w: nat :: w < writes ==> flashOk(w) }

  /** Collect one piece of the part header. `left` is what of it belongs to the part. */
  method Collect(head: array<byte>, headLen: nat, p: seq<byte>) returns (fits: bool, len: nat, left: Option<seq<byte>>)
    requires head.Length == HEAD_MAX && headLen <= HEAD_MAX
    modifies head
    ensures fits <==> headLen + |p| <= HEAD_MAX
    ensures fits ==> len == headLen + |p| && head[..len] == old(head[..headLen]) + p
    ensures left.Some? ==> |left.value| <= HEAD_MAX
    ensures fits ==> left == var b := Find(head[..len], BLANK); if b.None? then None else Some(Part(head[..len]))
  {
    fits, len, left := headLen + |p| <= HEAD_MAX, headLen, None;
    if !fits { return; }
    CopyIn(head, headLen, p);
    len := headLen + |p|;
    var blank := FindBytes(head, len, BLANK);
    if blank.Some? {
      assert head[..len][blank.value + 4..] == head[blank.value + 4..len];
      left := Some(head[blank.value + 4..len]);
    }
  }

  /** Put the tail and the new bytes side by side and look for the marker. */
  method Search(marker: seq<byte>, tail: array<byte>, tailLen: nat, window: array<byte>, p: seq<byte>)
    returns (len: nat, bound: Option<nat>)
    requires tail.Length == TAIL_MAX && window.Length == WINDOW_MAX && |marker| >= 1
    requires tailLen <= TAIL_MAX && |p| <= CHUNK_MAX
    modifies window
    ensures tail != window ==> tail[..] == old(tail[..])
    ensures len == tailLen + |p| && window[..len] == old(tail[..tailLen]) + p
    ensures bound == Find(window[..len], marker)
  {
    CopyIn(window, 0, tail[..tailLen]);
    CopyIn(window, tailLen, p);
    len := tailLen + |p|;
    bound := FindBytes(window, len, marker);
  }

  datatype Pour = More | Found | Failed

  /** Move new bytes of the part through the window; all but a tail too short for a marker is flashed. */
  method PourBytes(marker: seq<byte>, tail: array<byte>, tailLen: nat, window: array<byte>, p: seq<byte>,
                   flash: seq<byte>, writes: nat, flashOk: nat -> bool, ghost part: seq<byte>)
    returns (step: Pour, newLen: nat, flash': seq<byte>, writes': nat)
    requires tail.Length == TAIL_MAX && window.Length == WINDOW_MAX && 5 <= |marker| <= TAIL_MAX - 4
    requires tailLen < |marker| && |p| <= CHUNK_MAX && tail != window
    requires Sliding(marker, part, flash, tail[..tailLen]) && Written(flashOk, writes)
    modifies tail, window
    ensures Written(flashOk, writes') <==> step != Failed
    ensures step == More ==> newLen < |marker| && Sliding(marker, part + p, flash', tail[..newLen])
    ensures step == Found ==> Find(part + p, marker).Some? && flash' == (part + p)[..Find(part + p, marker).value]
    ensures step == Failed ==> flash' == flash
  {
    hide Find;
    hide Sliding;
    hide Written;
    newLen, flash', writes' := tailLen, flash, writes;
    ghost var was := tail[..tailLen];
    var winLen, bound := Search(marker, tail, tailLen, window, p);
    ghost var w := window[..winLen];
    PouredFound(marker, part, flash, was, p);
    PouredMore(marker, part, flash, was, p);
    WrittenSnoc(flashOk, writes);
    if bound.Some? {
      var dataLen := bound.value;
      if dataLen > 0 {
        writes' := writes' + 1;
        if !flashOk(writes) { return Failed, newLen, flash, writes'; }
        assert window[..dataLen] == w[..dataLen];
        flash' := flash' + window[..dataLen];
      }
      step := Found;
      return;
    }
    var keep := if |marker| > 1 then |marker| - 1 else 0;
    step := More;
    if winLen > keep {
      writes' := writes' + 1;
      if !flashOk(writes) { return Failed, newLen, flash, writes'; }
      assert window[..winLen - keep] == w[..winLen - keep] && window[winLen - keep..winLen] == w[winLen - keep..];
      flash' := flash' + window[..winLen - keep];
      CopyIn(tail, 0, window[winLen - keep..winLen]);
      newLen := keep;
      assert tail[..newLen] == w[winLen - keep..];
    } else {
      CopyIn(tail, 0, window[..winLen]);
      newLen := winLen;
      assert tail[..newLen] == w;
    }
  }

  lemma WrittenSnoc(flashOk: nat -> bool, writes: nat)
    ensures Written(flashOk, writes + 1) <==> Written(flashOk, writes) && flashOk(writes)
  {
  }

  lemma PouredFound(marker: seq<byte>, part: seq<byte>, flash: seq<byte>, tail: seq<byte>, p: seq<byte>)
    requires |marker| >= 1 && Sliding(marker, part, flash, tail)
    ensures var f := Find(tail + p, marker);
            var g := Find(part + p, marker);
            f.Some? ==> (f.value <= |tail + p| && g.Some? && g.value <= |part + p|
                         && flash + (tail + p)[..f.value] == (part + p)[..g.value]
                         && (f.value == 0 ==> flash + [] == flash && (tail + p)[..0] == []))
  {
    WindowFinds(marker, part, flash, tail, p);
    FoundInside(tail + p, marker);
    hide Find;
    assert part + p == flash + (tail + p);
  }

  lemma PouredMore(marker: seq<byte>, part: seq<byte>, flash: seq<byte>, tail: seq<byte>, p: seq<byte>)
    requires |marker| >= 1 && Sliding(marker, part, flash, tail)
    ensures var w := tail + p;
            var keep := |marker| - 1;
            && (Find(w, marker).None? && |w| > keep ==>
                  Sliding(marker, part + p, flash + w[..|w| - keep], w[|w| - keep..]))
            && (Find(w, marker).None? && |w| <= keep ==> Sliding(marker, part + p, flash, w))
  {
    WindowFinds(marker, part, flash, tail, p);
    hide Find;
    var w := tail + p;
    var keep := |marker| - 1;
    assert part + p == flash + w;
    if |w| > keep {
      assert flash + (w[..|w| - keep] + w[|w| - keep..]) == flash + w[..|w| - keep] + w[|w| - keep..];
      assert w == w[..|w| - keep] + w[|w| - keep..];
    }
  }

  lemma FoundInside(s: seq<byte>, pat: seq<byte>)
    ensures Find(s, pat).Some? ==> Find(s, pat).value + |pat| <= |s|
  {
  }

  lemma NextChunk(chunks: seq<seq<byte>>, c: nat)
    requires c < |chunks|
    ensures Concat(chunks[..c + 1]) == Concat(chunks[..c]) + chunks[c]
    ensures Concat(chunks[c..]) == chunks[c] + Concat(chunks[c + 1..])
  {
    assert chunks[..c + 1] == chunks[..c] + [chunks[c]];
    ConcatSnoc(chunks[..c], chunks[c]);
  }

  method HandleUpdate(contentType: Option<seq<byte>>, chunks: seq<seq<byte>>, missing: nat, flashOk: nat -> bool)
    returns (ok: bool, flash: seq<byte>, writes: nat)
    requires Pieces(chunks)
    ensures var m := Marker(contentType);
            m.Some? ==> Result(chunks, m.value, Written(flashOk, writes), ok, flash)
    ensures Marker(contentType).None? ==>
              && (ok <==> missing == 0 && Written(flashOk, writes))
              && (ok ==> flash == Concat(chunks)) && flash <= Concat(chunks)
  {
    var boundary := MultipartBoundary(contentType);
    MarkerLength(contentType);
    if boundary.Some? {
      ok, flash, writes := MultipartUpdate(boundary.value, chunks, missing, flashOk);
    } else {
      ok, flash, writes := RawUpdate(chunks, missing, flashOk);
    }
  }

  lemma MarkerLength(contentType: Option<seq<byte>>)
    ensures var m := Marker(contentType); m.Some? ==> 5 <= |m.value| <= 4 + TOKEN_MAX
  {
  }

  /** The loop when no boundary was announced: every byte is flashed as it arrives. */
  method RawUpdate(chunks: seq<seq<byte>>, missing: nat, flashOk: nat -> bool)
    returns (ok: bool, flash: seq<byte>, writes: nat)
    requires Pieces(chunks)
    ensures (ok <==> missing == 0 && Written(flashOk, writes))
    ensures (ok ==> flash == Concat(chunks)) && flash <= Concat(chunks)
  {
    var remaining := |Concat(chunks)| + missing;
    var c := 0;
    ok, flash, writes := true, [], 0;
    while remaining > 0 && ok
      invariant c <= |chunks| && remaining == |Concat(chunks[c..])| + missing
      invariant ok <==> Written(flashOk, writes)
      invariant flash <= Concat(chunks) && (ok ==> flash == Concat(chunks[..c]))
    {
      if c == |chunks| { return false, flash, writes; }
      var p := chunks[c];
      NextChunk(chunks, c);
      ConcatPrefix(chunks, c + 1);
      c := c + 1;
      remaining := remaining - |p|;
      WrittenSnoc(flashOk, writes);
      ok := flashOk(writes);
      writes := writes + 1;
      if ok { flash := flash + p; }
    }
    if ok { NoneLeft(chunks, c); }
  }

  lemma NoneLeft(chunks: seq<seq<byte>>, c: nat)
    requires Pieces(chunks) && c <= |chunks| && Concat(chunks[c..]) == []
    ensures c == |chunks| && chunks[..c] == chunks
  {
    if c < |chunks| { NextChunk(chunks, c); }
  }

  /** The loop for a multipart body. */
  method MultipartUpdate(marker: seq<byte>, chunks: seq<seq<byte>>, missing: nat, flashOk: nat -> bool)
    returns (ok: bool, flash: seq<byte>, writes: nat)
    requires Pieces(chunks) && 5 <= |marker| <= 4 + TOKEN_MAX
    ensures Result(chunks, marker, Written(flashOk, writes), ok, flash)
  {
    hide Find;
    hide Result;
    hide Sliding;
    hide Written;
    hide HeaderIn;
    hide Part;
    var head, tail, window := new byte[HEAD_MAX], new byte[TAIL_MAX], new byte[WINDOW_MAX];
    var headLen: nat, tailLen: nat, inBody := 0, 0, false;
    var remaining := |Concat(chunks)| + missing;
    var c := 0;
    flash, writes := [], 0;
    ghost var h := 0;
    assert chunks[0..] == chunks && Concat(chunks[..0]) == [];
    NothingYet(marker, flashOk);
    while remaining > 0
      invariant c <= |chunks| && remaining == |Concat(chunks[c..])| + missing
      invariant headLen <= HEAD_MAX && tailLen < |marker|
      invariant Progress(marker, Concat(chunks[..c]), inBody, head[..headLen], flash, tail[..tailLen])
      invariant inBody ==> h <= |chunks| && HeaderIn(chunks, h)
      invariant Written(flashOk, writes)
    {
      ghost var got := Concat(chunks[..c]);
      ghost var oldHead, oldTail := head[..headLen], tail[..tailLen];
      if c == |chunks| {
        assert chunks[..c] == chunks;
        OutOfBytes(chunks, marker, true, inBody, oldHead, flash, oldTail);
        return false, flash, writes;
      }
      var p := chunks[c];
      NextChunk(chunks, c);
      c := c + 1;
      remaining := remaining - |p|;
      ghost var part: seq<byte>, oldBody := [], inBody;
      if !inBody {
        var fits, len, left := Collect(head, headLen, p);
        if !fits {
          Overflowed(chunks, c - 1, marker, true);
          return false, flash, writes;
        }
        headLen := len;
        if left.None? { continue; }
        HeaderNow(chunks, c);
        inBody := true;
        h := c;
        p := left.value;
      } else {
        part := Part(got);
        PartGrows(got, p);
      }
      assert Part(Concat(chunks[..c])) == part + p;
      if |p| == 0 { continue; }
      var step, newLen, f, w := PourBytes(marker, tail, tailLen, window, p, flash, writes, flashOk, part);
      if step == Failed {
        WriteFailed(chunks, c - 1, marker, oldBody, oldHead, flash, oldTail);
        return false, f, w;
      }
      flash, writes, tailLen := f, w, newLen;
      if step == Found {
        FoundPayload(chunks, h, c, marker);
        return true, flash, writes;
      }
    }
    NoneLeft(chunks, c);
    OutOfBytes(chunks, marker, true, inBody, head[..headLen], flash, tail[..tailLen]);
    return false, flash, writes;
  }

  lemma NothingYet(marker: seq<byte>, flashOk: nat -> bool)
    requires |marker| >= 1
    ensures Find([], BLANK).None? && Sliding(marker, [], [], []) && Written(flashOk, 0)
  {
  }

  lemma HeaderNow(chunks: seq<seq<byte>>, c: nat)
    requires c <= |chunks| && |Concat(chunks[..c])| <= HEAD_MAX && Find(Concat(chunks[..c]), BLANK).Some?
    ensures HeaderIn(chunks, c)
  {
  }

  lemma FoundPayload(chunks: seq<seq<byte>>, h: nat, c: nat, marker: seq<byte>)
    requires h <= |chunks| && c <= |chunks| && HeaderIn(chunks, h)
    requires Find(Concat(chunks[..c]), BLANK).Some? && Find(Part(Concat(chunks[..c])), marker).Some?
    ensures Find(Part(Concat(chunks[..c])), marker).value <= |Part(Concat(chunks[..c]))|
    ensures Result(chunks, marker, true, true,
                   Part(Concat(chunks[..c]))[..Find(Part(Concat(chunks[..c])), marker).value])
  {
    MarkerFound(chunks, h, c, marker);
  }

  // ---- Which chunkings can succeed -------------------------------------

  ghost predicate ChunkingOf(chunks: seq<seq<byte>>, body: seq<byte>) { Pieces(chunks) && Concat(chunks) == body }

  function Greedy(s: seq<byte>): (r: seq<seq<byte>>)
    ensures Pieces(r) && Concat(r) == s
    ensures s != [] ==> r != [] && |r[0]| == Min(CHUNK_MAX, |s|)
  {
    if s == [] then []
    else
      var n := Min(CHUNK_MAX, |s|);
      assert s == s[..n] + s[n..];
      var rest := Greedy(s[n..]);
      var r := [s[..n]] + rest;
      assert r[1..] == rest && r[0] == s[..n];
      assert Concat(r) == s[..n] + Concat(rest);
      assert forall c :: 0 < c < |r| ==> r[c] == rest[c - 1];
      r
  }

  lemma PiecesAppend(a: seq<seq<byte>>, b: seq<seq<byte>>)
    requires Pieces(a) && Pieces(b)
    ensures Pieces(a + b)
  {
    forall c | 0 <= c < |a + b| ensures 1 <= |(a + b)[c]| <= CHUNK_MAX {
      if c < |a| { assert (a + b)[c] == a[c]; } else { assert (a + b)[c] == b[c - |a|]; }
    }
  }

  /** The pieces of `a` followed by those of `b` show the bytes of `a`, or at least one piece more. */
  lemma PrefixOfTwo(a: seq<seq<byte>>, b: seq<seq<byte>>, c: nat)
    requires c <= |a| + |b|
    ensures c <= |a| ==> Concat((a + b)[..c]) <= Concat(a)
    ensures c > |a| ==> Concat(a) + b[0] <= Concat((a + b)[..c])
  {
    if c <= |a| {
      ConcatPrefix(a, c);
      hide Concat;
      assert (a + b)[..c] == a[..c];
    } else {
      var rest := b[..c - |a|];
      ConcatAppend(a, rest);
      ConcatFirst(rest);
      hide Concat;
      assert (a + b)[..c] == a + rest && rest[0] == b[0];
      PrefixAfter(Concat(a), b[0], Concat(rest));
    }
  }

  lemma ConcatFirst(s: seq<seq<byte>>)
    requires s != []
    ensures s[0] <= Concat(s)
  {
  }

  lemma PrefixAfter(a: seq<byte>, x: seq<byte>, y: seq<byte>)
    requires x <= y
    ensures a + x <= a + y
  {
    assert y == x + y[|x|..];
    assert a + y == (a + x) + y[|x|..];
  }

  lemma NoBlankBefore(body: seq<byte>, s: seq<byte>)
    requires Find(body, BLANK).Some? && s <= body
    ensures Find(s, BLANK).Some? <==> |s| >= Find(body, BLANK).value + 4
  {
    var b := Find(body, BLANK).value;
    assert body == s + body[|s|..];
    if Find(s, BLANK).Some? { FindStays(s, body[|s|..], BLANK); }
    if |s| >= b + 4 {
      assert s[b..b + |BLANK|] == body[b..b + |BLANK|];
      assert At(s, BLANK, b);
    }
  }

  /** Whatever the pieces, the header fits exactly when the whole body does: a longer body can
      always arrive so that the piece ending the header overruns the buffer. */
  lemma EveryChunkingFits(body: seq<byte>)
    requires Find(body, BLANK).Some?
    ensures (forall chunks :: ChunkingOf(chunks, body) ==> HeaderFits(chunks)) <==> |body| <= HEAD_MAX
  {
    if |body| <= HEAD_MAX {
      forall chunks | ChunkingOf(chunks, body) ensures HeaderFits(chunks) {
        assert chunks[..|chunks|] == chunks;
        assert HeaderIn(chunks, |chunks|);
      }
    } else {
      var chunks := BadChunking(body);
    }
  }

  lemma BadChunking(body: seq<byte>) returns (chunks: seq<seq<byte>>)
    requires Find(body, BLANK).Some? && |body| > HEAD_MAX
    ensures ChunkingOf(chunks, body) && !HeaderFits(chunks)
  {
    var cut := Find(body, BLANK).value + 3;
    var a, b := Greedy(body[..cut]), Greedy(body[cut..]);
    chunks := a + b;
    PiecesAppend(a, b);
    ConcatAppend(a, b);
    assert body == body[..cut] + body[cut..];
    forall c | 0 <= c <= |chunks| ensures !HeaderIn(chunks, c) {
      PrefixOfTwo(a, b, c);
      ConcatPrefix(chunks, c);
      NoBlankBefore(body, Concat(chunks[..c]));
    }
  }

  /** Some chunking succeeds exactly when the part header ends within the buffer. */
  lemma SomeChunkingFits(body: seq<byte>)
    requires Find(body, BLANK).Some?
    ensures (exists chunks :: ChunkingOf(chunks, body) && HeaderFits(chunks))
            <==> Find(body, BLANK).value + 4 <= HEAD_MAX
  {
    var cut := Find(body, BLANK).value + 4;
    if cut <= HEAD_MAX {
      var a, b := Greedy(body[..cut]), Greedy(body[cut..]);
      PiecesAppend(a, b);
      ConcatAppend(a, b);
      assert body == body[..cut] + body[cut..];
      assert (a + b)[..|a|] == a;
      NoBlankBefore(body, body[..cut]);
      assert HeaderIn(a + b, |a|);
      assert ChunkingOf(a + b, body);
    }
    forall chunks | ChunkingOf(chunks, body) && HeaderFits(chunks) ensures cut <= HEAD_MAX {
      var c :| 0 <= c <= |chunks| && HeaderIn(chunks, c);
      ConcatPrefix(chunks, c);
      NoBlankBefore(body, Concat(chunks[..c]));
    }
  }
}
