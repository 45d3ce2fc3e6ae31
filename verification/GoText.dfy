// The byte-string operations of Go's strings package that the logger and the line editor
// rely on: splitting, trimming a trailing byte, and TrimSpace over UTF-8 white space.
module GoText {
  import opened Prelude

  type Bytes = seq<Byte>

  const LF: Byte := 10
  const CR: Byte := 13

  function Init<T>(s: seq<T>): seq<T>
    requires |s| > 0
  {
    s[..|s| - 1]
  }

  function Last<T>(s: seq<T>): T
    requires |s| > 0
  {
    s[|s| - 1]
  }

  // The pieces after one more byte: a separator opens a piece, any other byte extends the last.
  function Extend(pieces: seq<Bytes>, b: Byte, seps: set<Byte>): (more: seq<Bytes>)
    requires |pieces| > 0
    ensures |more| > 0
  {
    if b in seps then pieces + [[]] else Init(pieces) + [Last(pieces) + [b]]
  }

  // Split at every separator byte; there is always at least one piece.
  function Split(s: Bytes, seps: set<Byte>): (pieces: seq<Bytes>)
    ensures |pieces| > 0
  {
    if s == [] then [[]] else Extend(Split(Init(s), seps), Last(s), seps)
  }

  lemma SplitSnoc(s: Bytes, b: Byte, seps: set<Byte>)
    ensures Split(s + [b], seps) == Extend(Split(s, seps), b, seps)
  {
    assert Init(s + [b]) == s;
  }

  lemma ExtendAppend(head: seq<Bytes>, rest: seq<Bytes>, b: Byte, seps: set<Byte>)
    requires |rest| > 0
    ensures Extend(head + rest, b, seps) == head + Extend(rest, b, seps)
  {
    assert Init(head + rest) == head + Init(rest);
  }

  // Splitting a longer string: the pieces so far are final, except for the last.
  lemma {:induction false} SplitAppend(a: Bytes, b: Bytes, seps: set<Byte>)
    ensures Split(a + b, seps) == Init(Split(a, seps)) + Split(Last(Split(a, seps)) + b, seps)
  {
    var head, tail := Init(Split(a, seps)), Last(Split(a, seps));
    if b == [] {
      assert a + b == a && tail + b == tail;
      LastHasNoSeparator(a, seps);
      SplitWhole(tail, seps);
    } else {
      var c, last := Init(b), Last(b);
      assert a + b == (a + c) + [last] && tail + b == (tail + c) + [last];
      calc {
        Split(a + b, seps);
      == { SplitSnoc(a + c, last, seps); }
        Extend(Split(a + c, seps), last, seps);
      == { SplitAppend(a, c, seps); }
        Extend(head + Split(tail + c, seps), last, seps);
      == { ExtendAppend(head, Split(tail + c, seps), last, seps); }
        head + Extend(Split(tail + c, seps), last, seps);
      == { SplitSnoc(tail + c, last, seps); }
        head + Split(tail + b, seps);
      }
    }
  }

  predicate NoneOf(s: Bytes, seps: set<Byte>) {
    forall i :: 0 <= i < |s| ==> s[i] !in seps
  }

  lemma {:induction false} LastHasNoSeparator(s: Bytes, seps: set<Byte>)
    ensures NoneOf(Last(Split(s, seps)), seps)
  {
    if s != [] {
      LastHasNoSeparator(Init(s), seps);
    }
  }

  lemma {:induction false} SplitWhole(s: Bytes, seps: set<Byte>)
    requires NoneOf(s, seps)
    ensures Split(s, seps) == [s]
  {
    if s != [] {
      SplitWhole(Init(s), seps);
      assert Last(s) !in seps && Init(s) + [Last(s)] == s;
    }
  }

  // The reference reading of a split at one byte: the only list of separator-free pieces
  // that joins back to the string.
  function Join(pieces: seq<Bytes>, sep: Byte): Bytes
    requires |pieces| > 0
  {
    if |pieces| == 1 then pieces[0] else Join(Init(pieces), sep) + [sep] + Last(pieces)
  }

  ghost predicate SeparatorFree(pieces: seq<Bytes>, sep: Byte) {
    forall i :: 0 <= i < |pieces| ==> NoneOf(pieces[i], {sep})
  }

  lemma JoinExtend(pieces: seq<Bytes>, b: Byte, sep: Byte)
    requires |pieces| > 0
    ensures Join(Extend(pieces, b, {sep}), sep) == Join(pieces, sep) + [b]
  {
    var more := Extend(pieces, b, {sep});
    if b == sep {
      assert Init(more) == pieces;
    } else if |pieces| > 1 {
      assert Init(more) == Init(pieces);
    }
  }

  lemma ExtendFree(pieces: seq<Bytes>, b: Byte, sep: Byte)
    requires |pieces| > 0 && SeparatorFree(pieces, sep)
    ensures SeparatorFree(Extend(pieces, b, {sep}), sep)
  {
    assert NoneOf(Last(pieces), {sep});
  }

  lemma {:induction false} JoinSplit(s: Bytes, sep: Byte)
    ensures Join(Split(s, {sep}), sep) == s && SeparatorFree(Split(s, {sep}), sep)
  {
    if s == [] {
      assert Split(s, {sep}) == [[]];
    } else {
      var before, b := Init(s), Last(s);
      assert s == before + [b];
      JoinSplit(before, sep);
      JoinSplitSnoc(before, b, sep);
    }
  }

  lemma JoinSplitSnoc(s: Bytes, b: Byte, sep: Byte)
    requires Join(Split(s, {sep}), sep) == s && SeparatorFree(Split(s, {sep}), sep)
    ensures Join(Split(s + [b], {sep}), sep) == s + [b] && SeparatorFree(Split(s + [b], {sep}), sep)
  {
    var pieces := Split(s, {sep});
    SplitSnoc(s, b, {sep});
    JoinExtend(pieces, b, sep);
    ExtendFree(pieces, b, sep);
  }

  lemma {:induction false} SplitJoin(pieces: seq<Bytes>, sep: Byte)
    requires |pieces| > 0 && SeparatorFree(pieces, sep)
    ensures Split(Join(pieces, sep), {sep}) == pieces
  {
    if |pieces| == 1 {
      SplitWhole(pieces[0], {sep});
    } else {
      SplitJoin(Init(pieces), sep);
      var joined := Join(Init(pieces), sep);
      SplitSnoc(joined, sep, {sep});
      SplitAppend(joined + [sep], Last(pieces), {sep});
      assert Init(Init(pieces) + [[]]) == Init(pieces) && [] + Last(pieces) == Last(pieces);
      SplitWhole(Last(pieces), {sep});
    }
  }

  // ---- trimming ----------------------------------------------------------------

  // strings.TrimRight(s, "\r")
  function TrimCR(s: Bytes): Bytes {
    if s != [] && Last(s) == CR then TrimCR(Init(s)) else s
  }

  predicate IsAsciiSpace(b: Byte) {
    9 <= b <= 13 || b == 32
  }

  // U+0085 and U+00A0.
  predicate IsSpace2(a: Byte, b: Byte) {
    a == 0xC2 && (b == 0x85 || b == 0xA0)
  }

  // U+1680, U+2000 to U+200A, U+2028, U+2029, U+202F, U+205F and U+3000.
  predicate IsSpace3(a: Byte, b: Byte, c: Byte) {
    || (a == 0xE1 && b == 0x9A && c == 0x80)
    || (a == 0xE2 && b == 0x80 && (0x80 <= c <= 0x8A || c == 0xA8 || c == 0xA9 || c == 0xAF))
    || (a == 0xE2 && b == 0x81 && c == 0x9F)
    || (a == 0xE3 && b == 0x80 && c == 0x80)
  }

  // The length of the white-space rune at the front of s, or 0.
  function SpaceAtFront(s: Bytes): (n: nat)
    ensures n <= |s|
  {
    if |s| >= 1 && IsAsciiSpace(s[0]) then 1
    else if |s| >= 2 && IsSpace2(s[0], s[1]) then 2
    else if |s| >= 3 && IsSpace3(s[0], s[1], s[2]) then 3
    else 0
  }

  function SpaceAtBack(s: Bytes): (n: nat)
    ensures n <= |s|
  {
    var k := |s|;
    if k >= 1 && IsAsciiSpace(s[k - 1]) then 1
    else if k >= 2 && IsSpace2(s[k - 2], s[k - 1]) then 2
    else if k >= 3 && IsSpace3(s[k - 3], s[k - 2], s[k - 1]) then 3
    else 0
  }

  function TrimFront(s: Bytes): Bytes
    decreases |s|
  {
    if SpaceAtFront(s) == 0 then s else TrimFront(s[SpaceAtFront(s)..])
  }

  function TrimBack(s: Bytes): Bytes
    decreases |s|
  {
    if SpaceAtBack(s) == 0 then s else TrimBack(s[..|s| - SpaceAtBack(s)])
  }

  function TrimSpace(s: Bytes): Bytes {
    TrimBack(TrimFront(s))
  }

  predicate IsBlank(s: Bytes) {
    TrimSpace(s) == []
  }

  // ---- what the trims leave ------------------------------------------------------

  // TrimCR cuts a run of carriage returns off the end, the longest there is.
  lemma {:induction false} TrimCRLeaves(s: Bytes)
    ensures TrimCR(s) <= s
    ensures TrimCR(s) != [] ==> TrimCR(s)[|TrimCR(s)| - 1] != 13
    ensures forall i :: |TrimCR(s)| <= i < |s| ==> s[i] == 13
  {
    if s != [] && Last(s) == CR {
      TrimCRLeaves(Init(s));
      assert s == Init(s) + [Last(s)];
    }
  }

  // The code point of one well-formed UTF-8 sequence of up to three bytes.
  function CodePoint(r: Bytes): Option<nat> {
    if |r| == 1 && r[0] < 0x80 then Some(r[0])
    else if |r| == 2 && 0xC2 <= r[0] <= 0xDF && IsTail(r[1]) then
      var a: int, b: int := r[0], r[1];
      Some(64 * (a - 0xC0) + (b - 0x80))
    else if |r| == 3 && 0xE0 <= r[0] <= 0xEF && (r[0] == 0xE0 ==> r[1] >= 0xA0) && IsTail(r[1]) && IsTail(r[2]) then
      var a: int, b: int, c: int := r[0], r[1], r[2];
      Some(4096 * (a - 0xE0) + 64 * (b - 0x80) + (c - 0x80))
    else None
  }

  predicate IsTail(b: Byte) {
    0x80 <= b <= 0xBF
  }

  // White_Space, in code points (unicode.IsSpace).
  predicate IsSpacePoint(c: nat) {
    || 0x9 <= c <= 0xD || c == 0x20 || c == 0x85 || c == 0xA0 || c == 0x1680
    || 0x2000 <= c <= 0x200A || c == 0x2028 || c == 0x2029 || c == 0x202F || c == 0x205F || c == 0x3000
  }

  predicate IsSpaceRune(r: Bytes) {
    CodePoint(r).Some? && IsSpacePoint(CodePoint(r).value)
  }

  // The same in bytes.
  predicate IsSpaceBytes(r: Bytes) {
    || (|r| == 1 && IsAsciiSpace(r[0]))
    || (|r| == 2 && IsSpace2(r[0], r[1]))
    || (|r| == 3 && IsSpace3(r[0], r[1], r[2]))
  }

  lemma TwoByteRune(r: Bytes)
    requires |r| == 2
    ensures IsSpaceRune(r) <==> IsSpace2(r[0], r[1])
  {
  }

  lemma ThreeByteRune(r: Bytes)
    requires |r| == 3
    ensures IsSpaceRune(r) <==> IsSpace3(r[0], r[1], r[2])
  {
  }

  lemma SpaceRuneIs(r: Bytes)
    ensures IsSpaceRune(r) <==> IsSpaceBytes(r)
  {
    if |r| == 2 {
      TwoByteRune(r);
    } else if |r| == 3 {
      ThreeByteRune(r);
    }
  }

  lemma BytesAtFront(s: Bytes, n: nat)
    requires 1 <= n <= |s| && n <= 3
    ensures IsSpaceBytes(s[..n]) <==> SpaceAtFront(s) == n
  {
  }

  lemma BytesAtBack(s: Bytes, n: nat)
    requires 1 <= n <= |s| && n <= 3
    ensures SpaceAtBack(s) == n ==> IsSpaceBytes(s[|s| - n..])
    ensures IsSpaceBytes(s[|s| - n..]) ==> SpaceAtBack(s) > 0
  {
  }

  // The byte patterns are those of the code points, at either end.
  lemma SpaceAtFrontIs(s: Bytes, n: nat)
    requires 1 <= n <= |s| && n <= 3
    ensures IsSpaceRune(s[..n]) <==> SpaceAtFront(s) == n
  {
    SpaceRuneIs(s[..n]);
    BytesAtFront(s, n);
  }

  lemma SpaceAtBackIs(s: Bytes, n: nat)
    requires 1 <= n <= |s| && n <= 3
    ensures SpaceAtBack(s) == n ==> IsSpaceRune(s[|s| - n..])
    ensures IsSpaceRune(s[|s| - n..]) ==> SpaceAtBack(s) > 0
  {
    SpaceRuneIs(s[|s| - n..]);
    BytesAtBack(s, n);
  }

  // The runes one after another.
  function Flat(runes: seq<Bytes>): Bytes {
    if runes == [] then [] else runes[0] + Flat(runes[1..])
  }

  predicate MadeOf(s: Bytes, runes: seq<Bytes>) {
    s == Flat(runes) && forall k :: 0 <= k < |runes| ==> IsSpaceRune(runes[k])
  }

  // A run of white-space runes.
  ghost predicate IsSpaces(s: Bytes) {
    exists runes :: MadeOf(s, runes)
  }

  lemma NoSpace()
    ensures IsSpaces([])
  {
    assert MadeOf([], []);
  }

  lemma OneSpace(r: Bytes)
    requires IsSpaceRune(r)
    ensures IsSpaces(r)
  {
    assert MadeOf(r, [r]);
  }

  lemma JoinInThree(a: Bytes, b: Bytes, c: Bytes)
    ensures a + b + c == a + (b + c)
  {
  }

  lemma {:induction false} FlatJoin(a: seq<Bytes>, b: seq<Bytes>)
    ensures Flat(a + b) == Flat(a) + Flat(b)
  {
    if a == [] {
      assert a + b == b;
    } else {
      FlatJoin(a[1..], b);
      assert (a + b)[1..] == a[1..] + b;
      JoinInThree(a[0], Flat(a[1..]), Flat(b));
    }
  }

  lemma SpacesJoin(a: Bytes, b: Bytes)
    requires IsSpaces(a) && IsSpaces(b)
    ensures IsSpaces(a + b)
  {
    var first, second :| MadeOf(a, first) && MadeOf(b, second);
    FlatJoin(first, second);
    assert MadeOf(a + b, first + second);
  }

  lemma WholeSlice(s: Bytes)
    ensures s[..|s|] == s && s[|s|..] == [] && s[..0] == [] && s[0..] == s
  {
  }

  lemma SpaceMoreAtFront(s: Bytes, n: nat, j: nat)
    requires 1 <= n <= |s| && n == SpaceAtFront(s) && j <= |s| - n && IsSpaces(s[n..][..j])
    ensures IsSpaces(s[..n + j]) && s[n..][j..] == s[n + j..]
  {
    SpaceAtFrontIs(s, n);
    OneSpace(s[..n]);
    SpacesJoin(s[..n], s[n..][..j]);
    assert s[..n + j] == s[..n] + s[n..][..j];
  }

  lemma {:induction false} TrimFrontLeaves(s: Bytes) returns (i: nat)
    ensures i <= |s| && TrimFront(s) == s[i..] && IsSpaces(s[..i]) && SpaceAtFront(s[i..]) == 0
    decreases |s|
  {
    var n := SpaceAtFront(s);
    if n == 0 {
      i := 0;
      WholeSlice(s);
      NoSpace();
    } else {
      var j := TrimFrontLeaves(s[n..]);
      i := n + j;
      SpaceMoreAtFront(s, n, j);
    }
  }

  lemma CutTwice(s: Bytes, j: nat, n: nat)
    requires n <= |s| && j <= |s| - n
    ensures s[..|s| - n][..j] == s[..j] && s[j..] == s[..|s| - n][j..] + s[|s| - n..]
  {
  }

  lemma MiddleSlice(s: Bytes, i: nat, k: nat)
    requires i <= |s| && k <= |s| - i
    ensures s[i..][..k] == s[i..i + k] && s[i..][k..] == s[i + k..]
  {
  }

  lemma SpaceMoreAtBack(s: Bytes, n: nat, j: nat)
    requires 1 <= n <= |s| && n == SpaceAtBack(s) && j <= |s| - n && IsSpaces(s[..|s| - n][j..])
    ensures IsSpaces(s[j..])
  {
    SpaceAtBackIs(s, n);
    OneSpace(s[|s| - n..]);
    CutTwice(s, j, n);
    SpacesJoin(s[..|s| - n][j..], s[|s| - n..]);
  }

  lemma {:induction false} TrimBackLeaves(s: Bytes) returns (j: nat)
    ensures j <= |s| && TrimBack(s) == s[..j] && IsSpaces(s[j..]) && SpaceAtBack(s[..j]) == 0
    decreases |s|
  {
    var n := SpaceAtBack(s);
    if n == 0 {
      j := |s|;
      WholeSlice(s);
      NoSpace();
    } else {
      var cut := s[..|s| - n];
      j := TrimBackLeaves(cut);
      CutTwice(s, j, n);
      SpaceMoreAtBack(s, n, j);
    }
  }

  // Neither end is white space, in any reading of the end as a rune.
  predicate SpaceAtEnd(s: Bytes, n: nat) {
    1 <= n <= |s| && (IsSpaceRune(s[..n]) || IsSpaceRune(s[|s| - n..]))
  }

  ghost predicate IsTrimmed(s: Bytes) {
    forall n: nat :: !SpaceAtEnd(s, n)
  }

  lemma TrimmedIs(s: Bytes)
    ensures IsTrimmed(s) <==> SpaceAtFront(s) == 0 && SpaceAtBack(s) == 0
  {
    var f, b := SpaceAtFront(s), SpaceAtBack(s);
    if f > 0 {
      SpaceAtFrontIs(s, f);
      assert SpaceAtEnd(s, f);
    }
    if b > 0 {
      SpaceAtBackIs(s, b);
      assert SpaceAtEnd(s, b);
    }
    forall n: nat | SpaceAtEnd(s, n) ensures f > 0 || b > 0 {
      SpaceAtFrontIs(s, n);
      SpaceAtBackIs(s, n);
    }
  }

  // Cutting at the back uncovers nothing at the front.
  lemma TrimmedMiddle(s: Bytes, k: nat)
    requires k <= |s| && SpaceAtFront(s) == 0
    ensures SpaceAtFront(s[..k]) == 0
  {
  }

  // TrimSpace cuts white space off both ends, and leaves none at either.
  lemma TrimSpaceLeaves(s: Bytes) returns (i: nat, j: nat)
    ensures i <= j <= |s| && TrimSpace(s) == s[i..j]
    ensures IsSpaces(s[..i]) && IsSpaces(s[j..]) && IsTrimmed(TrimSpace(s))
  {
    i := TrimFrontLeaves(s);
    var k := TrimBackLeaves(s[i..]);
    j := i + k;
    MiddleSlice(s, i, k);
    TrimmedMiddle(s[i..], k);
    TrimmedIs(s[i..j]);
  }

  lemma {:induction false} RunesTrimAway(runes: seq<Bytes>)
    requires MadeOf(Flat(runes), runes)
    ensures TrimFront(Flat(runes)) == []
  {
    if runes != [] {
      var s, rest := Flat(runes), Flat(runes[1..]);
      assert s[..|runes[0]|] == runes[0] && s[|runes[0]|..] == rest;
      SpaceAtFrontIs(s, |runes[0]|);
      assert MadeOf(rest, runes[1..]);
      RunesTrimAway(runes[1..]);
    }
  }

  lemma SpacesTrimAway(s: Bytes)
    requires IsSpaces(s)
    ensures TrimFront(s) == []
  {
    var runes :| MadeOf(s, runes);
    RunesTrimAway(runes);
  }

  lemma CutHere(s: Bytes, i: nat, j: nat)
    requires i <= j <= |s| && s[i..j] == []
    ensures s[..i] + s[j..] == s
  {
    assert |s[i..j]| == j - i;
  }

  lemma BlankIsSpaces(s: Bytes)
    requires IsBlank(s)
    ensures IsSpaces(s)
  {
    var i, j := TrimSpaceLeaves(s);
    CutHere(s, i, j);
    SpacesJoin(s[..i], s[j..]);
  }

  // Blank means nothing but white space.
  lemma BlankIff(s: Bytes)
    ensures IsBlank(s) <==> IsSpaces(s)
  {
    if IsBlank(s) {
      BlankIsSpaces(s);
    } else if IsSpaces(s) {
      SpacesTrimAway(s);
    }
  }
}
