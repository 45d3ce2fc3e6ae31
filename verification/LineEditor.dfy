// sup/multiplexer.go, handleSupervisorInput: the prompt's line editor, while no container
// is attached and no command attaches one.
module LineEditor {
  import opened Prelude
  import opened GoText

  const CTRL_C: Byte := 3
  const ENTERS: set<Byte> := {13, 10}
  const BACKSPACES: set<Byte> := {127, 8}

  // ---- the editor as the source runs it -----------------------------------------

  // What has been dispatched, and the line being typed.
  datatype Session = Session(lines: seq<Bytes>, buf: Bytes)

  function Key(s: Session, b: Byte): Session {
    if b == CTRL_C then s
    else if b in ENTERS then
      Session(if TrimSpace(s.buf) != [] then s.lines + [TrimSpace(s.buf)] else s.lines, [])
    else if b in BACKSPACES then
      (if |s.buf| > 0 then s.(buf := Init(s.buf)) else s)
    else s.(buf := s.buf + [b])
  }

  function Keys(stream: Bytes): Session {
    if stream == [] then Session([], []) else Key(Keys(Init(stream)), Last(stream))
  }

  // The part of a chunk that is looked at: the handler returns at the first Enter.
  function Kept(chunk: Bytes): Bytes {
    if chunk == [] then []
    else if chunk[0] in ENTERS then [chunk[0]]
    else [chunk[0]] + Kept(chunk[1..])
  }

  class Multiplexer {
    var lineBuf: Bytes
    var dispatched: seq<Bytes>
    ghost var typed: Bytes

    ghost predicate Valid()
      reads this
    {
      Keys(typed) == Session(dispatched, lineBuf)
    }

    constructor ()
      ensures Valid() && typed == []
    {
      lineBuf, dispatched, typed := [], [], [];
    }

    // Whatever the chunk, the session is that of all kept bytes so far.
    method HandleSupervisorInput(input: Bytes)
      requires Valid()
      modifies this
      ensures Valid() && typed == old(typed) + Kept(input)
    {
      ghost var all := typed + Kept(input);
      for i := 0 to |input|
        invariant Valid()
        invariant typed + Kept(input[i..]) == all
      {
        var b := input[i];
        KeysSnoc(typed, b);
        KeptNext(typed, input, i);
        typed := typed + [b];
        if b == CTRL_C {
        } else if b in ENTERS {
          var line := TrimSpace(lineBuf);
          lineBuf := [];
          if line != [] {
            dispatched := dispatched + [line];
          }
          return;
        } else if b in BACKSPACES {
          if |lineBuf| > 0 {
            lineBuf := lineBuf[..|lineBuf| - 1];
          }
        } else {
          lineBuf := lineBuf + [b];
        }
      }
    }
  }

  // What one more byte leaves to be kept: nothing after an Enter.
  lemma KeptNext(typed: Bytes, input: Bytes, i: nat)
    requires i < |input|
    ensures typed + Kept(input[i..])
         == if input[i] in ENTERS then typed + [input[i]] else (typed + [input[i]]) + Kept(input[i + 1..])
  {
    assert input[i..][0] == input[i] && input[i..][1..] == input[i + 1..];
  }

  lemma {:induction false} KeptIsPrefix(chunk: Bytes)
    ensures |Kept(chunk)| <= |chunk| && Kept(chunk) == chunk[..|Kept(chunk)|]
  {
    if chunk != [] && chunk[0] !in ENTERS {
      KeptIsPrefix(chunk[1..]);
      var n := |Kept(chunk[1..])|;
      assert chunk[..n + 1] == [chunk[0]] + chunk[1..][..n];
    }
  }

  // A chunk is read whole exactly when no Enter stands before its last byte.
  lemma {:induction false} KeptWhole(chunk: Bytes)
    ensures |Kept(chunk)| <= |chunk| && Kept(chunk) == chunk[..|Kept(chunk)|]
    ensures Kept(chunk) == chunk <==> forall i :: 0 <= i < |chunk| - 1 ==> chunk[i] !in ENTERS
  {
    KeptIsPrefix(chunk);
    if chunk != [] && chunk[0] !in ENTERS {
      var rest := chunk[1..];
      KeptWhole(rest);
      assert chunk == [chunk[0]] + rest;
      assert Kept(chunk) == [chunk[0]] + Kept(rest);
      assert Kept(chunk) == chunk <==> Kept(rest) == rest by {
        assert Kept(chunk)[1..] == Kept(rest);
      }
      NoEnterBefore(chunk);
    }
  }

  lemma NoEnterBefore(chunk: Bytes)
    requires chunk != [] && chunk[0] !in ENTERS
    ensures (forall i :: 0 <= i < |chunk| - 1 ==> chunk[i] !in ENTERS)
       <==> (forall i :: 0 <= i < |chunk[1..]| - 1 ==> chunk[1..][i] !in ENTERS)
  {
    if forall i :: 0 <= i < |chunk[1..]| - 1 ==> chunk[1..][i] !in ENTERS {
      forall i | 0 <= i < |chunk| - 1 ensures chunk[i] !in ENTERS {
        assert i > 0 ==> chunk[1..][i - 1] == chunk[i];
      }
    }
  }

  // The bytes the editor reacts to, by number.
  lemma ControlBytes(s: Session, b: Byte)
    ensures b == 3 ==> Key(s, b) == s
    ensures b == 13 || b == 10 ==> Key(s, b).buf == [] && |Key(s, b).lines| <= |s.lines| + 1
    ensures b == 13 || b == 10 ==> (Key(s, b).lines == s.lines <==> IsSpaces(s.buf))
    ensures b == 127 || b == 8 ==> Key(s, b) == Session(s.lines, if s.buf == [] then [] else s.buf[..|s.buf| - 1])
    ensures b !in {3, 8, 10, 13, 127} ==> Key(s, b) == Session(s.lines, s.buf + [b])
  {
    BlankIff(s.buf);
  }

  lemma KeysSnoc(stream: Bytes, b: Byte)
    ensures Keys(stream + [b]) == Key(Keys(stream), b)
  {
    assert Init(stream + [b]) == stream;
  }

  // ---- what the rest of a chunk would have done ---------------------------------------

  // The part of a chunk that is not looked at.
  function Dropped(chunk: Bytes): Bytes {
    KeptWhole(chunk);
    chunk[|Kept(chunk)|..]
  }

  // Bytes that dispatch nothing and leave nothing typed, on an empty line.
  predicate Idle(stream: Bytes) {
    Keys(stream) == Session([], [])
  }

  // On an empty line, further bytes do what they do on their own.
  lemma {:induction false} KeysAfterLine(before: Bytes, after: Bytes)
    requires Keys(before).buf == []
    ensures Keys(before + after) == Session(Keys(before).lines + Keys(after).lines, Keys(after).buf)
  {
    if after == [] {
      assert before + after == before;
    } else {
      KeysAfterLine(before, Init(after));
      assert Init(before + after) == before + Init(after);
    }
  }

  // Only an Enter makes the handler drop bytes, and an Enter empties the line.
  lemma {:induction false} DropsAfterEnter(before: Bytes, chunk: Bytes)
    requires Dropped(chunk) != []
    ensures Keys(before + Kept(chunk)).buf == []
    decreases |chunk|
  {
    KeptWhole(chunk);
    if chunk[0] in ENTERS {
      KeysSnoc(before, chunk[0]);
    } else {
      assert before + Kept(chunk) == (before + [chunk[0]]) + Kept(chunk[1..]);
      KeptWhole(chunk[1..]);
      assert Dropped(chunk[1..]) == Dropped(chunk);
      DropsAfterEnter(before + [chunk[0]], chunk[1..]);
    }
  }

  // Main result: after any bytes, dropping the rest of a chunk changes the session if and
  // only if that rest would have dispatched a line or left something typed.
  lemma DropMattersIff(before: Bytes, chunk: Bytes)
    ensures Keys(before + Kept(chunk)) == Keys(before + chunk) <==> Idle(Dropped(chunk))
  {
    KeptWhole(chunk);
    assert before + chunk == (before + Kept(chunk)) + Dropped(chunk);
    if Dropped(chunk) == [] {
      assert before + chunk == before + Kept(chunk);
    } else {
      DropsAfterEnter(before, chunk);
      KeysAfterLine(before + Kept(chunk), Dropped(chunk));
    }
  }

  lemma {:induction false} KeysAgree(a: Bytes, b: Bytes, more: Bytes)
    requires Keys(a) == Keys(b)
    ensures Keys(a + more) == Keys(b + more)
  {
    if more == [] {
      assert a + more == a && b + more == b;
    } else {
      KeysAgree(a, b, Init(more));
      assert Init(a + more) == a + Init(more) && Init(b + more) == b + Init(more);
    }
  }

  lemma KeptCommand(b: Byte, more: Bytes)
    requires b !in ENTERS
    ensures Kept([b, 13] + more) == [b, 13]
  {
    assert ([b, 13] + more)[1..] == [13] + more;
    assert Kept([13] + more) == [13];
  }

  lemma OneCommand(b: Byte)
    requires b == 104 || b == 108
    ensures Keys([b, 13]) == Session([[b]], [])
  {
    OneLetter(b);
    KeysSnoc([], b);
    assert [] + [b] == [b];
    assert Keys([b]) == Session([], [b]);
    KeysSnoc([b], 13);
    assert [b] + [13] == [b, 13];
  }

  // Two one-letter commands in one read: the second one is dropped.
  lemma PastedCommandIsLost()
    ensures var l, h: Bytes := [108, 13], [104, 13];
      && Keys(Kept(l + h)).lines == [[108]]
      && Keys(Kept(l) + Kept(h)).lines == [[108], [104]]
  {
    OneCommand(108);
    OneCommand(104);
    KeptCommand(108, []);
    KeptCommand(104, []);
    KeptCommand(108, [104, 13]);
    assert [108, 13] + [] == [108, 13] && [104, 13] + [] == [104, 13];
    KeysAfterLine([108, 13], [104, 13]);
  }

  lemma OneLetter(b: Byte)
    requires b == 104 || b == 108
    ensures TrimSpace([b]) == [b]
  {
    assert SpaceAtFront([b]) == 0 && SpaceAtBack([b]) == 0;
  }

  // ---- the reference reading -------------------------------------------------------

  // The characters of a segment that survive, read from the right with `k` backspaces
  // still owed: each backspace cancels the nearest earlier character not yet cancelled.
  function Survivors(segment: Bytes, k: nat): Bytes {
    if segment == [] then []
    else
      var b := Last(segment);
      if b == CTRL_C then Survivors(Init(segment), k)
      else if b in BACKSPACES then Survivors(Init(segment), k + 1)
      else if k > 0 then Survivors(Init(segment), k - 1)
      else Survivors(Init(segment), 0) + [b]
  }

  function Segments(stream: Bytes): seq<Bytes> {
    Split(stream, ENTERS)
  }

  // The non-blank trimmed lines of the finished segments.
  function Lines(segments: seq<Bytes>): seq<Bytes> {
    if segments == [] then []
    else
      var line := TrimSpace(Survivors(Last(segments), 0));
      if line != [] then Lines(Init(segments)) + [line] else Lines(Init(segments))
  }

  // Typing a segment from the left leaves what the right-to-left reading keeps, whatever
  // number of further backspaces is owed.
  function Typed(segment: Bytes): Bytes {
    if segment == [] then []
    else Key(Session([], Typed(Init(segment))), Last(segment)).buf
  }

  lemma {:induction false} TypedSurvives(segment: Bytes, k: nat)
    requires NoneOf(segment, ENTERS)
    ensures Survivors(segment, k) == Typed(segment)[..if k <= |Typed(segment)| then |Typed(segment)| - k else 0]
  {
    if segment != [] {
      var b, rest := Last(segment), Init(segment);
      if b == CTRL_C {
        TypedSurvives(rest, k);
      } else if b in BACKSPACES {
        TypedSurvives(rest, k + 1);
      } else {
        TypedSurvives(rest, if k > 0 then k - 1 else 0);
      }
    }
  }

  // Main result: for every byte stream, the dispatched lines are those of the reference
  // reading, and so is the line being typed.
  lemma {:induction false} KeysAreSegments(stream: Bytes)
    ensures Keys(stream) == Session(Lines(Init(Segments(stream))), Survivors(Last(Segments(stream)), 0))
  {
    if stream == [] {
      assert Segments(stream) == [[]];
    } else {
      var b, rest := Last(stream), Init(stream);
      KeysAreSegments(rest);
      var segments, before := Segments(stream), Segments(rest);
      if b in ENTERS {
        assert segments == before + [[]];
        assert Init(segments) == before;
      } else {
        assert Init(segments) == Init(before);
        assert Last(segments) == Last(before) + [b];
        assert Init(Last(segments)) == Last(before);
        LastHasNoSeparator(rest, ENTERS);
        LastHasNoSeparator(stream, ENTERS);
        TypedSurvives(Last(before), 0);
        TypedSurvives(Last(segments), 0);
      }
    }
  }

  function Concat(chunks: seq<Bytes>): Bytes {
    if chunks == [] then [] else Concat(Init(chunks)) + Last(chunks)
  }

  function KeptOf(chunks: seq<Bytes>): Bytes {
    if chunks == [] then [] else KeptOf(Init(chunks)) + Kept(Last(chunks))
  }

  // When Enter only ends chunks, the chunking does not matter.
  lemma {:induction false} ChunkingIndependent(chunks: seq<Bytes>)
    requires forall c, i :: c in chunks && 0 <= i < |c| - 1 ==> c[i] !in ENTERS
    ensures KeptOf(chunks) == Concat(chunks)
    ensures Keys(KeptOf(chunks)).lines == Lines(Init(Segments(Concat(chunks))))
  {
    if chunks != [] {
      ChunkingIndependent(Init(chunks));
      KeptWhole(Last(chunks));
    }
    KeysAreSegments(Concat(chunks));
  }

  // After every chunk, the session is that of the unbroken stream.
  ghost predicate AgreesThroughout(chunks: seq<Bytes>) {
    forall n :: 0 <= n <= |chunks| ==> AgreesAfter(chunks[..n])
  }

  predicate AgreesAfter(chunks: seq<Bytes>) {
    Keys(KeptOf(chunks)) == Keys(Concat(chunks))
  }

  lemma AgreesSplits(chunks: seq<Bytes>)
    requires chunks != []
    ensures AgreesThroughout(chunks) <==> AgreesThroughout(Init(chunks)) && AgreesAfter(chunks)
  {
    assert chunks[..|chunks|] == chunks;
    assert forall n :: 0 <= n < |chunks| ==> Init(chunks)[..n] == chunks[..n];
  }

  ghost predicate AllIdle(chunks: seq<Bytes>) {
    forall i :: 0 <= i < |chunks| ==> Idle(Dropped(chunks[i]))
  }

  lemma IdleSplits(past: seq<Bytes>, chunk: Bytes)
    ensures AllIdle(past + [chunk]) <==> AllIdle(past) && Idle(Dropped(chunk))
  {
    assert forall i :: 0 <= i < |past| ==> past[i] == (past + [chunk])[i];
    assert (past + [chunk])[|past|] == chunk;
  }

  lemma OneMoreChunk(past: seq<Bytes>, chunk: Bytes)
    requires AgreesAfter(past)
    ensures AgreesAfter(past + [chunk]) <==> Idle(Dropped(chunk))
  {
    assert Init(past + [chunk]) == past;
    KeysAgree(KeptOf(past), Concat(past), Kept(chunk));
    DropMattersIff(Concat(past), chunk);
  }

  // Main result, for whole chunkings: the session agrees with that of the unbroken stream
  // after every chunk if and only if every dropped rest is idle.
  lemma {:induction false} ChunkingMattersIff(chunks: seq<Bytes>)
    ensures AgreesThroughout(chunks) <==> AllIdle(chunks)
  {
    if chunks == [] {
      assert AgreesAfter([]) && chunks[..0] == [];
    } else {
      var past, chunk := Init(chunks), Last(chunks);
      assert past + [chunk] == chunks;
      ChunkingMattersIff(past);
      AgreesSplits(chunks);
      IdleSplits(past, chunk);
      if AgreesThroughout(past) {
        assert past[..|past|] == past;
        OneMoreChunk(past, chunk);
      }
    }
  }

  // The second half of a CR LF line end is dropped, and not missed.
  lemma LineEndPairIsIdle(line: Bytes)
    requires NoneOf(line, ENTERS)
    ensures Kept(line + [13, 10]) == line + [13] && Idle(Dropped(line + [13, 10]))
  {
    KeptLine(line, [13, 10]);
    KeptWhole(line + [13, 10]);
    assert line + [13, 10] == (line + [13]) + [10];
    assert Dropped(line + [13, 10]) == [10];
    KeysSnoc([], 10);
    assert [] + [10] == [10];
  }

  lemma {:induction false} KeptLine(line: Bytes, rest: Bytes)
    requires NoneOf(line, ENTERS) && rest != [] && rest[0] in ENTERS
    ensures Kept(line + rest) == line + [rest[0]]
  {
    if line == [] {
      assert line + rest == rest;
    } else {
      assert (line + rest)[1..] == line[1..] + rest;
      KeptLine(line[1..], rest);
    }
  }
}
