// lib/logger.go, CaptureLogs: reads of any size become whole lines.
module LogCapture {
  import opened Prelude
  import opened GoText

  datatype LogMsg = LogMsg(containerId: string, data: Bytes, isHeader: bool, isFooter: bool)

  // One call of Read: the bytes it returned and whether it also returned an error.
  datatype Read = Read(data: Bytes, failed: bool)

  // Everything the loop calls: exactly the last read reports an error.
  predicate ReadsUntilError(calls: seq<Read>) {
    |calls| > 0 && forall i :: 0 <= i < |calls| ==> (calls[i].failed <==> i == |calls| - 1)
  }

  function Stream(calls: seq<Read>): Bytes {
    if calls == [] then [] else Stream(Init(calls)) + Last(calls).data
  }

  function Messages(id: string, lines: seq<Bytes>): seq<LogMsg> {
    if lines == [] then [] else Messages(id, Init(lines)) + [LogMsg(id, TrimCR(Last(lines)), false, false)]
  }

  lemma {:induction false} MessagesAppend(id: string, a: seq<Bytes>, b: seq<Bytes>)
    ensures Messages(id, a + b) == Messages(id, a) + Messages(id, b)
  {
    if b == [] {
      assert a + b == a;
    } else {
      MessagesAppend(id, a, Init(b));
      assert Init(a + b) == a + Init(b);
    }
  }

  lemma {:induction false} MessagesPlain(id: string, lines: seq<Bytes>)
    ensures |Messages(id, lines)| == |lines|
    ensures forall i :: 0 <= i < |lines| ==> Messages(id, lines)[i] == LogMsg(id, TrimCR(lines[i]), false, false)
  {
    if lines != [] { MessagesPlain(id, Init(lines)); }
  }

  // The lines of a whole stream: every newline-terminated piece, and the last piece unless
  // it is blank, each without its trailing carriage returns.
  function LogLines(stream: Bytes): seq<Bytes> {
    var pieces := Split(stream, {LF});
    if IsBlank(Last(pieces)) then Init(pieces) else pieces
  }

  function Marker(id: string, batch: bool, header: bool): seq<LogMsg> {
    if batch then [LogMsg(id, [], header, !header)] else []
  }

  function Capture(id: string, batch: bool, stream: Bytes): seq<LogMsg> {
    Marker(id, batch, true) + Messages(id, LogLines(stream)) + Marker(id, batch, false)
  }

  // What the stream so far has sent and what it carries over.
  function Sent(id: string, stream: Bytes): seq<LogMsg> {
    Messages(id, Init(Split(stream, {LF})))
  }

  function Carried(stream: Bytes): Bytes {
    Last(Split(stream, {LF}))
  }

  // One more read sends the complete lines of the carried piece and the new bytes.
  lemma ReadMore(id: string, before: Bytes, data: Bytes)
    ensures Sent(id, before + data) == Sent(id, before) + Sent(id, Carried(before) + data)
    ensures Carried(before + data) == Carried(Carried(before) + data)
  {
    SplitAppend(before, data, {LF});
    var head, lines := Init(Split(before, {LF})), Split(Carried(before) + data, {LF});
    assert Init(head + lines) == head + Init(lines);
    MessagesAppend(id, head, Init(lines));
  }

  lemma StreamStep(calls: seq<Read>, k: nat)
    requires k < |calls|
    ensures Stream(calls[..k + 1]) == Stream(calls[..k]) + calls[k].data
  {
    assert Init(calls[..k + 1]) == calls[..k];
  }

  lemma Assoc<T>(a: seq<T>, b: seq<T>, c: seq<T>)
    ensures (a + b) + c == a + (b + c)
  {
  }

  // The inner loop: all but the last piece of a chunk.
  method SendLines(id: string, lines: seq<Bytes>) returns (sent: seq<LogMsg>)
    requires |lines| > 0
    ensures sent == Messages(id, Init(lines))
  {
    sent := [];
    for i := 0 to |lines| - 1
      invariant sent == Messages(id, lines[..i])
    {
      sent := sent + [LogMsg(id, TrimCR(lines[i]), false, false)];
      assert Init(lines[..i + 1]) == lines[..i];
    }
  }

  // The log so far, after a header if there is one.
  function SoFar(id: string, batch: bool, stream: Bytes): seq<LogMsg> {
    Marker(id, batch, true) + Sent(id, stream)
  }

  lemma SoFarMore(id: string, batch: bool, stream: Bytes, data: Bytes)
    ensures SoFar(id, batch, stream + data) == SoFar(id, batch, stream) + Sent(id, Carried(stream) + data)
    ensures Carried(stream + data) == Carried(Carried(stream) + data)
    ensures data == [] ==> stream + data == stream
  {
    ReadMore(id, stream, data);
    Assoc(Marker(id, batch, true), Sent(id, stream), Sent(id, Carried(stream) + data));
  }

  // Main result: what is sent depends on the concatenated stream alone, not on where the
  // reads cut it.
  method CaptureLogs(id: string, batch: bool, calls: seq<Read>) returns (sent: seq<LogMsg>)
    requires ReadsUntilError(calls)
    ensures sent == Capture(id, batch, Stream(calls))
  {
    sent := if batch then [LogMsg(id, [], true, false)] else [];
    ghost var stream: Bytes := [];
    var remainder: Bytes := [];
    var k := 0;
    var failed := false;
    while !failed
      invariant k <= |calls| && (failed <==> k == |calls|)
      invariant stream == Stream(calls[..k])
      invariant sent == SoFar(id, batch, stream) && remainder == Carried(stream)
      decreases |calls| - k
    {
      var r := calls[k];
      StreamStep(calls, k);
      SoFarMore(id, batch, stream, r.data);
      if |r.data| > 0 {
        var lines := Split(remainder + r.data, {LF});
        var more := SendLines(id, lines);
        sent := sent + more;
        remainder := lines[|lines| - 1];
      }
      stream := stream + r.data;
      k := k + 1;
      failed := r.failed;
    }
    assert calls[..k] == calls;
    CaptureParts(id, batch, stream);
    sent := sent + (if !IsBlank(remainder) then [LogMsg(id, TrimCR(remainder), false, false)] else []);
    sent := sent + (if batch then [LogMsg(id, [], false, true)] else []);
  }

  lemma CaptureParts(id: string, batch: bool, stream: Bytes)
    ensures Capture(id, batch, stream)
         == Marker(id, batch, true) + Sent(id, stream)
          + (if IsBlank(Carried(stream)) then [] else [LogMsg(id, TrimCR(Carried(stream)), false, false)])
          + Marker(id, batch, false)
  {
    var pieces := Split(stream, {LF});
    assert pieces != [];
  }

  // A batch sends exactly one header, first, and one footer, last; nothing else sends either.
  lemma MarkersBracket(id: string, batch: bool, stream: Bytes)
    ensures var body := Messages(id, LogLines(stream));
      && (forall i :: 0 <= i < |body| ==> !body[i].isHeader && !body[i].isFooter)
      && Capture(id, batch, stream)
         == if batch then [LogMsg(id, [], true, false)] + body + [LogMsg(id, [], false, true)] else body
  {
    MessagesPlain(id, LogLines(stream));
  }

  // No newline is lost or invented: the lines before trimming, with the piece left over,
  // join back to the stream.
  lemma LinesJoinBack(stream: Bytes)
    ensures var pieces := Split(stream, {LF});
      && Join(pieces, LF) == stream && SeparatorFree(pieces, LF)
      && (LogLines(stream) == pieces || LogLines(stream) == Init(pieces))
    ensures forall pieces | |pieces| > 0 && SeparatorFree(pieces, LF) && Join(pieces, LF) == stream ::
      pieces == Split(stream, {LF})
  {
    JoinSplit(stream, LF);
    forall pieces | |pieces| > 0 && SeparatorFree(pieces, LF) && Join(pieces, LF) == stream
      ensures pieces == Split(stream, {LF})
    {
      SplitJoin(pieces, LF);
    }
  }

  // A sent line: its piece less a run of carriage returns at the end, with none left there and
  // no line feed in it.
  predicate IsLineOf(m: LogMsg, id: string, piece: Bytes) {
    && m.containerId == id && !m.isHeader && !m.isFooter
    && m.data <= piece
    && (m.data != [] ==> m.data[|m.data| - 1] != 13)
    && (forall i :: |m.data| <= i < |piece| ==> piece[i] == 13)
    && 10 !in m.data
  }

  lemma PieceIsSent(id: string, piece: Bytes)
    requires NoneOf(piece, {LF})
    ensures IsLineOf(LogMsg(id, TrimCR(piece), false, false), id, piece)
  {
    TrimCRLeaves(piece);
  }

  lemma MessagesSent(id: string, lines: seq<Bytes>)
    requires SeparatorFree(lines, LF)
    ensures var sent := Messages(id, lines);
      |sent| == |lines| && forall k :: 0 <= k < |lines| ==> IsLineOf(sent[k], id, lines[k])
  {
    MessagesPlain(id, lines);
    forall k | 0 <= k < |lines| ensures IsLineOf(Messages(id, lines)[k], id, lines[k]) {
      PieceIsSent(id, lines[k]);
    }
  }

  lemma LinesAre(stream: Bytes)
    ensures SeparatorFree(LogLines(stream), LF)
    ensures var pieces := Split(stream, {10});
      LogLines(stream) == if IsSpaces(Last(pieces)) then Init(pieces) else pieces
  {
    BlankIff(Last(Split(stream, {LF})));
    JoinSplit(stream, LF);
  }

  lemma BetweenMarkers(id: string, batch: bool, stream: Bytes)
    ensures var sent, body, first := Capture(id, batch, stream), Messages(id, LogLines(stream)), if batch then 1 else 0;
      |sent| == |body| + 2 * first && forall k :: 0 <= k < |body| ==> sent[first + k] == body[k]
  {
  }

  // Main result: what is sent between the markers are the pieces between line feeds, each
  // without its trailing carriage returns; the last is withheld exactly when it is all white
  // space.
  lemma SentLines(id: string, batch: bool, stream: Bytes)
    ensures var pieces := Split(stream, {10});
      LogLines(stream) == if IsSpaces(Last(pieces)) then Init(pieces) else pieces
    ensures var lines, sent, first := LogLines(stream), Capture(id, batch, stream), if batch then 1 else 0;
      && |sent| == |lines| + 2 * first
      && forall k :: 0 <= k < |lines| ==> IsLineOf(sent[first + k], id, lines[k])
  {
    LinesAre(stream);
    MessagesSent(id, LogLines(stream));
    BetweenMarkers(id, batch, stream);
  }
}
