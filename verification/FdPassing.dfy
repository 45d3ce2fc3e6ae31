// lib/fds_setup.go: namespace descriptors travel between init and the supervisor as one
// in-band header (a count byte and one type byte each) plus an SCM_RIGHTS descriptor list.
module FdPassing {
  import opened Prelude
  import opened Namespaces

  datatype FdMessage = FdMessage(payload: seq<Byte>, fds: seq<int>)

  datatype RecvError = Eof | NoDescriptors | CountMismatch

  // CmsgSpace(8*8): 64 bytes of ancillary payload hold 16 four-byte descriptors.
  const OOB_FDS: nat := 16

  // The kernel's limit on descriptors in one SCM_RIGHTS message (unix(7)).
  const SCM_MAX_FD: nat := 253

  function Code(ns: NamespaceType): Byte {
    match ns
    case NSUser => 0
    case NSNet => 1
    case NSMnt => 2
    case NSPID => 3
    case NSIPC => 4
    case NSUTS => 5
    case NSCgroup => 6
  }

  function Codes(types: seq<NamespaceType>): seq<Byte> {
    seq(|types|, i requires 0 <= i < |types| => Code(types[i]))
  }

  // A receive into a zeroed buffer of the given size.
  function ReadInto(payload: seq<Byte>, size: nat): (buf: seq<Byte>)
    ensures |buf| == size
  {
    seq(size, i requires 0 <= i < size => if i < |payload| then payload[i] else 0)
  }

  // The map a receive loop builds: a repeated type keeps its last descriptor.
  function LastWins(codes: seq<Byte>, fds: seq<int>): map<Byte, int>
    requires |codes| == |fds|
  {
    if codes == [] then map[]
    else LastWins(codes[..|codes| - 1], fds[..|fds| - 1])[codes[|codes| - 1] := fds[|fds| - 1]]
  }

  lemma {:induction false} LastWinsAt(codes: seq<Byte>, fds: seq<int>, code: Byte)
    requires |codes| == |fds|
    ensures code in LastWins(codes, fds) <==> code in codes
    ensures code in codes ==>
      exists i :: 0 <= i < |codes| && codes[i] == code && code !in codes[i + 1..]
               && LastWins(codes, fds)[code] == fds[i]
  {
    if codes == [] {
    } else {
      var n := |codes| - 1;
      LastWinsAt(codes[..n], fds[..n], code);
      assert codes == codes[..n] + [codes[n]];
      if codes[n] == code {
        assert code !in codes[n + 1..];
      } else if code in codes {
        var i :| 0 <= i < n && codes[..n][i] == code && code !in codes[..n][i + 1..]
              && LastWins(codes[..n], fds[..n])[code] == fds[..n][i];
        assert codes[i + 1..] == codes[..n][i + 1..] + [codes[n]];
        assert codes[i] == code;
      }
    }
  }

  // One requested type after a receive loop: the last descriptor sent under it.
  lemma DecodedLast(types: seq<NamespaceType>, fds: seq<int>, ns: NamespaceType) returns (i: nat)
    requires |types| == |fds| && ns in types
    ensures i < |types| && types[i] == ns && ns !in types[i + 1..]
    ensures Code(ns) in LastWins(Codes(types), fds) && LastWins(Codes(types), fds)[Code(ns)] == fds[i]
  {
    var codes := Codes(types);
    var k :| 0 <= k < |types| && types[k] == ns;
    assert codes[k] == Code(ns);
    LastWinsAt(codes, fds, Code(ns));
    i :| 0 <= i < |codes| && codes[i] == Code(ns) && Code(ns) !in codes[i + 1..]
      && LastWins(codes, fds)[Code(ns)] == fds[i];
    forall j | i < j < |types| ensures types[j] != ns {
      assert codes[i + 1..][j - i - 1] == codes[j];
    }
  }

  lemma DecodedKeys(types: seq<NamespaceType>, fds: seq<int>)
    requires |types| == |fds|
    ensures LastWins(Codes(types), fds).Keys == set ns | ns in types :: Code(ns)
  {
    forall code: Byte ensures code in LastWins(Codes(types), fds) <==> code in Codes(types) {
      LastWinsAt(Codes(types), fds, code);
    }
    forall ns | ns in types ensures Code(ns) in Codes(types) {
      var k :| 0 <= k < |types| && types[k] == ns;
      assert Codes(types)[k] == Code(ns);
    }
  }

  // A header that fits the buffer is read back whole.
  lemma HeaderRead(types: seq<NamespaceType>, size: nat)
    requires |types| < size && |types| < 256
    ensures ReadInto(Header(types), size)[0] == |types|
    ensures ReadInto(Header(types), size)[1..1 + |types|] == Codes(types)
  {
  }

  function Header(types: seq<NamespaceType>): seq<Byte>
    requires |types| < 256
  {
    [|types| as Byte] + Codes(types)
  }

  // The kernel renames descriptors: `received` names the same open files as `sent`.
  ghost predicate Renamed<F>(sent: seq<int>, sentFile: int -> F, received: seq<int>, receivedFile: int -> F) {
    |sent| == |received| && forall i :: 0 <= i < |sent| ==> receivedFile(received[i]) == sentFile(sent[i])
  }

  // ---- init to supervisor: created namespaces ----------------------------

  ghost predicate IsOrdering(order: seq<NamespaceType>, keys: set<NamespaceType>) {
    && (forall i, j :: 0 <= i < j < |order| ==> order[i] != order[j])
    && keys == set ns | ns in order
  }

  lemma {:induction false} OrderingSize(order: seq<NamespaceType>, keys: set<NamespaceType>)
    requires IsOrdering(order, keys)
    ensures |order| == |keys| <= 7
  {
    AtMostSeven(keys);
    if order == [] {
    } else {
      var n := |order| - 1;
      assert order == order[..n] + [order[n]];
      assert keys - {order[n]} == set ns | ns in order[..n];
      OrderingSize(order[..n], keys - {order[n]});
    }
  }

  lemma OrderingExtend(order: seq<NamespaceType>, keys: set<NamespaceType>, ns: NamespaceType)
    requires IsOrdering(order, keys) && ns !in keys
    ensures IsOrdering(order + [ns], keys + {ns})
  {
  }

  ghost predicate IsCreatedMessage(msg: FdMessage, order: seq<NamespaceType>, fds: map<NamespaceType, int>) {
    && IsOrdering(order, fds.Keys)
    && |order| < 256
    && msg.payload == Header(order)
    && |msg.fds| == |order|
    && forall i :: 0 <= i < |order| ==> msg.fds[i] == fds[order[i]]
  }

  // A send loop part way: `order` lists what has been written, `rest` what has not.
  ghost predicate Written(
      buf: seq<Byte>, oobfds: seq<int>, order: seq<NamespaceType>, rest: set<NamespaceType>, fds: map<NamespaceType, int>)
  {
    && rest <= fds.Keys
    && IsOrdering(order, fds.Keys - rest)
    && |order| == |oobfds| < |buf|
    && (forall k :: 0 <= k < |order| ==> buf[1 + k] == Code(order[k]))
    && (forall k :: 0 <= k < |order| ==> order[k] in fds && oobfds[k] == fds[order[k]])
  }

  lemma WriteOne(
      buf: seq<Byte>, oobfds: seq<int>, order: seq<NamespaceType>, rest: set<NamespaceType>, fds: map<NamespaceType, int>,
      ns: NamespaceType)
    requires Written(buf, oobfds, order, rest, fds) && ns in rest && |order| + 1 < |buf|
    ensures Written(buf[1 + |order| := Code(ns)], oobfds + [fds[ns]], order + [ns], rest - {ns}, fds)
  {
    OrderingExtend(order, fds.Keys - rest, ns);
    assert fds.Keys - (rest - {ns}) == (fds.Keys - rest) + {ns};
  }

  lemma HeaderWritten(buf: seq<Byte>, order: seq<NamespaceType>)
    requires |order| < 256 && |buf| == 1 + |order| && buf[0] == |order|
    requires forall k :: 0 <= k < |order| ==> buf[1 + k] == Code(order[k])
    ensures buf == Header(order)
  {
  }

  lemma WrittenAll(buf: seq<Byte>, oobfds: seq<int>, order: seq<NamespaceType>, fds: map<NamespaceType, int>)
    requires Written(buf, oobfds, order, {}, fds) && |buf| == 1 + |fds| && buf[0] == |fds|
    ensures IsCreatedMessage(FdMessage(buf, oobfds), order, fds)
  {
    assert fds.Keys - {} == fds.Keys;
    OrderingSize(order, fds.Keys);
    HeaderWritten(buf, order);
  }

  // lib/fds_setup.go, SendCreatedNamespaceFDs: map iteration in any order.
  method SendCreatedNamespaceFDs(fds: map<NamespaceType, int>) returns (msg: FdMessage)
    ensures exists order :: IsCreatedMessage(msg, order, fds)
  {
    AtMostSeven(fds.Keys);
    var count := |fds|;
    var buf := new Byte[1 + count](_ => 0);
    buf[0] := count;
    var oobfds: seq<int> := [];
    var rest := fds.Keys;
    ghost var order: seq<NamespaceType> := [];
    var i := 0;
    while rest != {}
      invariant i == |order| && |rest| + i == count && buf[0] == count
      invariant Written(buf[..], oobfds, order, rest, fds)
      decreases rest
    {
      var ns :| ns in rest;
      WriteOne(buf[..], oobfds, order, rest, fds, ns);
      ghost var before := buf[..];
      buf[1 + i] := Code(ns);
      assert buf[..] == before[1 + i := Code(ns)];
      oobfds := oobfds + [fds[ns]];
      order := order + [ns];
      rest := rest - {ns};
      i := i + 1;
    }
    WrittenAll(buf[..], oobfds, order, fds);
    msg := FdMessage(buf[..], oobfds);
  }

  function DecodeCreated(payload: seq<Byte>, fds: seq<int>): Result<map<Byte, int>, RecvError> {
    var buf := ReadInto(payload, 256);
    if |payload| == 0 then Err(Eof)
    else if buf[0] == 0 then Ok(map[])
    else if |fds| == 0 then Err(NoDescriptors)
    else if |fds| != buf[0] then Err(CountMismatch)
    else Ok(LastWins(buf[1..1 + buf[0]], fds))
  }

  // lib/fds_setup.go, RecvCreatedNamespaceFDs.
  method RecvCreatedNamespaceFDs(payload: seq<Byte>, fds: seq<int>) returns (r: Result<map<Byte, int>, RecvError>)
    ensures r == DecodeCreated(payload, fds)
  {
    if |payload| == 0 {
      return Err(Eof);
    }
    var buf := ReadInto(payload, 256);
    var count := buf[0];
    if count == 0 {
      return Ok(map[]);
    }
    if |fds| == 0 {
      return Err(NoDescriptors);
    }
    if |fds| != count {
      return Err(CountMismatch);
    }
    var out := map[];
    for i := 0 to count
      invariant out == LastWins(buf[1..1 + i], fds[..i])
    {
      out := out[buf[1 + i] := fds[i]];
      assert buf[1..1 + i + 1][..i] == buf[1..1 + i];
      assert fds[..i + 1][..i] == fds[..i];
    }
    assert fds[..count] == fds;
    r := Ok(out);
  }

  // A header is accepted exactly when it counts nothing or counts the descriptors received.
  lemma CreatedAcceptedIff(payload: seq<Byte>, fds: seq<int>)
    ensures DecodeCreated(payload, fds).Ok? <==> |payload| > 0 && (payload[0] == 0 || payload[0] == |fds|)
  {
    if |payload| > 0 {
      assert ReadInto(payload, 256)[0] == payload[0];
    }
  }

  // And each rejection has its own error.
  lemma CreatedErrors(payload: seq<Byte>, fds: seq<int>)
    ensures DecodeCreated(payload, fds) == Err(Eof) <==> payload == []
    ensures DecodeCreated(payload, fds) == Err(NoDescriptors) <==> payload != [] && payload[0] != 0 && fds == []
    ensures DecodeCreated(payload, fds) == Err(CountMismatch) <==>
      payload != [] && payload[0] != 0 && fds != [] && |fds| != payload[0]
  {
    if payload != [] {
      assert ReadInto(payload, 256)[0] == payload[0];
    }
  }

  // Receive after send: the same namespaces, each naming the same file.
  lemma CreatedRoundTrip<F>(
      fds: map<NamespaceType, int>, msg: FdMessage, received: seq<int>, sentFile: int -> F, receivedFile: int -> F)
    requires exists order :: IsCreatedMessage(msg, order, fds)
    requires Renamed(msg.fds, sentFile, received, receivedFile)
    ensures DecodeCreated(msg.payload, received).Ok?
    ensures var out := DecodeCreated(msg.payload, received).value;
      && out.Keys == (set ns | ns in fds :: Code(ns))
      && forall ns :: ns in fds ==> receivedFile(out[Code(ns)]) == sentFile(fds[ns])
  {
    var order :| IsCreatedMessage(msg, order, fds);
    OrderingSize(order, fds.Keys);
    HeaderRead(order, 256);
    DecodedKeys(order, received);
    assert (set ns | ns in order :: Code(ns)) == (set ns | ns in fds :: Code(ns));
    if order == [] {
      assert DecodeCreated(msg.payload, received) == Ok(map[]);
    } else {
      assert DecodeCreated(msg.payload, received) == Ok(LastWins(Codes(order), received));
      forall ns | ns in fds
        ensures receivedFile(LastWins(Codes(order), received)[Code(ns)]) == sentFile(fds[ns])
      {
        var i := DecodedLast(order, received, ns);
      }
    }
  }

  // ---- supervisor to joining init: shared namespaces ----------------------

  function SharesMessage(types: seq<NamespaceType>, fds: seq<int>): FdMessage
    requires |types| < 256
  {
    FdMessage(Header(types), fds)
  }

  // What the 16-descriptor ancillary buffer keeps.
  function Truncate(fds: seq<int>): seq<int> {
    fds[..Min(|fds|, OOB_FDS)]
  }

  // None is the receiver's panic: no control message, a header longer than the buffer,
  // or a descriptor count that disagrees with the header.
  function DecodeShares(payload: seq<Byte>, fds: seq<int>): Option<map<Byte, int>> {
    var buf := ReadInto(payload, 32);
    if buf[0] > 31 || |fds| == 0 || |fds| != buf[0] then None
    else Some(LastWins(buf[1..1 + buf[0]], fds))
  }

  // lib/fds_setup.go, RecvNamespaceFDs.
  method RecvNamespaceFDs(payload: seq<Byte>, fds: seq<int>) returns (r: Option<map<Byte, int>>)
    ensures r == DecodeShares(payload, fds)
  {
    var buf := ReadInto(payload, 32);
    var count := buf[0];
    if count > 31 {
      return None;
    }
    var types := buf[1..1 + count];
    if |fds| == 0 {
      return None;
    }
    if |fds| != count {
      return None;
    }
    var out := map[];
    for i := 0 to count
      invariant out == LastWins(types[..i], fds[..i])
    {
      out := out[types[i] := fds[i]];
      assert types[..i + 1][..i] == types[..i];
      assert fds[..i + 1][..i] == fds[..i];
    }
    assert types[..count] == types && fds[..count] == fds;
    r := Some(out);
  }

  // The receiver goes on exactly with a header that counts the descriptors it got, and at
  // most 31 of them.
  lemma SharesAcceptedIff(payload: seq<Byte>, fds: seq<int>)
    ensures DecodeShares(payload, fds).Some? <==> payload != [] && 0 < |fds| <= 31 && payload[0] == |fds|
  {
    assert payload != [] ==> ReadInto(payload, 32)[0] == payload[0];
    assert payload == [] ==> ReadInto(payload, 32)[0] == 0;
  }

  // Which share messages are accepted, and the namespace types an accepted one yields.
  lemma SharesDecode(types: seq<NamespaceType>, received: seq<int>)
    requires 0 < |types| <= SCM_MAX_FD && |received| == Min(|types|, OOB_FDS)
    ensures DecodeShares(Header(types), received).Some? <==> |types| <= OOB_FDS
    ensures |types| <= OOB_FDS ==> DecodeShares(Header(types), received) == Some(LastWins(Codes(types), received))
    ensures |types| <= OOB_FDS ==> forall ns :: Code(ns) in LastWins(Codes(types), received) <==> ns in types
  {
    if |types| <= OOB_FDS {
      HeaderRead(types, 32);
      DecodedKeys(types, received);
      forall ns | Code(ns) in LastWins(Codes(types), received) ensures ns in types {
        var t :| t in types && Code(t) == Code(ns);
        assert t == ns;
      }
      forall ns | ns in types ensures Code(ns) in LastWins(Codes(types), received) {
        var i := DecodedLast(types, received, ns);
      }
    } else {
      assert ReadInto(Header(types), 32)[0] == |types|;
    }
  }

  // A share list of 1 to 16 entries arrives as its last-wins map, every entry naming the
  // file that was sent; a longer one that the kernel still carries makes the receiver panic.
  lemma SharesRoundTrip<F>(
      types: seq<NamespaceType>, fds: seq<int>, received: seq<int>, sentFile: int -> F, receivedFile: int -> F)
    requires 0 < |types| == |fds| <= SCM_MAX_FD
    requires Renamed(Truncate(fds), sentFile, received, receivedFile)
    ensures DecodeShares(SharesMessage(types, fds).payload, received).Some? <==> |types| <= OOB_FDS
    ensures |types| <= OOB_FDS ==>
      var out := DecodeShares(SharesMessage(types, fds).payload, received).value;
      forall ns ::
        && (Code(ns) in out <==> ns in types)
        && (ns in types ==>
             exists i :: 0 <= i < |types| && types[i] == ns && ns !in types[i + 1..]
                      && receivedFile(out[Code(ns)]) == sentFile(fds[i]))
  {
    SharesDecode(types, received);
    if |types| <= OOB_FDS {
      forall ns | ns in types
        ensures exists i :: 0 <= i < |types| && types[i] == ns && ns !in types[i + 1..]
                         && receivedFile(LastWins(Codes(types), received)[Code(ns)]) == sentFile(fds[i])
      {
        var i := DecodedLast(types, received, ns);
      }
    }
  }
}
