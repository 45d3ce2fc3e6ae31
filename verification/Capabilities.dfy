// lib/caps.go: capability masks.  A capability is its number, 0 to 63.  A machine word is
// modelled as its bits, least significant first, and Go's bitwise operators act on each.
module Capabilities {
  import opened Prelude

  type Cap = c: nat | c < 64

  type Word = seq<bool>

  type Word64 = w: Word | |w| == 64 witness Zero(64)

  type Word32 = w: Word | |w| == 32 witness Zero(32)

  function Zero(width: nat): Word {
    seq(width, _ => false)
  }

  // 1 << shift
  function OneBit(width: nat, shift: nat): Word {
    seq(width, i => i == shift)
  }

  function And(a: Word, b: Word): Word
    requires |a| == |b|
  {
    seq(|a|, i requires 0 <= i < |a| => a[i] && b[i])
  }

  function Or(a: Word, b: Word): Word
    requires |a| == |b|
  {
    seq(|a|, i requires 0 <= i < |a| => a[i] || b[i])
  }

  // a &^ b
  function AndNot(a: Word, b: Word): Word
    requires |a| == |b|
  {
    seq(|a|, i requires 0 <= i < |a| => a[i] && !b[i])
  }

  function Xor(a: Word, b: Word): Word
    requires |a| == |b|
  {
    seq(|a|, i requires 0 <= i < |a| => a[i] != b[i])
  }

  // The source's bit test, mask & (1 << c) != 0.
  predicate Test(w: Word, c: nat) {
    And(w, OneBit(|w|, c)) != Zero(|w|)
  }

  lemma TestIsBit(w: Word, c: nat)
    requires c < |w|
    ensures Test(w, c) <==> w[c]
  {
    var masked := And(w, OneBit(|w|, c));
    if w[c] {
      assert masked[c] != Zero(|w|)[c];
    } else {
      assert masked == Zero(|w|);
    }
  }

  lemma XorZero(a: Word, b: Word)
    requires |a| == |b|
    ensures Xor(a, b) == Zero(|a|) <==> a == b
  {
    if Xor(a, b) == Zero(|a|) {
      forall i | 0 <= i < |a| ensures a[i] == b[i] {
        assert Xor(a, b)[i] == Zero(|a|)[i];
      }
    }
  }

  // ---- the difference between two capability states -----------------------------

  datatype CapSet = CapBounding | CapPermitted | CapEffective | CapInheritable | CapAmbient

  datatype CapState =
    CapState(bounding: Word64, permitted: Word64, effective: Word64, inheritable: Word64, ambient: Word64)

  datatype CapDiff = CapDiff(kind: CapSet, cap: Cap, before: bool, after: bool)

  const CAP_SETS: seq<CapSet> := [CapBounding, CapPermitted, CapEffective, CapInheritable, CapAmbient]

  function Index(kind: CapSet): nat {
    match kind
    case CapBounding => 0
    case CapPermitted => 1
    case CapEffective => 2
    case CapInheritable => 3
    case CapAmbient => 4
  }

  function Mask(s: CapState, kind: CapSet): Word64 {
    match kind
    case CapBounding => s.bounding
    case CapPermitted => s.permitted
    case CapEffective => s.effective
    case CapInheritable => s.inheritable
    case CapAmbient => s.ambient
  }

  function WithMask(s: CapState, kind: CapSet, mask: Word64): CapState {
    match kind
    case CapBounding => s.(bounding := mask)
    case CapPermitted => s.(permitted := mask)
    case CapEffective => s.(effective := mask)
    case CapInheritable => s.(inheritable := mask)
    case CapAmbient => s.(ambient := mask)
  }

  // The entry says truthfully that this bit of this set changed.
  predicate Describes(d: CapDiff, before: CapState, after: CapState) {
    && d.before == Mask(before, d.kind)[d.cap]
    && d.after == Mask(after, d.kind)[d.cap]
    && d.before != d.after
  }

  // A reported position: the set's place in the scan, then the bit.
  function Position(d: CapDiff): nat {
    64 * Index(d.kind) + d.cap
  }

  predicate Sorted(diffs: seq<CapDiff>) {
    forall i, j :: 0 <= i < j < |diffs| ==> Position(diffs[i]) < Position(diffs[j])
  }

  // The scan of DiffCaps has reported everything before position p.
  ghost predicate DiffsUpTo(diffs: seq<CapDiff>, before: CapState, after: CapState, p: nat) {
    && Sorted(diffs)
    && forall d :: d in diffs <==> Describes(d, before, after) && Position(d) < p
  }

  lemma PositionUnique(d: CapDiff, e: CapDiff)
    ensures Position(d) == Position(e) <==> d.kind == e.kind && d.cap == e.cap
  {
  }

  function Entry(before: CapState, after: CapState, kind: CapSet, c: Cap): CapDiff {
    CapDiff(kind, c, Mask(before, kind)[c], Mask(after, kind)[c])
  }

  lemma DiffNext(diffs: seq<CapDiff>, before: CapState, after: CapState, kind: CapSet, c: Cap)
    requires DiffsUpTo(diffs, before, after, 64 * Index(kind) + c)
    ensures var d := Entry(before, after, kind, c);
      DiffsUpTo(if d.before != d.after then diffs + [d] else diffs, before, after, 64 * Index(kind) + c + 1)
  {
    var d := Entry(before, after, kind, c);
    var more := if d.before != d.after then diffs + [d] else diffs;
    forall e ensures e in more <==> Describes(e, before, after) && Position(e) < 64 * Index(kind) + c + 1 {
      PositionUnique(d, e);
    }
    forall i, j | 0 <= i < j < |more| ensures Position(more[i]) < Position(more[j]) {
      if j == |diffs| { assert diffs[i] in diffs; }
    }
  }

  // A set whose masks agree has nothing to report.
  lemma DiffSetSame(diffs: seq<CapDiff>, before: CapState, after: CapState, kind: CapSet)
    requires DiffsUpTo(diffs, before, after, 64 * Index(kind)) && Mask(before, kind) == Mask(after, kind)
    ensures DiffsUpTo(diffs, before, after, 64 * (Index(kind) + 1))
  {
    forall d | Describes(d, before, after) && Position(d) < 64 * (Index(kind) + 1)
      ensures Position(d) < 64 * Index(kind)
    {
      assert Index(d.kind) == Index(kind) ==> d.kind == kind;
    }
  }

  method DiffCaps(before: CapState, after: CapState) returns (diffs: seq<CapDiff>)
    ensures Sorted(diffs)
    ensures forall d :: d in diffs <==> Describes(d, before, after)
  {
    diffs := [];
    for k := 0 to |CAP_SETS|
      invariant DiffsUpTo(diffs, before, after, 64 * k)
    {
      var kind := CAP_SETS[k];
      assert Index(kind) == k;
      var b, a := Mask(before, kind), Mask(after, kind);
      var changed := Xor(b, a);
      XorZero(b, a);
      if changed == Zero(64) {
        DiffSetSame(diffs, before, after, kind);
        continue;
      }
      for c := 0 to 64
        invariant DiffsUpTo(diffs, before, after, 64 * k + c)
      {
        DiffNext(diffs, before, after, kind, c);
        TestIsBit(changed, c);
        if !Test(changed, c) {
          continue;
        }
        TestIsBit(b, c);
        TestIsBit(a, c);
        diffs := diffs + [CapDiff(kind, c, Test(b, c), Test(a, c))];
      }
    }
  }

  // Sorted entries are unique: no two are about the same bit of the same set.
  lemma SortedUnique(diffs: seq<CapDiff>, i: nat, j: nat)
    requires Sorted(diffs) && i < j < |diffs|
    ensures diffs[i].kind != diffs[j].kind || diffs[i].cap != diffs[j].cap
  {
    assert Position(diffs[i]) < Position(diffs[j]);
  }

  // ---- a difference is a faithful patch -------------------------------------------

  function Patch(s: CapState, d: CapDiff): CapState {
    WithMask(s, d.kind, Mask(s, d.kind)[d.cap := d.after])
  }

  function PatchAll(s: CapState, diffs: seq<CapDiff>): CapState {
    if diffs == [] then s else Patch(PatchAll(s, diffs[..|diffs| - 1]), diffs[|diffs| - 1])
  }

  predicate Touches(diffs: seq<CapDiff>, kind: CapSet, c: Cap) {
    exists d :: d in diffs && d.kind == kind && d.cap == c
  }

  lemma PatchBit(s: CapState, d: CapDiff, kind: CapSet, c: Cap)
    ensures Mask(Patch(s, d), kind)[c] == if kind == d.kind && c == d.cap then d.after else Mask(s, kind)[c]
  {
  }

  lemma {:induction false} PatchAllBit(s: CapState, diffs: seq<CapDiff>, after: CapState, kind: CapSet, c: Cap)
    requires forall d :: d in diffs ==> d.after == Mask(after, d.kind)[d.cap]
    ensures Mask(PatchAll(s, diffs), kind)[c]
         == if Touches(diffs, kind, c) then Mask(after, kind)[c] else Mask(s, kind)[c]
  {
    if diffs != [] {
      var n := |diffs| - 1;
      var rest, last := diffs[..n], diffs[n];
      assert diffs == rest + [last];
      PatchAllBit(s, rest, after, kind, c);
      PatchBit(PatchAll(s, rest), last, kind, c);
      assert Touches(diffs, kind, c) <==> Touches(rest, kind, c) || (last.kind == kind && last.cap == c);
    }
  }

  // Main result: the entries DiffCaps reports, applied to the state before, give the state
  // after, in all five masks.
  lemma DiffIsPatch(before: CapState, after: CapState, diffs: seq<CapDiff>)
    requires forall d :: d in diffs <==> Describes(d, before, after)
    ensures PatchAll(before, diffs) == after
  {
    var patched := PatchAll(before, diffs);
    forall kind: CapSet ensures Mask(patched, kind) == Mask(after, kind) {
      forall c | 0 <= c < 64 ensures Mask(patched, kind)[c] == Mask(after, kind)[c] {
        PatchAllBit(before, diffs, after, kind, c);
        var d := Entry(before, after, kind, c);
        assert d.before != d.after ==> d in diffs;
      }
    }
    assert Mask(patched, CapBounding) == Mask(after, CapBounding);
    assert Mask(patched, CapPermitted) == Mask(after, CapPermitted);
    assert Mask(patched, CapEffective) == Mask(after, CapEffective);
    assert Mask(patched, CapInheritable) == Mask(after, CapInheritable);
    assert Mask(patched, CapAmbient) == Mask(after, CapAmbient);
  }

  // ---- LogCapDelta's two groups -------------------------------------------------------

  // The capabilities of one set that were raised (or dropped), in the order reported.
  function Group(diffs: seq<CapDiff>, kind: CapSet, raised: bool): seq<Cap> {
    if diffs == [] then []
    else
      var d, rest := diffs[|diffs| - 1], Group(diffs[..|diffs| - 1], kind, raised);
      if d.kind == kind && d.before != d.after && d.after == raised then rest + [d.cap] else rest
  }

  function At(groups: map<CapSet, seq<Cap>>, kind: CapSet): seq<Cap> {
    if kind in groups then groups[kind] else []
  }

  method LogCapDelta(diffs: seq<CapDiff>) returns (raised: map<CapSet, seq<Cap>>, dropped: map<CapSet, seq<Cap>>)
    ensures forall kind: CapSet :: At(raised, kind) == Group(diffs, kind, true)
    ensures forall kind: CapSet :: At(dropped, kind) == Group(diffs, kind, false)
  {
    raised, dropped := map[], map[];
    for i := 0 to |diffs|
      invariant forall kind: CapSet :: At(raised, kind) == Group(diffs[..i], kind, true)
      invariant forall kind: CapSet :: At(dropped, kind) == Group(diffs[..i], kind, false)
    {
      var d := diffs[i];
      assert diffs[..i + 1][..i] == diffs[..i];
      if !d.before && d.after {
        raised := raised[d.kind := At(raised, d.kind) + [d.cap]];
      }
      if d.before && !d.after {
        dropped := dropped[d.kind := At(dropped, d.kind) + [d.cap]];
      }
    }
    assert diffs[..|diffs|] == diffs;
  }

  lemma {:induction false} GroupHas(diffs: seq<CapDiff>, kind: CapSet, raised: bool, c: Cap)
    ensures c in Group(diffs, kind, raised) <==> CapDiff(kind, c, !raised, raised) in diffs
  {
    if diffs != [] {
      var n := |diffs| - 1;
      GroupHas(diffs[..n], kind, raised, c);
      assert diffs == diffs[..n] + [diffs[n]];
    }
  }

  function Sizes(diffs: seq<CapDiff>, raised: bool): nat {
    |Group(diffs, CapBounding, raised)| + |Group(diffs, CapPermitted, raised)| + |Group(diffs, CapEffective, raised)|
    + |Group(diffs, CapInheritable, raised)| + |Group(diffs, CapAmbient, raised)|
  }

  lemma {:induction false} GroupSizes(diffs: seq<CapDiff>)
    requires forall i :: 0 <= i < |diffs| ==> diffs[i].before != diffs[i].after
    ensures |diffs| == Sizes(diffs, true) + Sizes(diffs, false)
  {
    if diffs != [] {
      GroupSizes(diffs[..|diffs| - 1]);
    }
  }

  // The groups of a reported difference partition it: a changed bit is in exactly one of
  // them, an unchanged bit in neither, and nothing is lost or repeated.
  lemma DeltaPartitions(before: CapState, after: CapState, diffs: seq<CapDiff>, kind: CapSet, c: Cap)
    requires forall d :: d in diffs <==> Describes(d, before, after)
    ensures c in Group(diffs, kind, true) <==> !Mask(before, kind)[c] && Mask(after, kind)[c]
    ensures c in Group(diffs, kind, false) <==> Mask(before, kind)[c] && !Mask(after, kind)[c]
    ensures |diffs| == Sizes(diffs, true) + Sizes(diffs, false)
  {
    GroupHas(diffs, kind, true, c);
    GroupHas(diffs, kind, false, c);
    forall i | 0 <= i < |diffs| ensures diffs[i].before != diffs[i].after {
      assert diffs[i] in diffs;
    }
    GroupSizes(diffs);
  }

  // ---- one 64-bit set in two 32-bit words ------------------------------------------------

  datatype CapUserData = CapUserData(effective: Word32, permitted: Word32, inheritable: Word32)

  datatype Field = Effective | Permitted | Inheritable

  function Get(d: CapUserData, f: Field): Word32 {
    match f
    case Effective => d.effective
    case Permitted => d.permitted
    case Inheritable => d.inheritable
  }

  // The 64-bit mask two words stand for.
  function Joined(data: seq<CapUserData>, f: Field): Word64
    requires |data| == 2
  {
    Get(data[0], f) + Get(data[1], f)
  }

  datatype Operation =
    | SetCaps(caps: seq<Cap>)
    | Drop(cap: Cap, allowed: bool)
    | AddTo(field: Field, cap: Cap)

  // The set of capabilities a mask stands for.
  function SetOf(w: Word64): set<Cap> {
    set c: Cap | 0 <= c < 64 && w[c]
  }

  // What each operation means for the set one field stands for: only the named fields
  // change, and of those only the named capabilities, except that SetCaps starts afresh.
  // A drop the kernel refuses changes nothing.
  function Meaning(s: set<Cap>, op: Operation, f: Field): set<Cap> {
    match op
    case SetCaps(caps) => if f == Inheritable then s else set c | c in caps
    case Drop(c, allowed) => if f == Inheritable || !allowed then s else s - {c}
    case AddTo(field, c) => if f == field then s + {c} else s
  }

  function MeaningAll(s: set<Cap>, ops: seq<Operation>, f: Field): set<Cap> {
    if ops == [] then s else Meaning(MeaningAll(s, ops[..|ops| - 1], f), ops[|ops| - 1], f)
  }

  // Only a drop changes the bounding set, which it never grows.
  function Bounded(s: set<Cap>, op: Operation): set<Cap> {
    match op
    case Drop(c, true) => s - {c}
    case _ => s
  }

  function BoundedAll(s: set<Cap>, ops: seq<Operation>): set<Cap> {
    if ops == [] then s else Bounded(BoundedAll(s, ops[..|ops| - 1]), ops[|ops| - 1])
  }

  lemma OneMoreCap(s: set<Cap>, caps: seq<Cap>, c: Cap, f: Field)
    ensures Meaning(Meaning(Meaning(s, SetCaps(caps), f), AddTo(Effective, c), f), AddTo(Permitted, c), f)
         == Meaning(s, SetCaps(caps + [c]), f)
  {
  }

  // Whether an operation decides about capability c in a field, and whether it puts it there.
  predicate Decides(op: Operation, f: Field, c: Cap) {
    match op
    case SetCaps(_) => f == Effective || f == Permitted
    case Drop(d, allowed) => allowed && d == c && (f == Effective || f == Permitted)
    case AddTo(g, d) => g == f && d == c
  }

  predicate Puts(op: Operation, f: Field, c: Cap) {
    Decides(op, f, c) && (op.AddTo? || (op.SetCaps? && c in op.caps))
  }

  predicate Undecided(ops: seq<Operation>, from: nat, f: Field, c: Cap) {
    forall m :: from <= m < |ops| ==> !Decides(ops[m], f, c)
  }

  // Operation n puts c in the field, and none after it decides about c there.
  predicate PutLast(ops: seq<Operation>, n: nat, f: Field, c: Cap) {
    n < |ops| && Puts(ops[n], f, c) && Undecided(ops, n + 1, f, c)
  }

  // The last operation that decides about c put it there, or none did and it was there before.
  ghost predicate EndsWith(s: set<Cap>, ops: seq<Operation>, f: Field, c: Cap) {
    (exists n: nat :: PutLast(ops, n, f, c)) || (c in s && Undecided(ops, 0, f, c))
  }

  lemma OneMeans(s: set<Cap>, op: Operation, f: Field, c: Cap)
    ensures c in Meaning(s, op, f) <==> if Decides(op, f, c) then Puts(op, f, c) else c in s
  {
  }

  lemma UndecidedOneMore(past: seq<Operation>, op: Operation, from: nat, f: Field, c: Cap)
    requires from <= |past|
    ensures Undecided(past + [op], from, f, c) <==> Undecided(past, from, f, c) && !Decides(op, f, c)
  {
    var ops := past + [op];
    assert ops[|past|] == op && forall m :: 0 <= m < |past| ==> ops[m] == past[m];
  }

  lemma PutOneMore(past: seq<Operation>, op: Operation, n: nat, f: Field, c: Cap)
    ensures PutLast(past + [op], n, f, c)
       <==> if n == |past| then Puts(op, f, c) else PutLast(past, n, f, c) && !Decides(op, f, c)
  {
    if n < |past| {
      UndecidedOneMore(past, op, n + 1, f, c);
      assert (past + [op])[n] == past[n];
    }
  }

  lemma EndsWithOneMore(s: set<Cap>, past: seq<Operation>, op: Operation, f: Field, c: Cap)
    ensures EndsWith(s, past + [op], f, c) <==> if Decides(op, f, c) then Puts(op, f, c) else EndsWith(s, past, f, c)
  {
    UndecidedOneMore(past, op, 0, f, c);
    forall n: nat
      ensures PutLast(past + [op], n, f, c)
         <==> if n == |past| then Puts(op, f, c) else PutLast(past, n, f, c) && !Decides(op, f, c)
    {
      PutOneMore(past, op, n, f, c);
    }
    if n: nat :| PutLast(past, n, f, c) {
      assert n != |past|;
      assert PutLast(past + [op], n, f, c) <==> !Decides(op, f, c);
    }
    assert PutLast(past + [op], |past|, f, c) <==> Puts(op, f, c);
  }

  // Main result: membership after any sequence of operations is decided by the last operation
  // about that capability in that field.
  lemma {:induction false} LastOperationDecides(s: set<Cap>, ops: seq<Operation>, f: Field, c: Cap)
    ensures c in MeaningAll(s, ops, f) <==> EndsWith(s, ops, f, c)
  {
    if ops != [] {
      var n := |ops| - 1;
      LastOperationDecides(s, ops[..n], f, c);
      OneMeans(MeaningAll(s, ops[..n], f), ops[n], f, c);
      EndsWithOneMore(s, ops[..n], ops[n], f, c);
      assert ops[..n] + [ops[n]] == ops;
    }
  }

  // A capability leaves the bounding set with its first allowed drop, for good.
  lemma {:induction false} BoundedWithout(s: set<Cap>, ops: seq<Operation>, c: Cap)
    ensures c in BoundedAll(s, ops) <==> c in s && Drop(c, true) !in ops
  {
    if ops != [] {
      var n := |ops| - 1;
      BoundedWithout(s, ops[..n], c);
      assert ops == ops[..n] + [ops[n]];
    }
  }

  function Update(d: CapUserData, f: Field, w: Word32): CapUserData {
    match f
    case Effective => d.(effective := w)
    case Permitted => d.(permitted := w)
    case Inheritable => d.(inheritable := w)
  }

  // data[c/32].field |= 1 << (c%32)
  function SetIn(data: seq<CapUserData>, f: Field, c: Cap): (r: seq<CapUserData>)
    requires |data| == 2
    ensures |r| == 2
  {
    data[c / 32 := Update(data[c / 32], f, Or(Get(data[c / 32], f), OneBit(32, c % 32)))]
  }

  // data[c/32].field &^= 1 << (c%32)
  function ClearIn(data: seq<CapUserData>, f: Field, c: Cap): (r: seq<CapUserData>)
    requires |data| == 2
    ensures |r| == 2
  {
    data[c / 32 := Update(data[c / 32], f, AndNot(Get(data[c / 32], f), OneBit(32, c % 32)))]
  }

  lemma JoinedAt(data: seq<CapUserData>, g: Field, i: Cap)
    requires |data| == 2
    ensures Joined(data, g)[i] == Get(data[i / 32], g)[i % 32]
  {
  }

  lemma SplitNumber(i: Cap, c: Cap)
    ensures i == c <==> i / 32 == c / 32 && i % 32 == c % 32
  {
  }

  lemma SetInBit(data: seq<CapUserData>, f: Field, c: Cap, g: Field, i: Cap)
    requires |data| == 2
    ensures Joined(SetIn(data, f, c), g)[i] <==> (g == f && i == c) || Joined(data, g)[i]
  {
    JoinedAt(data, g, i);
    JoinedAt(SetIn(data, f, c), g, i);
    SplitNumber(i, c);
  }

  lemma ClearInBit(data: seq<CapUserData>, f: Field, c: Cap, g: Field, i: Cap)
    requires |data| == 2
    ensures Joined(ClearIn(data, f, c), g)[i] <==> !(g == f && i == c) && Joined(data, g)[i]
  {
    JoinedAt(data, g, i);
    JoinedAt(ClearIn(data, f, c), g, i);
    SplitNumber(i, c);
  }

  lemma SetInMeans(data: seq<CapUserData>, f: Field, c: Cap, g: Field)
    requires |data| == 2
    ensures SetOf(Joined(SetIn(data, f, c), g)) == Meaning(SetOf(Joined(data, g)), AddTo(f, c), g)
  {
    forall i: Cap
      ensures i in SetOf(Joined(SetIn(data, f, c), g)) <==> i in Meaning(SetOf(Joined(data, g)), AddTo(f, c), g)
    {
      SetInBit(data, f, c, g, i);
    }
  }

  lemma ClearInMeans(data: seq<CapUserData>, f: Field, c: Cap, g: Field)
    requires |data| == 2
    ensures SetOf(Joined(ClearIn(data, f, c), g))
         == if g == f then SetOf(Joined(data, g)) - {c} else SetOf(Joined(data, g))
  {
    forall i: Cap
      ensures i in SetOf(Joined(ClearIn(data, f, c), g)) <==> !(g == f && i == c) && i in SetOf(Joined(data, g))
    {
      ClearInBit(data, f, c, g, i);
    }
  }

  lemma ZeroMeans(data: seq<CapUserData>, zeroed: seq<CapUserData>, f: Field)
    requires |data| == |zeroed| == 2
    requires forall k :: 0 <= k < 2 ==> zeroed[k] == data[k].(effective := Zero(32), permitted := Zero(32))
    ensures SetOf(Joined(zeroed, f)) == Meaning(SetOf(Joined(data, f)), SetCaps([]), f)
  {
    forall i: Cap ensures i in SetOf(Joined(zeroed, f)) <==> f == Inheritable && i in SetOf(Joined(data, f)) {
      JoinedAt(zeroed, f, i);
      JoinedAt(data, f, i);
    }
  }

  // The two-word data of capget and capset, updated in place, and the process's bounding
  // set.  capget and capset succeed.
  class CapWords {
    const data: array<CapUserData>
    var bounding: set<Cap>

    ghost predicate Valid() {
      data.Length == 2
    }

    // The capabilities one field holds across its two words.
    ghost function View(f: Field): set<Cap>
      requires Valid()
      reads data
    {
      SetOf(Joined(data[..], f))
    }

    constructor (words: seq<CapUserData>, bounding: set<Cap>)
      requires |words| == 2
      ensures Valid() && fresh(data) && data[..] == words && this.bounding == bounding
    {
      this.bounding := bounding;
      data := new CapUserData[2](i requires 0 <= i < 2 => words[i]);
    }

    // AddPermitted, AddEffective and AddInheritable.
    method Add(f: Field, c: Cap)
      requires Valid()
      modifies data
      ensures forall g: Field :: View(g) == Meaning(old(View(g)), AddTo(f, c), g)
      ensures View(f) == old(View(f)) + {c}
      ensures forall g: Field :: g != f ==> View(g) == old(View(g))
    {
      ghost var before := data[..];
      var idx, shift := c / 32, c % 32;
      data[idx] := Update(data[idx], f, Or(Get(data[idx], f), OneBit(32, shift)));
      assert data[..] == SetIn(before, f, c);
      forall g: Field ensures View(g) == Meaning(SetOf(Joined(before, g)), AddTo(f, c), g) {
        SetInMeans(before, f, c, g);
      }
    }

    // `allowed`: the kernel lets the process shrink its bounding set.
    method DropCapability(c: Cap, allowed: bool) returns (ok: bool)
      requires Valid()
      modifies this`bounding, data
      ensures ok == allowed && bounding == Bounded(old(bounding), Drop(c, allowed))
      ensures forall g: Field :: View(g) == Meaning(old(View(g)), Drop(c, allowed), g)
      ensures View(Inheritable) == old(View(Inheritable))
      ensures allowed ==> bounding == old(bounding) - {c}
      ensures allowed ==> View(Effective) == old(View(Effective)) - {c} && View(Permitted) == old(View(Permitted)) - {c}
      ensures !allowed ==>
        bounding == old(bounding) && View(Effective) == old(View(Effective)) && View(Permitted) == old(View(Permitted))
    {
      if !allowed {
        return false;
      }
      bounding := bounding - {c};
      ghost var before := data[..];
      var idx, bit := c / 32, c % 32;
      data[idx] := Update(data[idx], Effective, AndNot(data[idx].effective, OneBit(32, bit)));
      ghost var middle := data[..];
      assert middle == ClearIn(before, Effective, c);
      data[idx] := Update(data[idx], Permitted, AndNot(data[idx].permitted, OneBit(32, bit)));
      assert data[..] == ClearIn(middle, Permitted, c);
      forall g: Field ensures View(g) == Meaning(SetOf(Joined(before, g)), Drop(c, allowed), g) {
        ClearInMeans(before, Effective, c, g);
        ClearInMeans(middle, Permitted, c, g);
      }
      return true;
    }

    method SetCapabilities(caps: seq<Cap>)
      requires Valid()
      modifies data
      ensures forall g: Field :: View(g) == Meaning(old(View(g)), SetCaps(caps), g)
      ensures View(Effective) == View(Permitted) == set c | c in caps
      ensures View(Inheritable) == old(View(Inheritable))
    {
      ghost var before := data[..];
      data[0] := data[0].(effective := Zero(32), permitted := Zero(32));
      data[1] := data[1].(effective := Zero(32), permitted := Zero(32));
      forall g: Field ensures View(g) == Meaning(SetOf(Joined(before, g)), SetCaps([]), g) {
        ZeroMeans(before, data[..], g);
      }
      for k := 0 to |caps|
        invariant forall g: Field :: View(g) == Meaning(SetOf(Joined(before, g)), SetCaps(caps[..k]), g)
      {
        Add(Effective, caps[k]);
        Add(Permitted, caps[k]);
        assert caps[..k + 1] == caps[..k] + [caps[k]];
        forall g: Field ensures View(g) == Meaning(SetOf(Joined(before, g)), SetCaps(caps[..k + 1]), g) {
          OneMoreCap(SetOf(Joined(before, g)), caps[..k], caps[k], g);
        }
      }
      assert caps[..|caps|] == caps;
    }

    // Main result: any sequence of operations leaves the words standing for the sets the
    // operations mean, and the bounding set without the capabilities dropped.
    method ApplyAll(ops: seq<Operation>)
      requires Valid()
      modifies this`bounding, data
      ensures forall g: Field :: View(g) == MeaningAll(old(View(g)), ops, g)
      ensures bounding == BoundedAll(old(bounding), ops)
      ensures forall g: Field, c: Cap :: c in View(g) <==> EndsWith(old(View(g)), ops, g, c)
      ensures forall c: Cap :: c in bounding <==> c in old(bounding) && Drop(c, true) !in ops
    {
      ghost var before := data[..];
      for k := 0 to |ops|
        invariant forall g: Field :: View(g) == MeaningAll(SetOf(Joined(before, g)), ops[..k], g)
        invariant bounding == BoundedAll(old(bounding), ops[..k])
      {
        assert ops[..k + 1][..k] == ops[..k];
        match ops[k] {
          case SetCaps(caps) => SetCapabilities(caps);
          case Drop(c, allowed) => var _ := DropCapability(c, allowed);
          case AddTo(f, c) => Add(f, c);
        }
      }
      assert ops[..|ops|] == ops;
      forall g: Field, c: Cap ensures c in View(g) <==> EndsWith(SetOf(Joined(before, g)), ops, g, c) {
        LastOperationDecides(SetOf(Joined(before, g)), ops, g, c);
      }
      forall c: Cap ensures c in bounding <==> c in old(bounding) && Drop(c, true) !in ops {
        BoundedWithout(old(bounding), ops, c);
      }
    }
  }

  // ---- listing a mask ------------------------------------------------------------------------

  predicate Ascending(caps: seq<Cap>) {
    forall i, j :: 0 <= i < j < |caps| ==> caps[i] < caps[j]
  }

  method CapsFromMask(mask: Word64) returns (caps: seq<Cap>)
    ensures Ascending(caps)
    ensures (set c | c in caps) == SetOf(mask)
  {
    caps := [];
    for c := 0 to 64
      invariant Ascending(caps) && forall i :: 0 <= i < |caps| ==> caps[i] < c
      invariant forall d: Cap :: d in caps <==> d < c && mask[d]
    {
      TestIsBit(mask, c);
      if Test(mask, c) {
        caps := caps + [c];
      }
    }
  }

  const CAP_AUDIT_READ: Cap := 37

  method ExpandCaps(mask: Word64) returns (view: map<Cap, bool>)
    ensures forall c: Cap :: c in view <==> c <= 37
    ensures forall c :: c in view ==> view[c] == (c in SetOf(mask))
  {
    view := map[];
    for c := 0 to CAP_AUDIT_READ + 1
      invariant forall d: Cap :: d in view <==> d < c
      invariant forall d :: d in view ==> view[d] == mask[d]
    {
      TestIsBit(mask, c);
      view := view[c := Test(mask, c)];
    }
  }

  lemma AscendingInit(a: seq<Cap>, c: Cap)
    requires Ascending(a) && a != []
    ensures c in a[..|a| - 1] <==> c in a && c != a[|a| - 1]
    ensures c in a ==> c <= a[|a| - 1]
  {
    assert a == a[..|a| - 1] + [a[|a| - 1]];
  }

  lemma HasMember(a: seq<Cap>)
    ensures a != [] ==> exists c :: c in a
  {
    if a != [] { assert a[0] in a; }
  }

  // An ascending list is determined by its members, so the listing is the only one.
  lemma {:induction false} AscendingUnique(a: seq<Cap>, b: seq<Cap>)
    requires Ascending(a) && Ascending(b) && forall c :: c in a <==> c in b
    ensures a == b
  {
    HasMember(b);
    if a != [] {
      assert a[|a| - 1] in b;
      var m, n := |a| - 1, |b| - 1;
      AscendingInit(b, a[m]);
      AscendingInit(a, b[n]);
      assert b[n] in a;
      forall c: Cap ensures c in a[..m] <==> c in b[..n] {
        AscendingInit(a, c);
        AscendingInit(b, c);
      }
      AscendingUnique(a[..m], b[..n]);
      assert a == a[..m] + [a[m]] && b == b[..n] + [b[n]];
    }
  }
}
