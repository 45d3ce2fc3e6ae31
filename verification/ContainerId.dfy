// Container IDs and pod letters: sup/commands.go, splitContainerID; sup/orchestrator.go,
// GetNextPodLetter and GetNextContainerIndex.
module ContainerId {
  import opened Prelude

  const PREFIX: string := "bctor-"

  datatype Parts = Parts(pod: string, index: string)

  predicate IsLower(c: char) {
    'a' <= c <= 'z'
  }

  predicate IsDigit(c: char) {
    '0' <= c <= '9'
  }

  predicate AllLower(s: string) {
    forall i :: 0 <= i < |s| ==> IsLower(s[i])
  }

  predicate AllDigits(s: string) {
    forall i :: 0 <= i < |s| ==> IsDigit(s[i])
  }

  // The grammar of IDs: the prefix, a lowercase pod name, a decimal index.
  predicate IsId(id: string, p: Parts) {
    && p.pod != [] && AllLower(p.pod)
    && p.index != [] && AllDigits(p.index)
    && id == PREFIX + p.pod + p.index
  }

  function LetterRun(s: string): (n: nat)
    ensures n <= |s| && AllLower(s[..n])
    ensures n < |s| ==> !IsLower(s[n])
  {
    if s == [] || !IsLower(s[0]) then 0
    else
      var n := LetterRun(s[1..]);
      assert s[..n + 1] == [s[0]] + s[1..][..n];
      n + 1
  }

  function Split(id: string): Option<Parts> {
    if !(PREFIX <= id) then None
    else
      var rest := id[|PREFIX|..];
      var i := LetterRun(rest);
      if i == 0 || i == |rest| || !AllDigits(rest[i..]) then None
      else Some(Parts(rest[..i], rest[i..]))
  }

  method SplitContainerID(id: string) returns (pod: string, index: string, ok: bool)
    ensures ok <==> Split(id).Some?
    ensures ok ==> Split(id) == Some(Parts(pod, index))
    ensures !ok ==> pod == "" && index == ""
  {
    if !(PREFIX <= id) {
      return "", "", false;
    }
    var rest := id[|PREFIX|..];
    if |rest| < 2 {
      return "", "", false;
    }
    var i := 0;
    while i < |rest| && 'a' <= rest[i] <= 'z'
      invariant i <= |rest| && AllLower(rest[..i])
    {
      i := i + 1;
    }
    LetterRunUnique(rest, i);
    if i == 0 || i == |rest| {
      return "", "", false;
    }
    for j := i to |rest|
      invariant forall k :: i <= k < j ==> IsDigit(rest[k])
    {
      if rest[j] < '0' || rest[j] > '9' {
        assert !IsDigit(rest[i..][j - i]);
        return "", "", false;
      }
    }
    return rest[..i], rest[i..], true;
  }

  lemma {:induction false} LetterRunUnique(s: string, n: nat)
    requires n <= |s| && AllLower(s[..n]) && (n < |s| ==> !IsLower(s[n]))
    ensures LetterRun(s) == n
  {
    var m := LetterRun(s);
    assert forall k :: 0 <= k < n ==> s[k] == s[..n][k];
    assert forall k :: 0 <= k < m ==> s[k] == s[..m][k];
  }

  // Main result: splitting inverts building, and every accepted ID is rebuilt from its parts.
  lemma SplitIff(id: string, p: Parts)
    ensures Split(id) == Some(p) <==> IsId(id, p)
  {
    if IsId(id, p) {
      var rest := p.pod + p.index;
      assert id == PREFIX + rest && id[|PREFIX|..] == rest;
      assert rest[..|p.pod|] == p.pod && rest[|p.pod|..] == p.index;
      assert rest[|p.pod|] == p.index[0];
      LetterRunUnique(rest, |p.pod|);
    }
    if Split(id) == Some(p) {
      var rest := id[|PREFIX|..];
      assert id == PREFIX + rest;
      assert rest == p.pod + p.index;
    }
  }

  // ---- the other readings of an ID -----------------------------------------------

  // Everything after the first dash, up to the second; None when there is no dash.
  function UpToDash(s: string): string {
    if s == [] || s[0] == '-' then [] else [s[0]] + UpToDash(s[1..])
  }

  function SecondField(s: string): Option<string> {
    if s == [] then None
    else if s[0] == '-' then Some(UpToDash(s[1..]))
    else SecondField(s[1..])
  }

  function StripDigits(s: string): string {
    if s == [] then [] else if IsDigit(s[0]) then StripDigits(s[1..]) else [s[0]] + StripDigits(s[1..])
  }

  // GetNextPodLetter's reading: split at dashes, second field, digits removed.
  function LetterOf(id: string): Option<string> {
    match SecondField(id)
    case None => None
    case Some(field) => Some(StripDigits(field))
  }

  lemma {:induction false} NoDash(s: string)
    requires forall i :: 0 <= i < |s| ==> s[i] != '-'
    ensures UpToDash(s) == s
  {
    if s != [] { NoDash(s[1..]); }
  }

  lemma {:induction false} StripIndex(pod: string, index: string)
    requires AllLower(pod) && AllDigits(index)
    ensures StripDigits(pod + index) == pod
  {
    if pod == [] {
      assert pod + index == index;
      if index != [] {
        assert index[1..] == [] + index[1..];
        StripIndex([], index[1..]);
      }
    } else {
      assert (pod + index)[1..] == pod[1..] + index;
      StripIndex(pod[1..], index);
    }
  }

  lemma PrefixField(rest: string)
    ensures SecondField(PREFIX + rest) == Some(UpToDash(rest))
  {
    var s := PREFIX + rest;
    assert s[1..] == "ctor-" + rest;
    assert s[1..][1..] == "tor-" + rest;
    assert s[1..][1..][1..] == "or-" + rest;
    assert s[1..][1..][1..][1..] == "r-" + rest;
    assert s[1..][1..][1..][1..][1..] == "-" + rest;
    assert ("-" + rest)[1..] == rest;
    assert SecondField("-" + rest) == Some(UpToDash(rest));
    assert SecondField("r-" + rest) == SecondField("-" + rest);
    assert SecondField("or-" + rest) == SecondField("r-" + rest);
    assert SecondField("tor-" + rest) == SecondField("or-" + rest);
    assert SecondField("ctor-" + rest) == SecondField("tor-" + rest);
  }

  // On every accepted ID the digit-stripping reading is the pod.
  lemma LetterIsPod(id: string, p: Parts)
    requires IsId(id, p)
    ensures LetterOf(id) == Some(p.pod)
  {
    var rest := p.pod + p.index;
    assert id == PREFIX + rest;
    PrefixField(rest);
    NoDash(rest);
    StripIndex(p.pod, p.index);
  }

  predicate OccursAt(s: string, sub: string, i: nat) {
    i + |sub| <= |s| && s[i..i + |sub|] == sub
  }

  predicate Contains(s: string, sub: string) {
    exists i :: 0 <= i <= |s| && OccursAt(s, sub, i)
  }

  // On single-letter pods the Contains test of GetNextContainerIndex and the HasPrefix test
  // of the pod kill both mean membership.
  lemma MembershipTestsAgree(id: string, p: Parts, letter: char)
    requires IsId(id, p) && |p.pod| == 1 && IsLower(letter)
    ensures Contains(id, "-" + [letter]) <==> p.pod == [letter]
    ensures PREFIX + [letter] <= id <==> p.pod == [letter]
  {
    var sub := "-" + [letter];
    assert id[5] == '-' && id[6] == p.pod[0];
    if p.pod == [letter] {
      assert OccursAt(id, sub, 5);
    }
    if Contains(id, sub) {
      var i :| 0 <= i <= |id| && OccursAt(id, sub, i);
      assert id[i..i + |sub|][0] == id[i] && id[i..i + |sub|][1] == id[i + 1];
      OneDash(id, p, i);
    }
    if PREFIX + [letter] <= id {
      assert (PREFIX + [letter])[6] == letter;
    }
  }

  lemma OneDash(id: string, p: Parts, i: nat)
    requires IsId(id, p) && i < |id| && id[i] == '-'
    ensures i == 5
  {
    var rest := p.pod + p.index;
    assert id == PREFIX + rest;
    forall k | 6 <= k < |id| ensures id[k] != '-' {
      assert id[k] == rest[k - 6];
      assert IsLower(rest[k - 6]) || IsDigit(rest[k - 6]);
    }
  }

  // ---- the next pod letter ------------------------------------------------------------

  // The outcome of GetNextPodLetter; NilSpec is the panic on a container without a spec.
  datatype NextLetter = Letter(letter: string) | Exhausted | NilSpec

  function LetterAt(i: nat): string
    requires i < 26
  {
    [('a' as int + i) as char]
  }

  // The 26 letters are the lowercase ones, in order.
  lemma LettersInOrder(s: string, i: nat, j: nat)
    requires i < j < 26
    ensures (|s| == 1 && 'a' <= s[0] <= 'z') <==> exists k :: 0 <= k < 26 && s == LetterAt(k)
    ensures LetterAt(i)[0] < LetterAt(j)[0]
  {
    if |s| == 1 && 'a' <= s[0] <= 'z' {
      var k := s[0] as int - 'a' as int;
      assert s == LetterAt(k);
    }
  }

  function UsedLetters(specIds: map<string, Option<string>>): set<string> {
    set id | id in specIds && specIds[id].Some? && LetterOf(specIds[id].value).Some? :: LetterOf(specIds[id].value).value
  }

  // The least letter not in use; an error exactly when all 26 are.
  ghost predicate IsNextLetter(specIds: map<string, Option<string>>, r: NextLetter) {
    && (r == NilSpec <==> exists id :: id in specIds && specIds[id] == None)
    && (r.Letter? ==>
         exists i :: 0 <= i < 26 && r.letter == LetterAt(i) && LetterAt(i) !in UsedLetters(specIds)
                  && forall j :: 0 <= j < i ==> LetterAt(j) in UsedLetters(specIds))
    && (r == Exhausted ==> forall i :: 0 <= i < 26 ==> LetterAt(i) in UsedLetters(specIds))
  }

  // `specIds` gives, for every key of the container map, the ID in its spec, if it has one.
  method GetNextPodLetter(specIds: map<string, Option<string>>) returns (r: NextLetter)
    ensures IsNextLetter(specIds, r)
  {
    var used: set<string> := {};
    var rest := specIds.Keys;
    while rest != {}
      invariant rest <= specIds.Keys
      invariant forall id :: id in specIds.Keys - rest ==> specIds[id].Some?
      invariant used == set id | id in specIds.Keys - rest && LetterOf(specIds[id].value).Some?
                         :: LetterOf(specIds[id].value).value
      decreases rest
    {
      var id :| id in rest;
      if specIds[id] == None {
        return NilSpec;
      }
      var letter := LetterOf(specIds[id].value);
      if letter.Some? {
        used := used + {letter.value};
      }
      rest := rest - {id};
    }
    assert used == UsedLetters(specIds);
    for i := 0 to 26
      invariant forall j :: 0 <= j < i ==> LetterAt(j) in used
    {
      if LetterAt(i) !in used {
        return Letter(LetterAt(i));
      }
    }
    return Exhausted;
  }

  ghost predicate HasMember(specIds: map<string, Option<string>>, pod: string) {
    exists id :: id in specIds && Split(id).Some? && Split(id).value.pod == pod
  }

  // Every spec is present and names its key: an ID of a pod, or the one a creator gets when
  // no letter is left.
  ghost predicate AllNamed(specIds: map<string, Option<string>>) {
    forall id :: id in specIds ==> specIds[id] == Some(id) && (Split(id).Some? || id == PREFIX + "1")
  }

  lemma BareName()
    ensures Split(PREFIX + "1") == None && LetterOf(PREFIX + "1") == Some("")
  {
    assert (PREFIX + "1")[|PREFIX|..] == "1";
    PrefixField("1");
    NoDash("1");
    StripIndex("", "1");
    assert "" + "1" == "1";
  }

  // Then a nonempty name is in use exactly when its pod has a member.
  lemma UsedMeansMember(specIds: map<string, Option<string>>, pod: string)
    requires AllNamed(specIds) && pod != ""
    ensures pod in UsedLetters(specIds) <==> HasMember(specIds, pod)
  {
    BareName();
    forall id | id in specIds && Split(id).Some? ensures LetterOf(id) == Some(Split(id).value.pod) {
      SplitIff(id, Split(id).value);
      LetterIsPod(id, Split(id).value);
    }
  }

  // Main result: the next letter is the least whose pod is empty, and there is none exactly
  // when no pod of the 26 is.
  lemma NextLetterIsLeastEmpty(specIds: map<string, Option<string>>, r: NextLetter)
    requires AllNamed(specIds) && IsNextLetter(specIds, r)
    ensures r.Letter? ==>
      exists i :: 0 <= i < 26 && r.letter == LetterAt(i) && !HasMember(specIds, LetterAt(i))
               && forall j :: 0 <= j < i ==> HasMember(specIds, LetterAt(j))
    ensures r == Exhausted <==> forall i :: 0 <= i < 26 ==> HasMember(specIds, LetterAt(i))
  {
    forall i | 0 <= i < 26 ensures LetterAt(i) in UsedLetters(specIds) <==> HasMember(specIds, LetterAt(i)) {
      UsedMeansMember(specIds, LetterAt(i));
    }
  }

  // ---- the next joiner name -----------------------------------------------------------------

  function IndexFor(ids: set<string>, letter: string): nat {
    |set id | id in ids && Contains(id, "-" + letter)| + 1
  }

  method GetNextContainerIndex(ids: set<string>, letter: string) returns (index: nat)
    ensures index == IndexFor(ids, letter)
  {
    var count := 0;
    var rest := ids;
    ghost var counted: set<string> := {};
    while rest != {}
      invariant rest <= ids
      invariant counted == set id | id in ids - rest && Contains(id, "-" + letter)
      invariant count == |counted|
      decreases rest
    {
      var id :| id in rest;
      rest := rest - {id};
      if Contains(id, "-" + letter) {
        count := count + 1;
        counted := counted + {id};
      }
    }
    assert counted == set id | id in ids && Contains(id, "-" + letter);
    return count + 1;
  }

  function Digit(n: nat): char
    requires n < 10
  {
    ('0' as int + n) as char
  }

  function Decimal(n: nat): string {
    if n < 10 then [Digit(n)] else Decimal(n / 10) + [Digit(n % 10)]
  }

  lemma {:induction false} DecimalDigits(n: nat)
    ensures Decimal(n) != [] && AllDigits(Decimal(n))
    ensures n >= 2 ==> Decimal(n) != "1"
  {
    if n >= 10 { DecimalDigits(n / 10); }
  }

  // The number a digit string stands for.
  function Value(s: string): nat
    requires AllDigits(s)
  {
    if s == [] then 0 else 10 * Value(s[..|s| - 1]) + (s[|s| - 1] as int - '0' as int)
  }

  // Decimal is read back, and writes no leading zero.
  lemma {:induction false} DecimalValue(n: nat)
    ensures AllDigits(Decimal(n)) && Value(Decimal(n)) == n
    ensures n > 0 ==> Decimal(n)[0] != '0'
  {
    DecimalDigits(n);
    if n >= 10 {
      DecimalValue(n / 10);
      DecimalDigits(n / 10);
      assert Decimal(n)[..|Decimal(n)| - 1] == Decimal(n / 10);
    } else {
      assert Decimal(n)[..0] == [];
    }
  }

  function Numbered(letter: string, n: nat): string {
    PREFIX + letter + Decimal(n)
  }

  // While a pod's containers are numbered 1 to n without a gap, the next index is n+1, and its
  // name is new.
  lemma IndexContinues(ids: set<string>, letter: string, n: nat)
    requires forall id :: id in ids && Contains(id, "-" + letter) <==> exists k :: 1 <= k <= n && id == Numbered(letter, k)
    ensures IndexFor(ids, letter) == n + 1 && Numbered(letter, n + 1) !in ids
  {
    var counted := set id | id in ids && Contains(id, "-" + letter);
    CountNumbered(counted, letter, n);
    NumberedContains(letter, n + 1);
    forall k | 1 <= k <= n ensures Numbered(letter, k) != Numbered(letter, n + 1) {
      NumberedApart(letter, k, n + 1);
    }
  }

  lemma NumberedApart(letter: string, j: nat, k: nat)
    requires j != k
    ensures Numbered(letter, j) != Numbered(letter, k)
  {
    DecimalValue(j);
    DecimalValue(k);
    var head := PREFIX + letter;
    assert Numbered(letter, j)[|head|..] == Decimal(j) && Numbered(letter, k)[|head|..] == Decimal(k);
  }

  lemma NumberedContains(letter: string, k: nat)
    ensures Contains(Numbered(letter, k), "-" + letter)
  {
    var id := Numbered(letter, k);
    assert id[5..5 + |"-" + letter|] == "-" + letter;
    assert OccursAt(id, "-" + letter, 5);
  }

  lemma {:induction false} CountNumbered(ids: set<string>, letter: string, n: nat)
    requires forall id :: id in ids <==> exists k :: 1 <= k <= n && id == Numbered(letter, k)
    ensures |ids| == n
  {
    if n == 0 {
      assert ids == {};
    } else {
      var last := Numbered(letter, n);
      forall id ensures id in ids - {last} <==> exists k :: 1 <= k <= n - 1 && id == Numbered(letter, k) {
        forall k | 1 <= k <= n - 1 ensures Numbered(letter, k) != last {
          NumberedApart(letter, k, n);
        }
      }
      CountNumbered(ids - {last}, letter, n - 1);
    }
  }

  // Appending another decimal index to an accepted ID that ends in 1 stays in its pod.
  lemma Renumbered(letter: string, p: Parts, number: string)
    requires IsId(PREFIX + letter + "1", p)
    requires number != [] && AllDigits(number) && number != "1"
    ensures var q := Parts(p.pod, p.index[..|p.index| - 1] + number);
      Split(PREFIX + letter + number) == Some(q) && q.index != "1"
  {
    var head := p.index[..|p.index| - 1];
    assert (PREFIX + letter + "1")[|PREFIX|..] == letter + "1" && (PREFIX + p.pod + p.index)[|PREFIX|..] == p.pod + p.index;
    assert letter == (letter + "1")[..|letter|] == p.pod + head;
    var q := Parts(p.pod, head + number);
    assert PREFIX + letter + number == PREFIX + q.pod + q.index;
    SplitIff(PREFIX + letter + number, q);
    assert head == [] ==> q.index == number;
  }

  lemma RootIsCounted(ids: set<string>, letter: string)
    requires PREFIX + letter + "1" in ids
    ensures IndexFor(ids, letter) >= 2
  {
    var root := PREFIX + letter + "1";
    assert root[5..5 + |"-" + letter|] == "-" + letter;
    assert OccursAt(root, "-" + letter, 5);
    var counted := set id | id in ids && Contains(id, "-" + letter);
    SubsetSize({root}, counted);
  }

  // Main result: a joiner of a container in the map is named into that container's pod, and
  // never gets the index 1 that creators have.
  lemma JoinerName(ids: set<string>, letter: string, root: string)
    requires root in ids && root == PREFIX + letter + "1" && Split(root).Some?
    ensures var name := PREFIX + letter + Decimal(IndexFor(ids, letter));
      Split(name).Some? && Split(name).value.pod == Split(root).value.pod && Split(name).value.index != "1"
  {
    SplitIff(root, Split(root).value);
    RootIsCounted(ids, letter);
    DecimalDigits(IndexFor(ids, letter));
    Renumbered(letter, Split(root).value, Decimal(IndexFor(ids, letter)));
  }

  // A fresh letter is a pod name, and no accepted ID in the map is in that pod.
  lemma FreshLetter(specIds: map<string, Option<string>>, letter: string)
    requires IsNextLetter(specIds, Letter(letter))
    ensures Split(PREFIX + letter + "1") == Some(Parts(letter, "1"))
    ensures forall id :: id in specIds && specIds[id] == Some(id) && Split(id).Some? ==> Split(id).value.pod != letter
  {
    assert letter != [] && AllLower(letter) && AllDigits("1");
    SplitIff(PREFIX + letter + "1", Parts(letter, "1"));
    forall id | id in specIds && specIds[id] == Some(id) && Split(id).Some? ensures Split(id).value.pod != letter {
      SplitIff(id, Split(id).value);
      LetterIsPod(id, Split(id).value);
    }
  }
}
