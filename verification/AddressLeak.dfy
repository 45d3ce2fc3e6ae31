// Why the conservation of addresses asks for a free letter: a disciplined run that starts 26
// pods and then one more.  GetNextPodLetter's error is dropped in d_new (sup/commands.go:283),
// the 27th creator is named bctor-1, and its address is in use for ever once it is reaped.
module AddressLeak {
  import opened Prelude
  import opened Namespaces
  import opened ContainerId
  import opened IpAllocator
  import opened Reaper
  import opened Lifecycle
  import opened Addresses
  import opened Scripts

  // Everybody before has returned, and nobody holds an address.
  ghost predicate Quiet(w: World) {
    && (forall i :: 0 <= i < |w.starts| ==> w.starts[i].pc == PReturned)
    && (forall id :: id in w.sup.containers ==>
         w.sup.containers[id].spec.Some? && w.sup.containers[id].spec.value.id == id && w.sup.containers[id].net == None)
    && w.sup.parked == map[]
  }

  lemma DisciplinedOne(base: IP, steps: seq<Step>, w: World, step: Step)
    requires DisciplinedRun(base, steps) && Run(base, steps) == Some(w) && Enabled(w, step) && Disciplined(w, step)
    ensures DisciplinedRun(base, steps + [step]) && Run(base, steps + [step]) == Some(Do(w, step))
  {
    RunOne(base, steps, w, step);
    assert (steps + [step])[..|steps|] == steps;
  }

  lemma {:induction false} AdvancesDisciplined(base: IP, steps: seq<Step>, moves: seq<Step>)
    requires DisciplinedRun(base, steps) && OnlyAdvances(moves) && Run(base, steps + moves).Some?
    ensures DisciplinedRun(base, steps + moves)
  {
    if moves == [] {
      assert steps + moves == steps;
    } else {
      var n := |moves| - 1;
      assert (steps + moves)[..|steps + moves| - 1] == steps + moves[..n];
      AdvancesDisciplined(base, steps, moves[..n]);
    }
  }

  function Plan(i: nat, id: string, pid: nat, report: map<NamespaceType, int>, net: Option<IP>): Script {
    Script(i, Creator, CreatorSpec(id), pid, report, net)
  }

  // A whole d_new for a creator.
  lemma Create(base: IP, steps: seq<Step>, before: World, sc: Script) returns (more: seq<Step>, begun: World, w: World)
    requires DisciplinedRun(base, steps) && Run(base, steps) == Some(before) && NoCommand(before)
    requires sc == Plan(|before.starts|, sc.spec.id, sc.pid, sc.report, sc.net)
    requires CreatorName(before.sup.containers, sc.spec.id) && Fits(sc, before.sup.pool)
    ensures DisciplinedRun(base, more) && Run(base, more) == Some(w)
    ensures begun == DoBegin(before, Creator, sc.spec.id, "") && Playing(begun, w, sc, 9)
  {
    var begin := Begin(Creator, sc.spec.id, "");
    DisciplinedOne(base, steps, before, begin);
    begun := Do(before, begin);
    var moves;
    moves, w := Play(base, steps + [begin], begun, sc, 9);
    AdvancesDisciplined(base, steps + [begin], moves);
    more := steps + [begin] + moves;
  }

  // ---- 26 pods ----------------------------------------------------------------------

  function RootName(j: nat): string
    requires j < 26
  {
    PREFIX + LetterAt(j) + "1"
  }

  ghost predicate Filled(w: World, n: nat)
    requires n <= 26
  {
    && Quiet(w)
    && (forall id :: id in w.sup.containers ==> exists j :: 0 <= j < n && id == RootName(j))
    && (forall j :: 0 <= j < n ==> RootName(j) in w.sup.containers)
  }

  lemma RootLetter(j: nat)
    requires j < 26
    ensures LetterOf(RootName(j)) == Some(LetterAt(j))
  {
    LetterIsPod(RootName(j), Parts(LetterAt(j), "1"));
  }

  lemma FilledLetters(w: World, n: nat)
    requires n <= 26 && Filled(w, n)
    ensures forall j :: 0 <= j < 26 ==> (LetterAt(j) in UsedLetters(SpecIds(w.sup.containers)) <==> j < n)
  {
    var specIds := SpecIds(w.sup.containers);
    forall j | 0 <= j < 26 ensures LetterAt(j) in UsedLetters(specIds) <==> j < n {
      RootLetter(j);
      if j < n {
        assert RootName(j) in specIds;
      }
      if LetterAt(j) in UsedLetters(specIds) {
        var id :| id in specIds && specIds[id].Some? && LetterOf(specIds[id].value) == Some(LetterAt(j));
        var i :| 0 <= i < n && id == RootName(i);
        RootLetter(i);
        assert LetterAt(i)[0] == LetterAt(j)[0];
      }
    }
  }

  lemma NextRoot(w: World, n: nat)
    requires n <= 26 && Filled(w, n)
    ensures CreatorName(w.sup.containers, if n < 26 then RootName(n) else PREFIX + "1")
  {
    var specIds := SpecIds(w.sup.containers);
    FilledLetters(w, n);
    if n < 26 {
      assert IsNextLetter(specIds, Letter(LetterAt(n)));
    } else {
      assert IsNextLetter(specIds, Exhausted);
      assert PREFIX + "" == PREFIX;
    }
  }

  lemma {:induction false} Fill(base: IP, n: nat) returns (steps: seq<Step>, w: World)
    requires n <= 26
    ensures DisciplinedRun(base, steps) && Run(base, steps) == Some(w)
    ensures Filled(w, n) && w.sup.pool == Fresh(base)
  {
    if n == 0 {
      steps, w := [], Initially(base);
    } else {
      var before;
      steps, before := Fill(base, n - 1);
      NextRoot(before, n - 1);
      var sc := Plan(|before.starts|, RootName(n - 1), 2 * n, map[], None);
      var begun;
      steps, begun, w := Create(base, steps, before, sc);
      CreatedFills(before, begun, w, n, sc);
    }
  }

  lemma CreatedQuiet(before: World, begun: World, w: World, sc: Script)
    requires Quiet(before) && sc == Plan(|before.starts|, sc.spec.id, sc.pid, map[], None)
    requires begun == DoBegin(before, Creator, sc.spec.id, "") && Playing(begun, w, sc, 9)
    ensures Quiet(w) && w.sup.containers.Keys == before.sup.containers.Keys + {sc.spec.id}
  {
    OnlyKey(begun.sup.containers, w.sup.containers, sc.spec.id);
  }

  lemma CreatedFills(before: World, begun: World, w: World, n: nat, sc: Script)
    requires 0 < n <= 26 && Filled(before, n - 1)
    requires sc == Plan(|before.starts|, RootName(n - 1), 2 * n, map[], None)
    requires begun == DoBegin(before, Creator, sc.spec.id, "") && Playing(begun, w, sc, 9)
    ensures Filled(w, n)
  {
    CreatedQuiet(before, begun, w, sc);
  }

  // Main result: the hypothesis is needed.  After some disciplined run an address is in use
  // and nobody holds it, or any other.
  lemma LettersMatter(base: IP) returns (steps: seq<Step>, w: World)
    ensures DisciplinedRun(base, steps) && Run(base, steps) == Some(w)
    ensures Address(base, 10) in w.sup.pool.used && forall h :: HeldBy(w, h) == None
  {
    var before, begun;
    steps, before := Fill(base, 26);
    NextRoot(before, 26);
    FirstAddress(base);
    var sc := Plan(|before.starts|, PREFIX + "1", 100, CREATED, Some(Address(base, 10)));
    steps, begun, w := Create(base, steps, before, sc);
    var exit := Exit(101, Some(PREFIX + "1"));
    assert Found(w.sup, 101, PREFIX + "1");
    DisciplinedOne(base, steps, w, exit);
    LastLeaks(base, before, begun, w, sc);
    steps, w := steps + [exit], DoExit(w, 101, PREFIX + "1");
  }

  lemma FirstAddress(base: IP)
    ensures Allocated(Fresh(base)) == (Pool(base, 11, {Address(base, 10)}), Some(Address(base, 10)))
  {
    assert Fresh(base).used + {Address(base, 10)} == {Address(base, 10)};
  }

  lemma LastLeaks(base: IP, before: World, begun: World, w: World, sc: Script)
    requires Quiet(before) && before.sup.pool == Fresh(base)
    requires sc == Plan(|before.starts|, PREFIX + "1", 100, CREATED, Some(Address(base, 10)))
    requires begun == DoBegin(before, Creator, sc.spec.id, "") && Playing(begun, w, sc, 9)
    requires Found(w.sup, 101, PREFIX + "1")
    ensures var v := DoExit(w, 101, PREFIX + "1");
      v.sup.pool.used == {Address(base, 10)} && forall h :: HeldBy(v, h) == None
  {
    var id := PREFIX + "1";
    var v := DoExit(w, 101, id);
    FirstAddress(base);
    BareIsNoId();
    ReapFinishes(w, 101, id);
    assert v.sup.containers == before.sup.containers - {id};
    forall h ensures HeldBy(v, h) == None {
      if h.InMap? && h.id in v.sup.containers {
        assert h.id in before.sup.containers;
      }
    }
  }
}
