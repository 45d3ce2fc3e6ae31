// What is true at the end of a run, told from its steps alone: which handles are held, with
// which descriptor and how often counted, and which object the map shows under an ID.
module RunFacts {
  import opened Prelude
  import opened Namespaces
  import opened FdPassing
  import opened ContainerId
  import opened IpAllocator
  import opened Reaper
  import opened Lifecycle
  import Handles
  import Handshake
  import HandshakeProofs

  // The owner holds a handle of this type on this descriptor; the map shows this object.
  datatype Fact = Holds(id: string, ns: NamespaceType, fd: int) | Shows(id: string, obj: Object)

  predicate True(w: World, fact: Fact) {
    match fact
    case Holds(id, ns, fd) => Handles.Holds(w.sup.handles, id, ns) && w.sup.handles[id][ns].fd == fd
    case Shows(id, obj) => id in w.sup.containers && w.sup.containers[id].self == obj
  }

  // ---- the steps that bear on a fact ---------------------------------------------------

  // The descriptor a step registers for (id, ns).
  function Registers(w: World, step: Step, id: string, ns: NamespaceType): Option<int> {
    match step
    case Advance(i, Register(_, Some(fds))) =>
      if i < |w.starts| && w.starts[i].spec.id == id && ns in fds then Some(fds[ns]) else None
    case _ => None
  }

  // The object a step stores under an ID: a placeholder for a joiner asked for at the prompt,
  // then the two objects of the start call, the last one twice for a creator.
  function Stores(w: World, step: Step, id: string): Option<Object> {
    match step
    case Begin(Joiner, name, _) => if name == id then Some(Object(|w.starts|, Initializing)) else None
    case Advance(i, move) =>
      if i >= |w.starts| || w.starts[i].spec.id != id then None
      else if move == Insert then Some(Object(i, Created))
      else if move == Publish || (move == Return && Creates(w.starts[i].kind)) then Some(Object(i, Running))
      else None
    case _ => None
  }

  predicate Reaps(w: World, step: Step, id: string) {
    match step
    case Exit(pid, Some(key)) =>
      key in w.sup.containers && w.sup.containers[key].initPid == pid
      && w.sup.containers[key].spec.Some? && w.sup.containers[key].spec.value.id == id
    case _ => false
  }

  predicate Makes(w: World, step: Step, fact: Fact) {
    match fact
    case Holds(id, ns, fd) => Registers(w, step, id, ns) == Some(fd)
    case Shows(id, obj) => Stores(w, step, id) == Some(obj)
  }

  predicate Unmakes(w: World, step: Step, fact: Fact) {
    match fact
    case Holds(id, ns, fd) => Reaps(w, step, id) || (Registers(w, step, id, ns).Some? && Registers(w, step, id, ns) != Some(fd))
    case Shows(id, obj) => Reaps(w, step, id) || (Stores(w, step, id).Some? && Stores(w, step, id) != Some(obj))
  }

  // ---- one step -----------------------------------------------------------------------------

  lemma {:induction false} VisitKeepsFds(owned: Handles.Owned, types: seq<NamespaceType>)
    ensures Handles.Visit(owned, types).Keys == owned.Keys
    ensures forall ns :: ns in owned ==> Handles.Visit(owned, types)[ns].fd == owned[ns].fd
    decreases |types|
  {
    if types != [] && types[0] in owned {
      var next := owned[types[0] := owned[types[0]].(refs := owned[types[0]].refs + 1)];
      assert next.Keys == owned.Keys;
      VisitKeepsFds(next, types[1..]);
    }
  }

  // A share loop gives and takes no handle.
  lemma ShareKeepsFds(table: Handles.Table, shares: seq<ShareSpec>, id: string, ns: NamespaceType)
    ensures var t := Handles.Share(table, shares);
      && (Handles.Holds(t, id, ns) <==> Handles.Holds(table, id, ns))
      && (Handles.Holds(t, id, ns) ==> t[id][ns].fd == table[id][ns].fd)
  {
    if shares != [] && shares[0].from in table {
      VisitKeepsFds(table[shares[0].from], ShareList(shares));
    }
  }

  lemma AppliedOne(table: Handles.Table, e: Handles.Event)
    ensures Applied(table, [e]) == Handles.Apply(table, e)
  {
  }

  lemma ShareHolds(w: World, i: nat, id: string, ns: NamespaceType, fd: int)
    requires i < |w.starts| && CanMove(w.starts[i], ShareHandles(true))
    ensures True(DoAdvance(w, i, ShareHandles(true)), Holds(id, ns, fd)) <==> True(w, Holds(id, ns, fd))
  {
    AppliedOne(w.sup.handles, Handles.Shared(w.starts[i].spec.shares));
    ShareKeepsFds(w.sup.handles, w.starts[i].spec.shares, id, ns);
  }

  lemma RegisterHolds(w: World, i: nat, workPid: int, fds: map<NamespaceType, int>, id: string, ns: NamespaceType, fd: int)
    requires i < |w.starts| && CanMove(w.starts[i], Register(workPid, Some(fds)))
    ensures True(DoAdvance(w, i, Register(workPid, Some(fds))), Holds(id, ns, fd)) <==>
      if w.starts[i].spec.id == id && ns in fds then fds[ns] == fd else True(w, Holds(id, ns, fd))
  {
    AppliedOne(w.sup.handles, Handles.Registered(w.starts[i].spec.id, fds));
    Handles.RegisterSets(w.sup.handles, w.starts[i].spec.id, fds, id, ns);
  }

  lemma MoveHolds(w: World, i: nat, move: Move, id: string, ns: NamespaceType, fd: int)
    requires i < |w.starts| && CanMove(w.starts[i], move)
    ensures var fact := Holds(id, ns, fd);
      True(DoAdvance(w, i, move), fact) <==>
        Makes(w, Advance(i, move), fact) || (True(w, fact) && !Unmakes(w, Advance(i, move), fact))
  {
    match move {
      case ShareHandles(true) => ShareHolds(w, i, id, ns, fd);
      case Register(workPid, Some(fds)) => RegisterHolds(w, i, workPid, fds, id, ns, fd);
      case _ =>
    }
  }

  lemma ExitHolds(w: World, pid: int, key: string, id: string, ns: NamespaceType, fd: int)
    requires Found(w.sup, pid, key)
    ensures var fact := Holds(id, ns, fd);
      True(DoExit(w, pid, key), fact) <==> True(w, fact) && !Reaps(w, Exit(pid, Some(key)), id)
  {
  }

  lemma MoveShows(w: World, i: nat, move: Move, id: string, obj: Object)
    requires i < |w.starts| && CanMove(w.starts[i], move)
    ensures var fact := Shows(id, obj);
      True(DoAdvance(w, i, move), fact) <==>
        Makes(w, Advance(i, move), fact) || (True(w, fact) && !Unmakes(w, Advance(i, move), fact))
  {
  }

  lemma ExitShows(w: World, pid: int, key: string, id: string, obj: Object)
    requires Found(w.sup, pid, key)
    ensures var fact := Shows(id, obj);
      True(DoExit(w, pid, key), fact) <==> True(w, fact) && !Reaps(w, Exit(pid, Some(key)), id)
  {
  }

  // A fact holds after a step that makes it, and after one that does not unmake it if it held.
  lemma StepFact(w: World, step: Step, fact: Fact)
    requires Enabled(w, step)
    ensures True(Do(w, step), fact) <==> Makes(w, step, fact) || (True(w, fact) && !Unmakes(w, step, fact))
  {
    match (step, fact) {
      case (Advance(i, move), Holds(id, ns, fd)) => MoveHolds(w, i, move, id, ns, fd);
      case (Advance(i, move), Shows(id, obj)) => MoveShows(w, i, move, id, obj);
      case (Exit(pid, Some(key)), Holds(id, ns, fd)) => ExitHolds(w, pid, key, id, ns, fd);
      case (Exit(pid, Some(key)), Shows(id, obj)) => ExitShows(w, pid, key, id, obj);
      case (_, _) =>
    }
  }

  // ---- whole runs -------------------------------------------------------------------------------

  ghost predicate MadeAt(base: IP, steps: seq<Step>, n: nat, fact: Fact) {
    n < |steps| && Run(base, steps[..n]).Some? && Makes(Run(base, steps[..n]).value, steps[n], fact)
  }

  ghost predicate UnmadeAt(base: IP, steps: seq<Step>, n: nat, fact: Fact) {
    n < |steps| && Run(base, steps[..n]).Some? && Unmakes(Run(base, steps[..n]).value, steps[n], fact)
  }

  // Step n made the fact, and none after it unmade it.
  ghost predicate Since(base: IP, steps: seq<Step>, n: nat, fact: Fact) {
    MadeAt(base, steps, n, fact) && forall m: nat :: n < m < |steps| ==> !UnmadeAt(base, steps, m, fact)
  }

  lemma AtPrefix(base: IP, steps: seq<Step>, n: nat, fact: Fact)
    requires steps != [] && n < |steps| - 1
    ensures var past := steps[..|steps| - 1];
      && (MadeAt(base, steps, n, fact) <==> MadeAt(base, past, n, fact))
      && (UnmadeAt(base, steps, n, fact) <==> UnmadeAt(base, past, n, fact))
  {
    assert steps[..|steps| - 1][..n] == steps[..n];
  }

  lemma SinceOneMore(base: IP, steps: seq<Step>, n: nat, fact: Fact)
    requires steps != []
    ensures var last := |steps| - 1;
      Since(base, steps, n, fact) <==>
        if n == last then MadeAt(base, steps, last, fact)
        else Since(base, steps[..last], n, fact) && !UnmadeAt(base, steps, last, fact)
  {
    var last := |steps| - 1;
    forall m: nat | m < last
      ensures MadeAt(base, steps, m, fact) <==> MadeAt(base, steps[..last], m, fact)
      ensures UnmadeAt(base, steps, m, fact) <==> UnmadeAt(base, steps[..last], m, fact)
    {
      AtPrefix(base, steps, m, fact);
    }
  }

  // Main result: a fact is true at the end of a run if and only if some step made it and no
  // later one unmade it.  So a handle is held, on the descriptor last reported for it, from a
  // start call's registration until its owner is reaped; and the map shows under an ID the
  // object last stored there since it was last reaped.
  lemma {:induction false} TrueIffSince(base: IP, steps: seq<Step>, w: World, fact: Fact)
    requires Run(base, steps) == Some(w)
    ensures True(w, fact) <==> exists n: nat :: Since(base, steps, n, fact)
  {
    if steps != [] {
      var last := |steps| - 1;
      var past := Run(base, steps[..last]).value;
      TrueIffSince(base, steps[..last], past, fact);
      StepFact(past, steps[last], fact);
      forall n: nat
        ensures Since(base, steps, n, fact) <==>
          if n == last then MadeAt(base, steps, last, fact)
          else Since(base, steps[..last], n, fact) && !UnmadeAt(base, steps, last, fact)
      {
        SinceOneMore(base, steps, n, fact);
      }
      if n: nat :| Since(base, steps[..last], n, fact) {
        assert n != last && (Since(base, steps, n, fact) <==> !UnmadeAt(base, steps, last, fact));
      }
      assert Since(base, steps, last, fact) <==> MadeAt(base, steps, last, fact);
    }
  }

  // What an object in the map says, in the terms of its start call.
  lemma ObjectSays(base: IP, steps: seq<Step>, w: World, id: string)
    requires Run(base, steps) == Some(w) && id in w.sup.containers
    ensures var c := w.sup.containers[id];
      c.self.start < |w.starts| && var s := w.starts[c.self.start];
      && s.spec.id == id
      && (c.self.stage == Initializing ==> c.spec.None? && c.initPid == 0 && c.workloadPid == 0 && c.net.None?)
      && (c.self.stage != Initializing ==> c.spec == Some(s.spec) && c.initPid == s.initPid)
      && (c.self.stage == Created ==> c.workloadPid == 0 && c.net.None? && c.ipc.None?)
      && (c.self.stage == Running ==>
           c.workloadPid == s.workPid && c.net == s.net && (c.ipc.None? || c.ipc == Some(c.self.start)))
  {
    RunPipes(base, steps);
    assert Stored(w.starts, id, w.sup.containers[id]);
  }

  // ---- counts ---------------------------------------------------------------------------------------

  function VisitsOf(w: World, step: Step, id: string, ns: NamespaceType): nat {
    match step
    case Advance(i, ShareHandles(true)) =>
      if i < |w.starts| then Handles.VisitsBy(w.sup.handles, w.starts[i].spec.shares, id, ns) else 0
    case _ => 0
  }

  lemma ShareCounts(table: Handles.Table, shares: seq<ShareSpec>, id: string, ns: NamespaceType)
    requires Handles.Holds(table, id, ns)
    ensures var t := Handles.Share(table, shares);
      Handles.Holds(t, id, ns) && t[id][ns].refs == table[id][ns].refs + Handles.VisitsBy(table, shares, id, ns)
  {
    if shares != [] && shares[0].from == id {
      Handles.VisitCounts(table[id], ShareList(shares), ns);
    }
  }

  lemma MoveCounts(w: World, i: nat, move: Move, id: string, ns: NamespaceType)
    requires i < |w.starts| && CanMove(w.starts[i], move) && Handles.Holds(DoAdvance(w, i, move).sup.handles, id, ns)
    ensures var refs, step := DoAdvance(w, i, move).sup.handles[id][ns].refs, Advance(i, move);
      if Registers(w, step, id, ns).Some? then refs == 1
      else Handles.Holds(w.sup.handles, id, ns) && refs == w.sup.handles[id][ns].refs + VisitsOf(w, step, id, ns)
  {
    var s := w.starts[i];
    match move {
      case ShareHandles(true) =>
        AppliedOne(w.sup.handles, Handles.Shared(s.spec.shares));
        ShareKeepsFds(w.sup.handles, s.spec.shares, id, ns);
        ShareCounts(w.sup.handles, s.spec.shares, id, ns);
      case Register(_, Some(fds)) =>
        AppliedOne(w.sup.handles, Handles.Registered(s.spec.id, fds));
        Handles.RegisterSets(w.sup.handles, s.spec.id, fds, id, ns);
      case _ =>
    }
  }

  lemma ExitCounts(w: World, pid: int, key: string, id: string, ns: NamespaceType)
    requires Found(w.sup, pid, key) && Handles.Holds(DoExit(w, pid, key).sup.handles, id, ns)
    ensures Handles.Holds(w.sup.handles, id, ns) && DoExit(w, pid, key).sup.handles[id][ns] == w.sup.handles[id][ns]
  {
  }

  // One step: a registration sets the count to one, a share loop adds its visits, and nothing
  // else changes it.
  lemma StepCounts(w: World, step: Step, id: string, ns: NamespaceType)
    requires Enabled(w, step) && Handles.Holds(Do(w, step).sup.handles, id, ns)
    ensures var refs := Do(w, step).sup.handles[id][ns].refs;
      if Registers(w, step, id, ns).Some? then refs == 1
      else Handles.Holds(w.sup.handles, id, ns) && refs == w.sup.handles[id][ns].refs + VisitsOf(w, step, id, ns)
  {
    match step {
      case Advance(i, move) => MoveCounts(w, i, move, id, ns);
      case Exit(pid, Some(key)) => ExitCounts(w, pid, key, id, ns);
      case _ =>
    }
  }

  lemma ThreeReached(keys: set<NamespaceType>, ns: NamespaceType)
    requires {NSUser, NSNet, NSMnt} <= keys
    ensures Handles.Reached(keys, [NSUser, NSNet, NSMnt]) == 3
    ensures Handles.Occurrences([NSUser, NSNet, NSMnt], ns) == if ns in {NSUser, NSNet, NSMnt} then 1 else 0
  {
    assert [NSUser, NSNet, NSMnt][1..] == [NSNet, NSMnt];
    assert [NSNet, NSMnt][1..] == [NSMnt] && [NSMnt][1..] == [];
    assert Handles.Reached(keys, [NSMnt]) == 1 && Handles.Reached(keys, [NSNet, NSMnt]) == 2;
    assert Handles.Occurrences([NSMnt], ns) == if ns == NSMnt then 1 else 0;
    assert Handles.Occurrences([NSNet, NSMnt], ns) == if ns == NSNet || ns == NSMnt then 1 else 0;
  }

  // A joiner's start call visits each of the three handles it shares once.
  lemma JoinerVisits(w: World, i: nat, joiner: string, root: string, ns: NamespaceType)
    requires i < |w.starts| && w.starts[i].spec == JoinerSpec(joiner, root)
    requires root in w.sup.handles && {NSUser, NSNet, NSMnt} <= w.sup.handles[root].Keys
    ensures VisitsOf(w, Advance(i, ShareHandles(true)), root, ns) == if ns in {NSUser, NSNet, NSMnt} then 1 else 0
  {
    var types := ShareList(w.starts[i].spec.shares);
    assert types == [NSUser, NSNet, NSMnt] && types[..3] == types;
    ThreeReached(w.sup.handles[root].Keys, ns);
  }

  // ---- a creator's joiners ----------------------------------------------------------------------------

  ghost predicate ReapedAt(base: IP, steps: seq<Step>, n: nat, id: string) {
    n < |steps| && Run(base, steps[..n]).Some? && Reaps(Run(base, steps[..n]).value, steps[n], id)
  }

  lemma StepKeepsHeld(w: World, step: Step, id: string, ns: NamespaceType)
    requires Enabled(w, step) && !Reaps(w, step, id)
    requires Handles.Holds(w.sup.handles, id, ns) || Registers(w, step, id, ns).Some?
    ensures Handles.Holds(Do(w, step).sup.handles, id, ns)
  {
    if Registers(w, step, id, ns).Some? {
      StepFact(w, step, Holds(id, ns, Registers(w, step, id, ns).value));
    } else {
      StepFact(w, step, Holds(id, ns, w.sup.handles[id][ns].fd));
    }
  }

  ghost predicate NotReapedAfter(base: IP, steps: seq<Step>, n: nat, id: string) {
    forall m: nat :: n < m < |steps| ==> !ReapedAt(base, steps, m, id)
  }

  lemma NotReapedPrefix(base: IP, steps: seq<Step>, n: nat, id: string)
    requires n < |steps| - 1 && NotReapedAfter(base, steps, n, id)
    ensures NotReapedAfter(base, steps[..|steps| - 1], n, id)
    ensures !ReapedAt(base, steps, |steps| - 1, id)
  {
    var last := |steps| - 1;
    forall m: nat | n < m < last ensures !ReapedAt(base, steps[..last], m, id) {
      assert steps[..last][..m] == steps[..m];
      assert !ReapedAt(base, steps, m, id);
    }
  }

  ghost predicate RegisteredAt(base: IP, steps: seq<Step>, n: nat, id: string, ns: NamespaceType) {
    n < |steps| && Run(base, steps[..n]).Some? && Registers(Run(base, steps[..n]).value, steps[n], id, ns).Some?
  }

  lemma LastKeepsHeld(base: IP, steps: seq<Step>, id: string, ns: NamespaceType)
    requires steps != [] && Run(base, steps).Some? && !ReapedAt(base, steps, |steps| - 1, id)
    requires
      || RegisteredAt(base, steps, |steps| - 1, id, ns)
      || Handles.Holds(Run(base, steps[..|steps| - 1]).value.sup.handles, id, ns)
    ensures Handles.Holds(Run(base, steps).value.sup.handles, id, ns)
  {
    StepKeepsHeld(Run(base, steps[..|steps| - 1]).value, steps[|steps| - 1], id, ns);
  }

  lemma {:induction false} StaysHeld(base: IP, steps: seq<Step>, n: nat, id: string, ns: NamespaceType)
    requires Run(base, steps).Some? && RegisteredAt(base, steps, n, id, ns) && NotReapedAfter(base, steps, n, id)
    ensures Handles.Holds(Run(base, steps).value.sup.handles, id, ns)
  {
    var last := |steps| - 1;
    if n < last {
      NotReapedPrefix(base, steps, n, id);
      assert steps[..last][..n] == steps[..n];
      StaysHeld(base, steps[..last], n, id, ns);
    }
    LastKeepsHeld(base, steps, id, ns);
  }

  ghost predicate CreatorSpecs(starts: seq<Start>) {
    forall i :: 0 <= i < |starts| && Creates(starts[i].kind) ==> starts[i].spec == CreatorSpec(starts[i].spec.id)
  }

  lemma StepCreatorSpecs(w: World, step: Step)
    requires CreatorSpecs(w.starts) && Enabled(w, step)
    ensures CreatorSpecs(Do(w, step).starts)
  {
    var v := Do(w, step);
    forall i | 0 <= i < |v.starts| && Creates(v.starts[i].kind) ensures v.starts[i].spec == CreatorSpec(v.starts[i].spec.id) {
      if i < |w.starts| {
        StepContinues(w, step, i);
      }
    }
  }

  lemma {:induction false} RunCreatorSpecs(base: IP, steps: seq<Step>)
    requires Run(base, steps).Some?
    ensures CreatorSpecs(Run(base, steps).value.starts)
  {
    if steps != [] {
      var n := |steps| - 1;
      RunCreatorSpecs(base, steps[..n]);
      StepCreatorSpecs(Run(base, steps[..n]).value, steps[n]);
    }
  }

  // Main result, end to end: once a creator's start call has registered a report of all the
  // namespaces it created, and until that creator is reaped, no start of a joiner of it can
  // block, whatever else has run.
  lemma JoinersOfRunCompatible(
      base: IP, steps: seq<Step>, n: nat, u: World, i: nat, workPid: int, fds: map<NamespaceType, int>, joiner: string)
    requires Run(base, steps).Some? && n < |steps| && Run(base, steps[..n]) == Some(u)
    requires steps[n] == Advance(i, Register(workPid, Some(fds))) && i < |u.starts| && Creates(u.starts[i].kind)
    requires fds.Keys == Wanted(u.starts[i].spec) - ShareTypes(u.starts[i].spec)
    requires NotReapedAfter(base, steps, n, u.starts[i].spec.id)
    ensures var spec, table := JoinerSpec(joiner, u.starts[i].spec.id), Run(base, steps).value.sup.handles;
      Handshake.Compatible(Handshake.Config(spec, Handles.OwnedOf(table, spec.shares[0].from)))
  {
    var id, table := u.starts[i].spec.id, Run(base, steps).value.sup.handles;
    RunCreatorSpecs(base, steps[..n]);
    forall ns | ns in {NSUser, NSNet, NSMnt} ensures Handles.Holds(table, id, ns) {
      CreatorCoversJoiner(id, joiner);
      HandshakeProofs.JoinerShares(joiner, id);
      assert ns in fds;
      StaysHeld(base, steps, n, id, ns);
    }
    ThreeSuffice(table, id, joiner);
  }

  lemma ThreeSuffice(table: Handles.Table, id: string, joiner: string)
    requires forall ns :: ns in {NSUser, NSNet, NSMnt} ==> Handles.Holds(table, id, ns)
    ensures var spec := JoinerSpec(joiner, id);
      Handshake.Compatible(Handshake.Config(spec, Handles.OwnedOf(table, spec.shares[0].from)))
  {
    assert Handles.Holds(table, id, NSUser) && Handles.Holds(table, id, NSNet) && Handles.Holds(table, id, NSMnt);
    assert {NSUser, NSNet, NSMnt} <= Handles.OwnedOf(table, id).Keys;
    HandshakeProofs.OrchestratorSpecsCompatible(joiner, id, Handles.OwnedOf(table, id));
  }
}
