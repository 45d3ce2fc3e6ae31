// Whole runs again, for the addresses: who holds each address the allocator counts as used.
// Runs are disciplined: commands are typed one at a time, and no exit is handled while one
// that starts a creator is in progress.  lib/ntw/network.go, lib/ntw/network_cleanup.go,
// sup/supervisor.go, lines 119-155; sup/clean.go, lines 63-93; sup/orchestrator.go.
module Addresses {
  import opened Prelude
  import opened Namespaces
  import opened ContainerId
  import opened IpAllocator
  import opened Reaper
  import opened Lifecycle

  // ---- discipline ------------------------------------------------------------------

  predicate InProgress(s: Start) {
    Creates(s.kind) && s.pc != PReturned && s.pc != PFailed
  }

  predicate NoCommand(w: World) {
    forall i :: 0 <= i < |w.starts| ==> !InProgress(w.starts[i])
  }

  function SpecIds(containers: Containers): map<string, Option<string>> {
    map id | id in containers :: if containers[id].spec.Some? then Some(containers[id].spec.value.id) else None
  }

  // GetNextPodLetter's error is ignored: the letter is then empty.
  function LetterText(r: NextLetter): string {
    if r.Letter? then r.letter else ""
  }

  ghost predicate CreatorName(containers: Containers, id: string) {
    exists r :: IsNextLetter(SpecIds(containers), r) && r != NilSpec && id == PREFIX + LetterText(r) + "1"
  }

  predicate NamesJoiner(containers: Containers, letter: string, id: string, root: string) {
    && letter != "" && root == PREFIX + letter + "1"
    && root in containers && containers[root].spec.Some?
    && id == PREFIX + letter + Decimal(IndexFor(containers.Keys, letter))
  }

  ghost predicate Disciplined(w: World, step: Step) {
    match step
    case Begin(kind, id, root) =>
      && NoCommand(w)
      && (if Creates(kind) then CreatorName(w.sup.containers, id)
          else exists letter :: NamesJoiner(w.sup.containers, letter, id, root))
    case Exit(_, _) => NoCommand(w)
    case _ => true
  }

  ghost predicate DisciplinedRun(base: IP, steps: seq<Step>) {
    steps == [] ||
    (var n := |steps| - 1;
     && DisciplinedRun(base, steps[..n])
     && Run(base, steps).Some?
     && Run(base, steps[..n]).Some? && Disciplined(Run(base, steps[..n]).value, steps[n]))
  }

  // ---- who holds an address ------------------------------------------------------------

  datatype Holder = ByStart(i: nat) | InMap(id: string) | ParkedFor(pod: string)

  // A creator being finalised, a container in the map, or a pod whose creator is gone.
  function HeldBy(w: World, h: Holder): Option<IP> {
    match h
    case ByStart(i) =>
      if i < |w.starts| && (w.starts[i].pc == PAllocated || w.starts[i].pc == PConfigured) then w.starts[i].net else None
    case InMap(id) => if id in w.sup.containers then w.sup.containers[id].net else None
    case ParkedFor(pod) => if pod in w.sup.parked then Some(w.sup.parked[pod]) else None
  }

  ghost predicate IsHeld(w: World, ip: IP) {
    exists h :: HeldBy(w, h) == Some(ip)
  }

  // The used set is the disjoint union of the addresses held.
  ghost predicate Conserved(w: World) {
    && (forall ip :: ip in w.sup.pool.used <==> IsHeld(w, ip))
    && (forall g, h :: HeldBy(w, g).Some? && HeldBy(w, g) == HeldBy(w, h) ==> g == h)
  }

  lemma SameHolders(w: World, v: World)
    requires Conserved(w) && v.sup.pool.used == w.sup.pool.used
    requires forall h :: HeldBy(v, h) == HeldBy(w, h)
    ensures Conserved(v)
  {
    forall ip ensures IsHeld(v, ip) <==> IsHeld(w, ip) {
      if h :| HeldBy(w, h) == Some(ip) { assert HeldBy(v, h) == Some(ip); }
      if h :| HeldBy(v, h) == Some(ip) { assert HeldBy(w, h) == Some(ip); }
    }
  }

  lemma HolderGains(w: World, v: World, to: Holder, ip: IP)
    requires Conserved(w) && ip !in w.sup.pool.used && v.sup.pool.used == w.sup.pool.used + {ip}
    requires HeldBy(w, to) == None && HeldBy(v, to) == Some(ip)
    requires forall h :: h != to ==> HeldBy(v, h) == HeldBy(w, h)
    ensures Conserved(v)
  {
    forall a ensures a in v.sup.pool.used <==> IsHeld(v, a) {
      if h :| HeldBy(w, h) == Some(a) { assert HeldBy(v, h) == Some(a); }
      if h :| HeldBy(v, h) == Some(a) { assert h == to || HeldBy(w, h) == Some(a); }
    }
    forall g, h | HeldBy(v, g).Some? && HeldBy(v, g) == HeldBy(v, h) ensures g == h {
      assert g != to ==> IsHeld(w, HeldBy(v, g).value);
      assert h != to ==> IsHeld(w, HeldBy(v, h).value);
    }
  }

  lemma HolderDrops(w: World, v: World, from: Holder)
    requires Conserved(w) && HeldBy(w, from).Some? && HeldBy(v, from) == None
    requires v.sup.pool.used == w.sup.pool.used - {HeldBy(w, from).value}
    requires forall h :: h != from ==> HeldBy(v, h) == HeldBy(w, h)
    ensures Conserved(v)
  {
    forall a ensures a in v.sup.pool.used <==> IsHeld(v, a) {
      if h :| HeldBy(w, h) == Some(a) { assert h == from || HeldBy(v, h) == Some(a); }
      if h :| HeldBy(v, h) == Some(a) { assert HeldBy(w, h) == Some(a); }
    }
  }

  lemma HolderPasses(w: World, v: World, from: Holder, to: Holder)
    requires Conserved(w) && v.sup.pool.used == w.sup.pool.used && from != to
    requires HeldBy(w, from).Some? && HeldBy(w, to) == None
    requires HeldBy(v, to) == HeldBy(w, from) && HeldBy(v, from) == None
    requires forall h :: h != from && h != to ==> HeldBy(v, h) == HeldBy(w, h)
    ensures Conserved(v)
  {
    forall a ensures a in v.sup.pool.used <==> IsHeld(v, a) {
      if h :| HeldBy(w, h) == Some(a) { assert HeldBy(v, h) == Some(a) || HeldBy(v, to) == Some(a); }
      if h :| HeldBy(v, h) == Some(a) { assert HeldBy(w, h) == Some(a) || HeldBy(w, from) == Some(a); }
    }
  }

  // An address still used after its holder let go of it is lost.
  lemma HolderLoses(w: World, v: World, from: Holder)
    requires Conserved(w) && HeldBy(w, from).Some?
    requires HeldBy(w, from).value in v.sup.pool.used
    requires forall h :: HeldBy(v, h) == None || (h != from && HeldBy(v, h) == HeldBy(w, h))
    ensures !Conserved(v)
  {
    assert !IsHeld(v, HeldBy(w, from).value);
  }

  // ---- what disciplined runs keep ------------------------------------------------------------

  predicate IsCreatorId(id: string) {
    id == PREFIX + "1" || (Split(id).Some? && Split(id).value.index == "1")
  }

  predicate IsJoinerId(id: string) {
    Split(id).Some? && Split(id).value.index != "1"
  }

  predicate NetFits(s: Start) {
    s.net.Some? ==> Creates(s.kind) && Rank(s.pc) >= 6
  }

  predicate StartFits(s: Start) {
    && SpecFits(s)
    && (if Creates(s.kind) then IsCreatorId(s.spec.id) else IsJoinerId(s.spec.id))
    && NetFits(s)
  }

  ghost predicate StartsInv(starts: seq<Start>) {
    && (forall i :: 0 <= i < |starts| ==> StartFits(starts[i]))
    && (forall i, j :: 0 <= i < |starts| && 0 <= j < |starts| && InProgress(starts[i]) && InProgress(starts[j]) ==> i == j)
  }

  // The creator being started: its entry in the map is its own, once it has one.
  predicate OwnsEntry(containers: Containers, i: nat, s: Start) {
    var id := s.spec.id;
    && (Rank(s.pc) < 4 && Split(id).Some? ==> id !in containers)
    && (4 <= Rank(s.pc) ==> id in containers)
    && (4 <= Rank(s.pc) < 8 ==> containers[id].self == Object(i, Created))
    && (8 <= Rank(s.pc) ==> containers[id].self == Object(i, Running))
  }

  // And its pod is new.
  predicate CreatorOwns(w: World, i: nat)
    requires i < |w.starts|
  {
    && OwnsEntry(w.sup.containers, i, w.starts[i])
    && (Split(w.starts[i].spec.id).Some? ==> PodName(w.starts[i].spec.id) !in w.sup.parked)
  }

  ghost predicate CreatorsOwn(w: World) {
    forall i :: 0 <= i < |w.starts| && InProgress(w.starts[i]) ==> CreatorOwns(w, i)
  }

  ghost predicate NetsUnparked(w: World) {
    forall id :: id in w.sup.containers && w.sup.containers[id].net.Some? && Split(id).Some? ==> PodName(id) !in w.sup.parked
  }

  ghost predicate Orderly(w: World) {
    AllStored(w) && ParkedHasMember(w) && StartsInv(w.starts) && CreatorsOwn(w) && NetsUnparked(w)
  }

  // Only creators' containers carry addresses, and their names tell them apart by pod.
  lemma NetMeansCreator(w: World, id: string)
    requires AllStored(w) && StartsInv(w.starts) && id in w.sup.containers && w.sup.containers[id].net.Some?
    ensures IsCreatorId(id)
  {
    assert Stored(w.starts, id, w.sup.containers[id]);
    assert StartFits(w.starts[w.sup.containers[id].self.start]);
  }

  lemma CreatorIdByPod(a: string, b: string)
    requires IsCreatorId(a) && IsCreatorId(b) && Split(a).Some? && Split(b).Some? && PodName(a) == PodName(b)
    ensures a == b
  {
    BareIsNoId();
    SplitIff(a, Split(a).value);
    SplitIff(b, Split(b).value);
  }

  lemma BareIsNoId()
    ensures Split(PREFIX + "1") == None
  {
    assert (PREFIX + "1")[|PREFIX|..] == "1";
  }

  lemma JoinerIsNoCreator(a: string)
    requires IsJoinerId(a)
    ensures !IsCreatorId(a)
  {
    BareIsNoId();
  }

  // ---- each step keeps the start calls in order ------------------------------------------------

  lemma MoveKeepsName(s: Start, move: Move, pool: Pool)
    requires CanMove(s, move)
    ensures NextStart(s, move, pool).kind == s.kind && NextStart(s, move, pool).spec == s.spec
    ensures InProgress(NextStart(s, move, pool)) ==> InProgress(s)
  {
  }

  lemma MoveKeepsNet(s: Start, move: Move, pool: Pool)
    requires SpecFits(s) && NetFits(s) && CanMove(s, move)
    ensures NetFits(NextStart(s, move, pool))
  {
  }

  lemma MoveFits(s: Start, move: Move, pool: Pool)
    requires StartFits(s) && CanMove(s, move)
    ensures StartFits(NextStart(s, move, pool))
    ensures InProgress(NextStart(s, move, pool)) ==> InProgress(s)
  {
    MoveKeepsName(s, move, pool);
    MoveKeepsNet(s, move, pool);
  }

  lemma NamedCreatorFits(containers: Containers, id: string)
    requires CreatorName(containers, id)
    ensures IsCreatorId(id)
  {
    var r :| IsNextLetter(SpecIds(containers), r) && r != NilSpec && id == PREFIX + LetterText(r) + "1";
    if r.Letter? {
      FreshLetter(SpecIds(containers), r.letter);
    } else {
      assert PREFIX + "" == PREFIX;
    }
  }

  lemma NamedJoinerFits(w: World, letter: string, id: string, root: string)
    requires AllStored(w) && StartsInv(w.starts) && NamesJoiner(w.sup.containers, letter, id, root)
    ensures IsJoinerId(id)
  {
    var c := w.sup.containers[root];
    assert Stored(w.starts, root, c) && StartFits(w.starts[c.self.start]);
    assert |root| > |PREFIX + "1"|;
    JoinerName(w.sup.containers.Keys, letter, root);
  }

  lemma BeginFits(w: World, kind: Kind, id: string, root: string)
    requires AllStored(w) && StartsInv(w.starts) && Disciplined(w, Begin(kind, id, root))
    ensures StartsInv(DoBegin(w, kind, id, root).starts)
  {
    if Creates(kind) {
      NamedCreatorFits(w.sup.containers, id);
    } else {
      var letter :| NamesJoiner(w.sup.containers, letter, id, root);
      NamedJoinerFits(w, letter, id, root);
    }
  }

  lemma StepStarts(w: World, step: Step)
    requires AllStored(w) && StartsInv(w.starts) && Enabled(w, step) && Disciplined(w, step)
    ensures StartsInv(Do(w, step).starts)
  {
    match step {
      case Begin(kind, id, root) => BeginFits(w, kind, id, root);
      case Advance(i, move) => MoveFits(w.starts[i], move, w.sup.pool);
      case _ =>
    }
  }

  // ---- each step leaves the creator being started its own ----------------------------------------

  // Two starts that move at the same time store under different IDs.
  lemma MoversApart(starts: seq<Start>, i: nat, j: nat, move: Move)
    requires StartsInv(starts) && i < |starts| && j < |starts| && i != j
    requires InProgress(starts[i]) && CanMove(starts[j], move)
    ensures starts[i].spec.id != starts[j].spec.id
  {
    assert StartFits(starts[i]) && StartFits(starts[j]);
    assert !Creates(starts[j].kind);
    JoinerIsNoCreator(starts[j].spec.id);
  }

  lemma MoveElsewhere(containers: Containers, i: nat, s: Start, move: Move, id: string)
    requires id != s.spec.id
    ensures id in NextContainers(containers, i, s, move) <==> id in containers
    ensures id in containers ==> NextContainers(containers, i, s, move)[id] == containers[id]
  {
  }

  lemma MoveOwnsEntry(containers: Containers, i: nat, s: Start, move: Move, pool: Pool)
    requires Creates(s.kind) && CanMove(s, move) && OwnsEntry(containers, i, s)
    requires InProgress(NextStart(s, move, pool))
    ensures OwnsEntry(NextContainers(containers, i, s, move), i, NextStart(s, move, pool))
  {
  }

  lemma MoveOwns(w: World, j: nat, move: Move, i: nat)
    requires StartsInv(w.starts) && j < |w.starts| && CanMove(w.starts[j], move)
    requires i < |w.starts| && InProgress(w.starts[i]) && CreatorOwns(w, i)
    requires InProgress(DoAdvance(w, j, move).starts[i])
    ensures CreatorOwns(DoAdvance(w, j, move), i)
  {
    MoveContinues(w.starts[j], move, w.sup.pool);
    if i == j {
      MoveOwnsEntry(w.sup.containers, i, w.starts[i], move, w.sup.pool);
    } else {
      MoversApart(w.starts, i, j, move);
      MoveElsewhere(w.sup.containers, j, w.starts[j], move, w.starts[i].spec.id);
    }
  }

  lemma FreshPodIsEmpty(w: World, letter: string)
    requires AllStored(w) && IsNextLetter(SpecIds(w.sup.containers), Letter(letter))
    ensures Members(w.sup.containers, letter) == {}
    ensures Split(PREFIX + letter + "1") == Some(Parts(letter, "1"))
  {
    FreshLetter(SpecIds(w.sup.containers), letter);
    forall k | k in w.sup.containers && Split(k).Some? ensures Split(k).value.pod != letter {
      var c := w.sup.containers[k];
      assert Stored(w.starts, k, c);
      assert IsNextLetter(SpecIds(w.sup.containers), Letter(letter)) ==> SpecIds(w.sup.containers)[k].Some?;
      assert SpecIds(w.sup.containers)[k] == Some(k);
    }
  }

  // A new creator's name is new in the map, and its pod has nothing parked.
  lemma NewNameIsFree(w: World, id: string)
    requires AllStored(w) && ParkedHasMember(w) && CreatorName(w.sup.containers, id)
    ensures Split(id).Some? ==> id !in w.sup.containers && PodName(id) !in w.sup.parked
  {
    var r :| IsNextLetter(SpecIds(w.sup.containers), r) && r != NilSpec && id == PREFIX + LetterText(r) + "1";
    if r.Letter? {
      var letter := r.letter;
      FreshPodIsEmpty(w, letter);
      assert id in w.sup.containers ==> id in Members(w.sup.containers, letter);
    } else {
      assert PREFIX + "" == PREFIX;
      BareIsNoId();
    }
  }

  lemma NewCreatorOwns(w: World, kind: Kind, id: string, root: string)
    requires AllStored(w) && ParkedHasMember(w) && Creates(kind) && CreatorName(w.sup.containers, id)
    ensures CreatorOwns(DoBegin(w, kind, id, root), |w.starts|)
  {
    NewNameIsFree(w, id);
  }

  lemma StepOwns(w: World, step: Step)
    requires Orderly(w) && Enabled(w, step) && Disciplined(w, step)
    ensures CreatorsOwn(Do(w, step))
  {
    var v := Do(w, step);
    forall i | 0 <= i < |v.starts| && InProgress(v.starts[i]) ensures CreatorOwns(v, i) {
      match step {
        case Begin(kind, id, root) => if Creates(kind) { NewCreatorOwns(w, kind, id, root); }
        case Advance(j, move) =>
          MoveFits(w.starts[j], move, w.sup.pool);
          MoveOwns(w, j, move, i);
        case _ =>
      }
    }
  }

  // ---- each step keeps the creators' pods unparked ------------------------------------------------

  lemma MoveNet(w: World, j: nat, move: Move, id: string)
    requires AllStored(w) && StartsInv(w.starts) && CreatorsOwn(w)
    requires j < |w.starts| && CanMove(w.starts[j], move)
    requires id in DoAdvance(w, j, move).sup.containers
    requires DoAdvance(w, j, move).sup.containers[id].net.Some?
    ensures (id in w.sup.containers && w.sup.containers[id].net.Some?) || (id == w.starts[j].spec.id && InProgress(w.starts[j]))
  {
    assert StartFits(w.starts[j]);
  }

  // An exit parks at most the address of the container it reaps, for that container's pod.
  lemma ExitParks(s: Sup, pid: int, key: string, pod: string)
    requires Found(s, pid, key) && pod in ChildExit(s, pid, key).parked
    ensures var id := s.containers[key].spec.value.id;
      pod in s.parked || (s.containers[key].net.Some? && Split(id).Some? && PodName(id) == pod)
  {
  }

  // Two containers with addresses are in different pods.
  lemma NetsApart(w: World, key: string, id: string)
    requires AllStored(w) && StartsInv(w.starts)
    requires key in w.sup.containers && w.sup.containers[key].net.Some? && Split(key).Some?
    requires id in w.sup.containers && w.sup.containers[id].net.Some? && Split(id).Some?
    requires key != id
    ensures PodName(key) != PodName(id)
  {
    NetMeansCreator(w, id);
    NetMeansCreator(w, key);
    SamePodSameCreator(key, id);
  }

  lemma SpecNamesKey(w: World, key: string)
    requires AllStored(w) && key in w.sup.containers && w.sup.containers[key].spec.Some?
    ensures w.sup.containers[key].spec.value.id == key
  {
    assert Stored(w.starts, key, w.sup.containers[key]);
  }

  lemma ExitUnparked(w: World, pid: int, key: string, id: string)
    requires AllStored(w) && StartsInv(w.starts) && NetsUnparked(w) && Found(w.sup, pid, key)
    requires id in w.sup.containers && id != key && w.sup.containers[id].net.Some? && Split(id).Some?
    ensures PodName(id) !in ChildExit(w.sup, pid, key).parked
  {
    SpecNamesKey(w, key);
    if w.sup.containers[key].net.Some? && Split(key).Some? {
      NetsApart(w, key, id);
    }
    if PodName(id) in ChildExit(w.sup, pid, key).parked {
      ExitParks(w.sup, pid, key, PodName(id));
    }
  }

  // A container still there was not reaped.
  lemma StaysUnparked(w: World, pid: int, key: string)
    requires AllStored(w) && Found(w.sup, pid, key) && key in ChildExit(w.sup, pid, key).containers
    ensures ChildExit(w.sup, pid, key).parked == w.sup.parked
  {
    SpecNamesKey(w, key);
  }

  lemma SamePodSameCreator(a: string, b: string)
    ensures IsCreatorId(a) && IsCreatorId(b) && Split(a).Some? && Split(b).Some? && PodName(a) == PodName(b) ==> a == b
  {
    if IsCreatorId(a) && IsCreatorId(b) && Split(a).Some? && Split(b).Some? && PodName(a) == PodName(b) {
      CreatorIdByPod(a, b);
    }
  }

  lemma BeginUnparked(w: World, kind: Kind, id: string, root: string)
    requires NetsUnparked(w)
    ensures NetsUnparked(DoBegin(w, kind, id, root))
  {
  }

  lemma MoveUnparked(w: World, j: nat, move: Move)
    requires AllStored(w) && StartsInv(w.starts) && CreatorsOwn(w) && NetsUnparked(w)
    requires j < |w.starts| && CanMove(w.starts[j], move)
    ensures NetsUnparked(DoAdvance(w, j, move))
  {
    var v := DoAdvance(w, j, move);
    forall id | id in v.sup.containers && v.sup.containers[id].net.Some? && Split(id).Some?
      ensures PodName(id) !in v.sup.parked
    {
      MoveNet(w, j, move, id);
      assert InProgress(w.starts[j]) ==> CreatorOwns(w, j);
    }
  }

  lemma ExitKeepsUnparked(w: World, pid: int, key: string)
    requires AllStored(w) && StartsInv(w.starts) && NetsUnparked(w) && Found(w.sup, pid, key)
    ensures NetsUnparked(DoExit(w, pid, key))
  {
    var t := ChildExit(w.sup, pid, key);
    forall id | id in t.containers && t.containers[id].net.Some? && Split(id).Some?
      ensures PodName(id) !in t.parked
    {
      ExitStores(w.sup, pid, key, id);
      if id == key {
        StaysUnparked(w, pid, key);
      } else {
        ExitUnparked(w, pid, key, id);
      }
    }
  }

  lemma StepUnparked(w: World, step: Step)
    requires Orderly(w) && Enabled(w, step)
    ensures NetsUnparked(Do(w, step))
  {
    match step {
      case Begin(kind, id, root) => BeginUnparked(w, kind, id, root);
      case Advance(j, move) => MoveUnparked(w, j, move);
      case Exit(pid, Some(key)) => ExitKeepsUnparked(w, pid, key);
      case _ =>
    }
  }

  lemma StepOrderly(w: World, step: Step)
    requires Orderly(w) && Enabled(w, step) && Disciplined(w, step)
    ensures Orderly(Do(w, step))
  {
    StepAllStored(w, step);
    StepParked(w, step);
    StepStarts(w, step);
    StepOwns(w, step);
    StepUnparked(w, step);
  }

  // ---- each step conserves the addresses, or leaks one ------------------------------------------------

  // The two ways to drop the only reference to an address in use, both visible beforehand:
  // storing over a container that has one, and reaping one whose name is not in any pod.
  ghost predicate Leak(w: World, step: Step) {
    match step
    case Advance(i, Insert) =>
      i < |w.starts| && w.starts[i].spec.id in w.sup.containers && w.sup.containers[w.starts[i].spec.id].net.Some?
    case Exit(pid, Some(key)) =>
      && key in w.sup.containers
      && pid == w.sup.containers[key].initPid
      && w.sup.containers[key].net.Some? && Split(key) == None
    case _ => false
  }

  lemma BeginHolders(w: World, kind: Kind, id: string, root: string, h: Holder)
    requires kind == Joiner ==> HeldBy(w, InMap(id)) == None
    ensures HeldBy(DoBegin(w, kind, id, root), h) == HeldBy(w, h)
  {
  }

  lemma BeginConserves(w: World, kind: Kind, id: string, root: string)
    requires Orderly(w) && Conserved(w) && Disciplined(w, Begin(kind, id, root))
    ensures Conserved(DoBegin(w, kind, id, root))
  {
    if kind == Joiner {
      var letter :| NamesJoiner(w.sup.containers, letter, id, root);
      NamedJoinerFits(w, letter, id, root);
      JoinerEntryBare(w, id);
    }
    forall h ensures HeldBy(DoBegin(w, kind, id, root), h) == HeldBy(w, h) {
      BeginHolders(w, kind, id, root, h);
    }
    SameHolders(w, DoBegin(w, kind, id, root));
  }

  lemma JoinerEntryBare(w: World, id: string)
    requires AllStored(w) && StartsInv(w.starts) && IsJoinerId(id)
    ensures HeldBy(w, InMap(id)) == None
  {
    JoinerIsNoCreator(id);
    if id in w.sup.containers && w.sup.containers[id].net.Some? {
      NetMeansCreator(w, id);
    }
  }

  // What a start call publishes over holds no address.
  lemma PublishOverBare(w: World, i: nat)
    requires Orderly(w) && i < |w.starts| && w.starts[i].pc == PConfigured
    ensures HeldBy(w, InMap(w.starts[i].spec.id)) == None
  {
    var s := w.starts[i];
    assert StartFits(s);
    if Creates(s.kind) {
      assert CreatorOwns(w, i);
      assert Stored(w.starts, s.spec.id, w.sup.containers[s.spec.id]);
    } else {
      JoinerEntryBare(w, s.spec.id);
    }
  }

  lemma AllocateConserves(w: World, i: nat)
    requires Conserved(w) && i < |w.starts| && CanMove(w.starts[i], Allocate)
    ensures Conserved(DoAdvance(w, i, Allocate))
  {
    var v := DoAdvance(w, i, Allocate);
    var ip := v.starts[i].net;
    assert forall h :: h != ByStart(i) ==> HeldBy(v, h) == HeldBy(w, h);
    if ip.Some? {
      HolderGains(w, v, ByStart(i), ip.value);
    } else {
      SameHolders(w, v);
    }
  }

  lemma ConfigureConserves(w: World, i: nat, ok: bool)
    requires Conserved(w) && i < |w.starts| && CanMove(w.starts[i], Configure(ok))
    ensures Conserved(DoAdvance(w, i, Configure(ok)))
  {
    var v := DoAdvance(w, i, Configure(ok));
    assert forall h :: h != ByStart(i) ==> HeldBy(v, h) == HeldBy(w, h);
    if !ok && w.starts[i].net.Some? {
      HolderDrops(w, v, ByStart(i));
    } else {
      SameHolders(w, v);
    }
  }

  lemma PublishHolders(w: World, i: nat, h: Holder)
    requires i < |w.starts| && w.starts[i].pc == PConfigured && h != ByStart(i) && h != InMap(w.starts[i].spec.id)
    ensures HeldBy(DoAdvance(w, i, Publish), h) == HeldBy(w, h)
  {
  }

  lemma PublishConserves(w: World, i: nat)
    requires Orderly(w) && Conserved(w) && i < |w.starts| && CanMove(w.starts[i], Publish)
    ensures Conserved(DoAdvance(w, i, Publish))
  {
    var v := DoAdvance(w, i, Publish);
    var here := InMap(w.starts[i].spec.id);
    PublishOverBare(w, i);
    forall h | h != ByStart(i) && h != here ensures HeldBy(v, h) == HeldBy(w, h) {
      PublishHolders(w, i, h);
    }
    if w.starts[i].net.Some? {
      HolderPasses(w, v, ByStart(i), here);
    } else {
      SameHolders(w, v);
    }
  }

  lemma InsertConserves(w: World, i: nat)
    requires Conserved(w) && i < |w.starts| && CanMove(w.starts[i], Insert)
    ensures Conserved(DoAdvance(w, i, Insert)) <==> !Leak(w, Advance(i, Insert))
  {
    var v := DoAdvance(w, i, Insert);
    var here := InMap(w.starts[i].spec.id);
    assert forall h :: h != here ==> HeldBy(v, h) == HeldBy(w, h);
    if Leak(w, Advance(i, Insert)) {
      HolderLoses(w, v, here);
    } else {
      SameHolders(w, v);
    }
  }

  predicate MovesAddress(move: Move) {
    move.Insert? || move.Allocate? || move.Configure? || move.Publish?
  }

  lemma OtherMoveHolders(w: World, i: nat, move: Move, h: Holder)
    requires i < |w.starts| && CanMove(w.starts[i], move) && !MovesAddress(move)
    requires move == Return && Creates(w.starts[i].kind) ==> HeldBy(w, InMap(w.starts[i].spec.id)) == w.starts[i].net
    ensures HeldBy(DoAdvance(w, i, move), h) == HeldBy(w, h)
  {
  }

  // Every other move leaves every holder alone.
  lemma OtherMoveConserves(w: World, i: nat, move: Move)
    requires Orderly(w) && Conserved(w) && i < |w.starts| && CanMove(w.starts[i], move) && !MovesAddress(move)
    ensures Conserved(DoAdvance(w, i, move))
  {
    if move == Return && Creates(w.starts[i].kind) {
      ReturnsSame(w, i);
    }
    forall h ensures HeldBy(DoAdvance(w, i, move), h) == HeldBy(w, h) {
      OtherMoveHolders(w, i, move, h);
    }
    SameHolders(w, DoAdvance(w, i, move));
  }

  // A creator's object is still in the map when its command puts it there again.
  lemma ReturnsSame(w: World, i: nat)
    requires Orderly(w) && i < |w.starts| && CanMove(w.starts[i], Return) && Creates(w.starts[i].kind)
    ensures HeldBy(w, InMap(w.starts[i].spec.id)) == w.starts[i].net
  {
    assert CreatorOwns(w, i);
    assert Stored(w.starts, w.starts[i].spec.id, w.sup.containers[w.starts[i].spec.id]);
  }

  // The reaper's first half: the container leaves the map, and its address is parked.
  function Parking(w: World, key: string): World
    requires key in w.sup.containers
  {
    w.(sup := w.sup.(
      containers := w.sup.containers - {key},
      parked := ParkedWith(w.sup.parked, w.sup.containers[key], key)))
  }

  lemma ParkingConserves(w: World, key: string)
    requires Conserved(w) && NetsUnparked(w) && key in w.sup.containers
    requires w.sup.containers[key].net.Some? ==> Split(key).Some?
    ensures Conserved(Parking(w, key))
  {
    var v := Parking(w, key);
    if w.sup.containers[key].net.Some? {
      assert forall h :: h != InMap(key) && h != ParkedFor(PodName(key)) ==> HeldBy(v, h) == HeldBy(w, h);
      HolderPasses(w, v, InMap(key), ParkedFor(PodName(key)));
    } else {
      SameHolders(w, v);
    }
  }

  // Its second half: an empty pod's parked address goes back to the pool.
  lemma ReapFinishes(w: World, pid: int, key: string)
    requires Found(w.sup, pid, key) && pid == w.sup.containers[key].initPid
    requires w.sup.containers[key].spec.value.id == key
    ensures var m, t, pod := Parking(w, key).sup, ChildExit(w.sup, pid, key), PodName(key);
      var last := Empties(w.sup.containers, key);
      && t.containers == m.containers
      && t.parked == (if last then m.parked - {pod} else m.parked)
      && t.pool == (if last && pod in m.parked then Released(m.pool, Some(m.parked[pod])) else m.pool)
  {
  }

  lemma ReleaseConserves(m: World, v: World, pod: string, last: bool)
    requires Conserved(m) && v.starts == m.starts && v.sup.containers == m.sup.containers
    requires v.sup.parked == if last then m.sup.parked - {pod} else m.sup.parked
    requires v.sup.pool == if last && pod in m.sup.parked then Released(m.sup.pool, Some(m.sup.parked[pod])) else m.sup.pool
    ensures Conserved(v)
  {
    assert forall h :: h != ParkedFor(pod) ==> HeldBy(v, h) == HeldBy(m, h);
    if last && pod in m.sup.parked {
      HolderDrops(m, v, ParkedFor(pod));
    } else {
      SameHolders(m, v);
    }
  }

  lemma ReapLoses(w: World, v: World, key: string)
    requires Conserved(w) && key in w.sup.containers && w.sup.containers[key].net.Some?
    requires v.starts == w.starts && v.sup.containers == w.sup.containers - {key}
    requires v.sup.parked == w.sup.parked && v.sup.pool == w.sup.pool
    ensures !Conserved(v)
  {
    assert IsHeld(w, w.sup.containers[key].net.value) by {
      assert HeldBy(w, InMap(key)) == w.sup.containers[key].net;
    }
    HolderLoses(w, v, InMap(key));
  }

  lemma ReapConserves(w: World, pid: int, key: string)
    requires AllStored(w) && NetsUnparked(w) && Conserved(w) && Found(w.sup, pid, key)
    requires pid == w.sup.containers[key].initPid
    ensures Conserved(DoExit(w, pid, key)) <==> !Leak(w, Exit(pid, Some(key)))
  {
    assert Stored(w.starts, key, w.sup.containers[key]);
    ReapFinishes(w, pid, key);
    if Leak(w, Exit(pid, Some(key))) {
      ReapLoses(w, DoExit(w, pid, key), key);
    } else {
      ParkingConserves(w, key);
      ReleaseConserves(Parking(w, key), DoExit(w, pid, key), PodName(key), Empties(w.sup.containers, key));
    }
  }

  lemma ExitConserves(w: World, pid: int, key: string)
    requires Orderly(w) && Conserved(w) && Found(w.sup, pid, key)
    ensures Conserved(DoExit(w, pid, key)) <==> !Leak(w, Exit(pid, Some(key)))
  {
    if pid == w.sup.containers[key].initPid {
      ReapConserves(w, pid, key);
    } else {
      SameHolders(w, DoExit(w, pid, key));
    }
  }

  lemma MoveConserves(w: World, i: nat, move: Move)
    requires Orderly(w) && Conserved(w) && i < |w.starts| && CanMove(w.starts[i], move)
    ensures Conserved(DoAdvance(w, i, move)) <==> !Leak(w, Advance(i, move))
  {
    match move {
      case Allocate => AllocateConserves(w, i);
      case Configure(ok) => ConfigureConserves(w, i, ok);
      case Publish => PublishConserves(w, i);
      case Insert => InsertConserves(w, i);
      case _ => OtherMoveConserves(w, i, move);
    }
  }

  lemma KillConserves(w: World, id: string)
    requires Conserved(w)
    ensures Conserved(w.(sup := Killed(w.sup, id)))
  {
    SameHolders(w, w.(sup := Killed(w.sup, id)));
  }

  // Main result, for one step of a disciplined run: the used set stays the disjoint union of
  // the addresses held if and only if the step is not one of the two leaks.
  lemma StepConserves(w: World, step: Step)
    requires Orderly(w) && Conserved(w) && Enabled(w, step) && Disciplined(w, step)
    ensures Conserved(Do(w, step)) <==> !Leak(w, step)
  {
    match step {
      case Begin(kind, id, root) => BeginConserves(w, kind, id, root);
      case Advance(i, move) => MoveConserves(w, i, move);
      case Exit(pid, Some(key)) => ExitConserves(w, pid, key);
      case Exit(pid, None) =>
      case Kill(id) => KillConserves(w, id);
    }
  }

  // ---- whole disciplined runs ----------------------------------------------------------------------

  lemma {:induction false} RunOrderly(base: IP, steps: seq<Step>)
    requires DisciplinedRun(base, steps)
    ensures Run(base, steps).Some? && Orderly(Run(base, steps).value)
  {
    if steps != [] {
      var n := |steps| - 1;
      RunOrderly(base, steps[..n]);
      StepOrderly(Run(base, steps[..n]).value, steps[n]);
    }
  }

  ghost predicate LeakFree(base: IP, steps: seq<Step>) {
    steps == [] ||
    (var n := |steps| - 1;
     LeakFree(base, steps[..n]) && (Run(base, steps[..n]).Some? ==> !Leak(Run(base, steps[..n]).value, steps[n])))
  }

  ghost predicate ConservedAfter(base: IP, steps: seq<Step>) {
    Run(base, steps).Some? && Conserved(Run(base, steps).value)
  }

  ghost predicate ConservedThroughout(base: IP, steps: seq<Step>) {
    forall n :: 0 <= n <= |steps| ==> ConservedAfter(base, steps[..n])
  }

  lemma ThroughoutSplits(base: IP, steps: seq<Step>)
    requires steps != []
    ensures ConservedThroughout(base, steps)
       <==> ConservedThroughout(base, steps[..|steps| - 1]) && ConservedAfter(base, steps)
  {
    var past := steps[..|steps| - 1];
    assert steps[..|steps|] == steps;
    assert forall n :: 0 <= n <= |past| ==> past[..n] == steps[..n];
  }

  // Main result: a disciplined run conserves the addresses in every state if and only if none
  // of its steps is one of the two leaks.
  lemma {:induction false} ConservedIffLeakFree(base: IP, steps: seq<Step>)
    requires DisciplinedRun(base, steps)
    ensures ConservedThroughout(base, steps) <==> LeakFree(base, steps)
  {
    if steps == [] {
      assert steps[..0] == steps;
      assert forall h :: HeldBy(Initially(base), h) == None;
    } else {
      var n := |steps| - 1;
      ConservedIffLeakFree(base, steps[..n]);
      ThroughoutSplits(base, steps);
      RunOrderly(base, steps[..n]);
      if ConservedThroughout(base, steps[..n]) {
        assert steps[..n][..n] == steps[..n];
        assert ConservedAfter(base, steps[..n]);
        StepConserves(Run(base, steps[..n]).value, steps[n]);
      }
    }
  }

  // The command found a free letter: a creator is never named bctor-1.
  predicate Lettered(steps: seq<Step>) {
    forall k :: 0 <= k < |steps| && steps[k].Begin? ==> steps[k].id != PREFIX + "1"
  }

  ghost predicate AllInPods(starts: seq<Start>) {
    forall i :: 0 <= i < |starts| ==> starts[i].spec.id != PREFIX + "1"
  }

  lemma StepStaysInPods(w: World, step: Step)
    requires AllInPods(w.starts) && Enabled(w, step)
    requires step.Begin? ==> step.id != PREFIX + "1"
    ensures AllInPods(Do(w, step).starts)
  {
    var v := Do(w, step);
    forall i | 0 <= i < |v.starts| ensures v.starts[i].spec.id != PREFIX + "1" {
      if i < |w.starts| {
        StepContinues(w, step, i);
      }
    }
  }

  // Without such a name nothing is stored over an address, and every reaped one has a pod.
  lemma InPodsNoLeak(w: World, step: Step)
    requires Orderly(w) && AllInPods(w.starts) && Enabled(w, step)
    ensures !Leak(w, step)
  {
    match step {
      case Advance(i, Insert) =>
        var s := w.starts[i];
        assert StartFits(s);
        if Creates(s.kind) {
          assert CreatorOwns(w, i);
        } else {
          JoinerEntryBare(w, s.spec.id);
        }
      case Exit(pid, Some(key)) =>
        assert Stored(w.starts, key, w.sup.containers[key]);
        if w.sup.containers[key].net.Some? {
          NetMeansCreator(w, key);
        }
      case _ =>
    }
  }

  lemma {:induction false} LetteredLeakFree(base: IP, steps: seq<Step>)
    requires DisciplinedRun(base, steps) && Lettered(steps)
    ensures Run(base, steps).Some? && AllInPods(Run(base, steps).value.starts)
    ensures LeakFree(base, steps)
  {
    if steps != [] {
      var n := |steps| - 1;
      LetteredLeakFree(base, steps[..n]);
      RunOrderly(base, steps[..n]);
      StepStaysInPods(Run(base, steps[..n]).value, steps[n]);
      InPodsNoLeak(Run(base, steps[..n]).value, steps[n]);
    }
  }

  // Main result: while a letter is free for every new pod, after every disciplined run the
  // addresses counted as used are those held by creators being finalised, by containers in
  // the map and for pods whose creator is gone, and no address is held twice.
  lemma AddressesConserved(base: IP, steps: seq<Step>)
    requires DisciplinedRun(base, steps) && Lettered(steps)
    ensures Run(base, steps).Some?
    ensures var w := Run(base, steps).value;
      && (forall ip :: ip in w.sup.pool.used <==> exists h :: HeldBy(w, h) == Some(ip))
      && (forall g, h :: HeldBy(w, g).Some? && HeldBy(w, g) == HeldBy(w, h) ==> g == h)
  {
    LetteredLeakFree(base, steps);
    ConservedIffLeakFree(base, steps);
    assert steps[..|steps|] == steps;
    assert ConservedAfter(base, steps);
    var w := Run(base, steps).value;
    forall ip ensures ip in w.sup.pool.used <==> exists h :: HeldBy(w, h) == Some(ip) {
      assert ip in w.sup.pool.used <==> IsHeld(w, ip);
    }
  }
}
