// Whole runs of the supervisor: any number of start calls, each cut at its lock-held regions,
// interleaved with exits and kills in any order.  sup/supervisor.go, StartContainer and
// FinalizeContainer; sup/orchestrator.go, the four start functions; sup/commands.go, d_new and
// d_run; sup/clean.go, OnContainerExit.  IDs, PIDs and timing are arbitrary here.
module Lifecycle {
  import opened Prelude
  import opened Namespaces
  import opened ContainerId
  import opened IpAllocator
  import opened Reaper
  import Handles

  datatype Kind = Creator | BatchCreator | Joiner | BatchJoiner

  // How far a start call has come.
  datatype PC =
    | PBegun | PForked | PShared | PInserted | PRegistered | PAllocated | PConfigured
    | PPublished | PAttached | PFreed | PMarked | PReturned | PFailed

  // A start call and its local variables.  Call number i was given pipes number i.
  datatype Start = Start(
    kind: Kind, spec: ContainerSpec, initPid: int, workPid: int,
    created: map<NamespaceType, int>, net: Option<IP>, pc: PC)

  datatype World = World(sup: Sup, starts: seq<Start>, history: seq<Handles.Event>)

  // One lock-held region, or one visible action, of a start call.
  datatype Move =
    | Fork(child: Option<int>)
    | ShareHandles(mapsWritten: bool)
    | Insert
    | Register(workPid: int, fds: Option<map<NamespaceType, int>>)
    | Allocate
    | Configure(ok: bool)
    | Publish
    | Attach
    | FreePipe
    | MarkPipe
    | Return

  datatype Step =
    | Begin(kind: Kind, id: string, root: string)
    | Advance(i: nat, move: Move)
    | Exit(pid: int, found: Option<string>)
    | Kill(id: string)

  predicate Creates(kind: Kind) {
    kind == Creator || kind == BatchCreator
  }

  function SpecOf(kind: Kind, id: string, root: string): ContainerSpec {
    if Creates(kind) then CreatorSpec(id) else JoinerSpec(id, root)
  }

  // The three objects a start call may put in the map, at its three stages.
  function Placeholder(i: nat): Container {
    Container(Object(i, Initializing), None, 0, 0, None, None)
  }

  function CreatedObject(i: nat, s: Start): Container {
    Container(Object(i, Created), Some(s.spec), s.initPid, 0, None, None)
  }

  function RunningObject(i: nat, s: Start, ipc: Option<nat>): Container {
    Container(Object(i, Running), Some(s.spec), s.initPid, s.workPid, s.net, ipc)
  }

  // Only a creator writes ID maps.  Only the interactive creator keeps its pipe on return.
  predicate CanMove(s: Start, move: Move) {
    match move
    case Fork(child) => s.pc == PBegun && (child.Some? ==> child.value > 0)
    case ShareHandles(mapsWritten) => s.pc == PForked && (mapsWritten || Creates(s.kind))
    case Insert => s.pc == PShared
    case Register(_, _) => s.pc == PInserted
    case Allocate => s.pc == PRegistered
    case Configure(_) => s.pc == PAllocated
    case Publish => s.pc == PConfigured
    case Attach => s.pc == PPublished
    case FreePipe => s.pc == PAttached && s.kind != Creator
    case MarkPipe => s.pc == PFreed && s.kind != Creator
    case Return => s.pc == PMarked || (s.pc == PAttached && s.kind == Creator)
  }

  // NetworkConfig is reached by a net root whose network namespace was reported.
  predicate WantsAddress(s: Start) {
    s.spec.isNetRoot && NSNet in s.created && s.created[NSNet] != 0
  }

  function NextStart(s: Start, move: Move, pool: Pool): Start {
    match move
    case Fork(None) => s.(pc := PFailed)
    case Fork(Some(pid)) => s.(initPid := pid, pc := PForked)
    case ShareHandles(mapsWritten) => s.(pc := if mapsWritten then PShared else PFailed)
    case Insert => s.(pc := PInserted)
    case Register(workPid, fds) =>
      s.(workPid := workPid, created := if fds.Some? then fds.value else map[], pc := PRegistered)
    case Allocate => s.(net := if WantsAddress(s) then Allocated(pool).1 else None, pc := PAllocated)
    case Configure(ok) => s.(net := if ok then s.net else None, pc := PConfigured)
    case Publish => s.(pc := PPublished)
    case Attach => s.(pc := PAttached)
    case FreePipe => s.(pc := PFreed)
    case MarkPipe => s.(pc := PMarked)
    case Return => s.(pc := PReturned)
  }

  // The pipes are attached to the start's own object, which the map may no longer hold.
  // d_new and d_run put a creator's object in the map once more.
  function NextContainers(containers: Containers, i: nat, s: Start, move: Move): Containers {
    var id := s.spec.id;
    match move
    case Insert => containers[id := CreatedObject(i, s)]
    case Publish => containers[id := RunningObject(i, s, None)]
    case Attach =>
      if id in containers && containers[id].self == Object(i, Running)
      then containers[id := containers[id].(ipc := Some(i))] else containers
    case Return => if Creates(s.kind) then containers[id := RunningObject(i, s, Some(i))] else containers
    case _ => containers
  }

  // FreeFd of a start function, outside the lock: the number stays in place for one more move.
  function NextKeepAlive(k: KeepAlive, move: Move): KeepAlive {
    match move
    case FreePipe => if k.open then KeepAlive(true, k.frees + 1) else k
    case MarkPipe => k.(open := false)
    case _ => k
  }

  function NextPool(pool: Pool, s: Start, move: Move): Pool {
    match move
    case Allocate => if WantsAddress(s) then Allocated(pool).0 else pool
    case Configure(ok) => if ok then pool else Released(pool, s.net)
    case _ => pool
  }

  function TableEvents(s: Start, move: Move): seq<Handles.Event> {
    match move
    case ShareHandles(mapsWritten) => if mapsWritten then [Handles.Shared(s.spec.shares)] else []
    case Register(_, Some(fds)) => [Handles.Registered(s.spec.id, fds)]
    case _ => []
  }

  function Applied(table: Handles.Table, events: seq<Handles.Event>): Handles.Table
    decreases |events|
  {
    if events == [] then table else Applied(Handles.Apply(table, events[0]), events[1..])
  }

  function DoBegin(w: World, kind: Kind, id: string, root: string): World {
    var i := |w.starts|;
    World(
      w.sup.(containers := if kind == Joiner then w.sup.containers[id := Placeholder(i)] else w.sup.containers,
             keepAlive := w.sup.keepAlive[i := KeepAlive(true, 0)]),
      w.starts + [Start(kind, SpecOf(kind, id, root), 0, 0, map[], None, PBegun)],
      w.history)
  }

  function DoAdvance(w: World, i: nat, move: Move): World
    requires i < |w.starts|
  {
    var s := w.starts[i];
    World(
      w.sup.(containers := NextContainers(w.sup.containers, i, s, move),
             keepAlive := if i in w.sup.keepAlive then w.sup.keepAlive[i := NextKeepAlive(w.sup.keepAlive[i], move)]
                          else w.sup.keepAlive,
             handles := Applied(w.sup.handles, TableEvents(s, move)),
             pool := NextPool(w.sup.pool, s, move)),
      w.starts[i := NextStart(s, move, w.sup.pool)],
      w.history + TableEvents(s, move))
  }

  ghost function DoExit(w: World, pid: int, key: string): World
    requires Found(w.sup, pid, key)
  {
    var c := w.sup.containers[key];
    World(
      ChildExit(w.sup, pid, key),
      w.starts,
      w.history + if pid == c.initPid then [Handles.Reaped(c.spec.value.id)] else [])
  }

  ghost predicate Enabled(w: World, step: Step) {
    match step
    case Begin(_, _, _) => true
    case Advance(i, move) => i < |w.starts| && CanMove(w.starts[i], move)
    case Exit(pid, found) =>
      && pid > 0
      && (if found.Some? then Found(w.sup, pid, found.value) else forall key :: !Found(w.sup, pid, key))
    case Kill(_) => true
  }

  ghost function Do(w: World, step: Step): World
    requires Enabled(w, step)
  {
    match step
    case Begin(kind, id, root) => DoBegin(w, kind, id, root)
    case Advance(i, move) => DoAdvance(w, i, move)
    case Exit(pid, found) => if found.Some? then DoExit(w, pid, found.value) else w
    case Kill(id) => w.(sup := Killed(w.sup, id))
  }

  // ---- runs ------------------------------------------------------------------------

  function Initially(base: IP): World {
    World(Sup(map[], map[], map[], map[], map[], Fresh(base)), [], [])
  }

  // The state after a run, if every step was enabled in its turn.
  ghost function Run(base: IP, steps: seq<Step>): Option<World> {
    if steps == [] then Some(Initially(base))
    else
      var n := |steps| - 1;
      match Run(base, steps[..n])
      case None => None
      case Some(w) => if Enabled(w, steps[n]) then Some(Do(w, steps[n])) else None
  }

  // The exit step is the reaper's: its choice of container is the scan's.
  lemma ExitIsExitStep(w: World, pid: int, t: Sup)
    requires pid > 0
    ensures ExitStep(w.sup, pid, t)
       <==> exists found :: Enabled(w, Exit(pid, found)) && Do(w, Exit(pid, found)).sup == t
  {
    if exists key :: Found(w.sup, pid, key) {
      if ExitStep(w.sup, pid, t) {
        var key :| Found(w.sup, pid, key) && t == ChildExit(w.sup, pid, key);
        assert Enabled(w, Exit(pid, Some(key))) && Do(w, Exit(pid, Some(key))).sup == t;
      }
      if found :| Enabled(w, Exit(pid, found)) && Do(w, Exit(pid, found)).sup == t {
        assert Found(w.sup, pid, found.value) && t == ChildExit(w.sup, pid, found.value);
      }
    } else {
      assert Enabled(w, Exit(pid, None)) && Do(w, Exit(pid, None)).sup == w.sup;
    }
  }

  // ---- the parked-network invariant -----------------------------------------------------

  ghost predicate ParkedHasMember(w: World) {
    forall pod :: pod in w.sup.parked ==> Members(w.sup.containers, pod) != {}
  }

  // Nothing but an exit removes containers or touches the parked addresses.
  lemma OnlyExitRemoves(w: World, step: Step)
    requires Enabled(w, step) && !step.Exit?
    ensures w.sup.containers.Keys <= Do(w, step).sup.containers.Keys
    ensures Do(w, step).sup.parked == w.sup.parked
  {
  }

  lemma ReapParked(s: Sup, c: Container, id: string, pod: string)
    requires pod in s.parked ==> Members(s.containers, pod) != {}
    ensures var t := ReapInit(s, c, id); pod in t.parked ==> Members(t.containers, pod) != {}
  {
    MembersLess(s.containers, id, pod);
  }

  lemma StepParked(w: World, step: Step)
    requires ParkedHasMember(w) && Enabled(w, step)
    ensures ParkedHasMember(Do(w, step))
  {
    var v := Do(w, step);
    forall pod | pod in v.sup.parked ensures Members(v.sup.containers, pod) != {} {
      if step.Exit? {
        if step.found.Some? {
          var c := w.sup.containers[step.found.value];
          var t := if step.pid == c.workloadPid then w.sup.(keepAlive := Release(w.sup.keepAlive, c)) else w.sup;
          ReapParked(t, c, c.spec.value.id, pod);
        }
      } else {
        OnlyExitRemoves(w, step);
        var id :| id in Members(w.sup.containers, pod);
        assert id in Members(v.sup.containers, pod);
      }
    }
  }

  // Main result: after any run, a pod with a parked address still has a member.
  lemma {:induction false} ParkedOnlyWithMembers(base: IP, steps: seq<Step>)
    requires Run(base, steps).Some?
    ensures ParkedHasMember(Run(base, steps).value)
  {
    if steps != [] {
      var n := |steps| - 1;
      ParkedOnlyWithMembers(base, steps[..n]);
      StepParked(Run(base, steps[..n]).value, steps[n]);
    }
  }

  // ---- the forwards -------------------------------------------------------------------------

  // Main result: whatever has been forwarded, the forwards of a pod go exactly when the last of
  // its members does, and no step changes them otherwise.
  lemma ForwardsGoWithLast(w: World, step: Step, v: World, pod: string)
    requires AllStored(w) && Enabled(w, step) && v == Do(w, step)
    ensures pod in v.sup.forwards <==>
      pod in w.sup.forwards && !(Members(w.sup.containers, pod) != {} && Members(v.sup.containers, pod) == {})
    ensures pod in v.sup.forwards ==> v.sup.forwards[pod] == w.sup.forwards[pod]
  {
    if step.Exit? {
      assert Named(w.sup) by {
        forall k | k in w.sup.containers && w.sup.containers[k].spec.Some? ensures w.sup.containers[k].spec.value.id == k {
          assert Stored(w.starts, k, w.sup.containers[k]);
        }
      }
      ExitIsExitStep(w, step.pid, v.sup);
      ExitForwards(w.sup, step.pid, v.sup, pod);
    } else {
      OnlyExitRemoves(w, step);
      if id :| id in Members(w.sup.containers, pod) {
        assert id in Members(v.sup.containers, pod);
      }
    }
  }

  // ---- handle counts over runs -------------------------------------------------------------

  lemma {:induction false} ReplayAppend(history: seq<Handles.Event>, events: seq<Handles.Event>)
    ensures Handles.Replay(history + events) == Applied(Handles.Replay(history), events)
    decreases |events|
  {
    if events == [] {
      assert history + events == history;
    } else {
      var first := history + [events[0]];
      assert first[..|history|] == history;
      assert history + events == first + events[1..];
      ReplayAppend(first, events[1..]);
    }
  }

  lemma ReapHandles(s: Sup, pid: int, key: string)
    requires Found(s, pid, key)
    ensures var c := s.containers[key];
      ChildExit(s, pid, key).handles
      == Applied(s.handles, if pid == c.initPid then [Handles.Reaped(c.spec.value.id)] else [])
  {
  }

  lemma StepHandles(w: World, step: Step)
    requires w.sup.handles == Handles.Replay(w.history) && Enabled(w, step)
    ensures Do(w, step).sup.handles == Handles.Replay(Do(w, step).history)
  {
    match step {
      case Advance(i, move) => ReplayAppend(w.history, TableEvents(w.starts[i], move));
      case Exit(pid, Some(key)) =>
        var c := w.sup.containers[key];
        ReapHandles(w.sup, pid, key);
        ReplayAppend(w.history, if pid == c.initPid then [Handles.Reaped(c.spec.value.id)] else []);
      case _ =>
    }
  }

  lemma {:induction false} TableIsHistory(base: IP, steps: seq<Step>)
    requires Run(base, steps).Some?
    ensures Run(base, steps).value.sup.handles == Handles.Replay(Run(base, steps).value.history)
  {
    if steps != [] {
      var n := |steps| - 1;
      TableIsHistory(base, steps[..n]);
      StepHandles(Run(base, steps[..n]).value, steps[n]);
    }
  }

  // Main result: after any run, a held handle counts one for its owner and one for every
  // visit of a share loop since it was registered.  Joiners that exit give nothing back.
  lemma RunRefsCountVisits(base: IP, steps: seq<Step>, id: string, ns: NamespaceType)
    requires Run(base, steps).Some? && Handles.Holds(Run(base, steps).value.sup.handles, id, ns)
    ensures var w := Run(base, steps).value;
      w.sup.handles[id][ns].refs == 1 + Handles.Visits(w.history, id, ns)
  {
    TableIsHistory(base, steps);
    Handles.RefsCountVisits(Run(base, steps).value.history, id, ns);
  }

  // ---- the KeepAlive pipes ------------------------------------------------------------------

  function Rank(pc: PC): nat {
    match pc
    case PFailed => 0 case PBegun => 1 case PForked => 2 case PShared => 3 case PInserted => 4
    case PRegistered => 5 case PAllocated => 6 case PConfigured => 7 case PPublished => 8
    case PAttached => 9 case PFreed => 10 case PMarked => 11 case PReturned => 12
  }

  // A stored object is one its start call made, stored under the ID of that call.
  predicate Stored(starts: seq<Start>, id: string, c: Container) {
    && c.self.start < |starts|
    && var i, s := c.self.start, starts[c.self.start];
    && id == s.spec.id
    && (match c.self.stage
        case Initializing => c == Placeholder(i) && s.kind == Joiner
        case Created => c == CreatedObject(i, s) && Rank(s.pc) >= 4
        case Running =>
          && Rank(s.pc) >= 8
          && (c == RunningObject(i, s, None) || (c == RunningObject(i, s, Some(i)) && Rank(s.pc) >= 9)))
  }

  ghost predicate AllStored(w: World) {
    forall id :: id in w.sup.containers ==> Stored(w.starts, id, w.sup.containers[id])
  }

  predicate SpecFits(s: Start) {
    s.spec.isNetRoot <==> Creates(s.kind)
  }

  predicate FreedByOthersOnce(s: Start, k: KeepAlive) {
    s.kind == Creator ==> k == KeepAlive(true, 0) || k == KeepAlive(false, 1)
  }

  ghost predicate PipeInv(w: World) {
    && (forall i: nat :: i in w.sup.keepAlive <==> i < |w.starts|)
    && AllStored(w)
    && (forall i :: 0 <= i < |w.starts| ==> SpecFits(w.starts[i]) && FreedByOthersOnce(w.starts[i], w.sup.keepAlive[i]))
  }

  // The free a start function does itself, and its marking of the number.
  predicate OwnFree(step: Step, i: nat) {
    step == Advance(i, FreePipe) || step == Advance(i, MarkPipe)
  }

  // One release of pipe i, a creator's: the exit of its own workload was observed, or its
  // container is the only one left in its pod.
  ghost predicate ReleaseHappens(s: Sup, starts: seq<Start>, t: Sup, observed: Option<int>, i: nat) {
    && i < |starts| && i in s.keepAlive && i in t.keepAlive
    && Creates(starts[i].kind)
    && FreedOnce(s.keepAlive[i], t.keepAlive[i])
    && (observed == Some(starts[i].workPid) || exists pod :: LoneRoot(t.containers, pod, i))
  }

  ghost predicate StoredIn(s: Sup, starts: seq<Start>) {
    && (forall id :: id in s.containers ==> Stored(starts, id, s.containers[id]))
    && (forall i :: 0 <= i < |starts| ==> SpecFits(starts[i]))
  }

  lemma LoneCarries(s: Sup, starts: seq<Start>, id: string, pod: string, i: nat)
    requires StoredIn(s, starts) && LoneRoot(s.containers - {id}, pod, i)
    ensures i < |starts| && Creates(starts[i].kind)
  {
    var k :| k in s.containers - {id} && IsNetRoot(s.containers[k]) && s.containers[k].ipc == Some(i);
    assert Stored(starts, k, s.containers[k]);
  }

  lemma ExitReleases(s: Sup, starts: seq<Start>, pid: int, key: string, i: nat)
    requires StoredIn(s, starts) && Found(s, pid, key) && i in s.keepAlive
    ensures var t := ChildExit(s, pid, key);
      i in t.keepAlive && (t.keepAlive[i] != s.keepAlive[i] ==> ReleaseHappens(s, starts, t, Some(pid), i))
  {
    ExitPipes(s, pid, key, i);
    assert Stored(starts, key, s.containers[key]);
    var pod := PodName(s.containers[key].spec.value.id);
    if LoneRoot(s.containers - {key}, pod, i) {
      LoneCarries(s, starts, key, pod, i);
    }
  }

  lemma KillReleases(s: Sup, starts: seq<Start>, id: string, i: nat)
    requires StoredIn(s, starts) && i in s.keepAlive
    ensures var t := Killed(s, id);
      i in t.keepAlive && (t.keepAlive[i] != s.keepAlive[i] ==> ReleaseHappens(s, starts, t, None, i))
  {
    if Killed(s, id).keepAlive[i] != s.keepAlive[i] {
      assert Stored(starts, id, s.containers[id]);
      MembersLess(s.containers, id, PodName(id));
      assert id in Members(s.containers, PodName(id));
      assert Members(s.containers, PodName(id)) == {id};
      assert LoneRoot(s.containers, PodName(id), i);
    }
  }

  function Observed(step: Step): Option<int> {
    if step.Exit? then Some(step.pid) else None
  }

  // Apart from the free a start function does itself, which the interactive creator has none
  // of, a pipe changes only by a release.
  lemma PipeChangesOnlyBy(w: World, step: Step, i: nat)
    requires PipeInv(w) && Enabled(w, step) && i < |w.starts|
    ensures var v := Do(w, step);
      && i in v.sup.keepAlive
      && (v.sup.keepAlive[i] != w.sup.keepAlive[i] ==>
           || (OwnFree(step, i) && w.starts[i].kind != Creator)
           || ((step.Exit? || step.Kill?) && ReleaseHappens(w.sup, w.starts, v.sup, Observed(step), i)))
  {
    assert StoredIn(w.sup, w.starts);
    match step {
      case Exit(pid, Some(key)) => ExitReleases(w.sup, w.starts, pid, key, i);
      case Kill(id) => KillReleases(w.sup, w.starts, id, i);
      case _ =>
    }
  }

  // What a start call keeps while it goes on.
  predicate Continues(s: Start, t: Start) {
    && t.kind == s.kind && t.spec == s.spec
    && (Rank(s.pc) >= 4 ==> Rank(t.pc) >= Rank(s.pc) && t.initPid == s.initPid)
    && (Rank(s.pc) >= 8 ==> t.workPid == s.workPid && t.net == s.net)
  }

  lemma StepContinues(w: World, step: Step, i: nat)
    requires Enabled(w, step) && i < |w.starts|
    ensures i < |Do(w, step).starts| && Continues(w.starts[i], Do(w, step).starts[i])
  {
    if step.Advance? {
      MoveContinues(w.starts[step.i], step.move, w.sup.pool);
    }
  }

  lemma MoveContinues(s: Start, move: Move, pool: Pool)
    requires CanMove(s, move)
    ensures Continues(s, NextStart(s, move, pool))
  {
  }

  lemma StoredContinues(old_: seq<Start>, new_: seq<Start>, id: string, c: Container)
    requires Stored(old_, id, c) && c.self.start < |new_|
    requires Continues(old_[c.self.start], new_[c.self.start])
    ensures Stored(new_, id, c)
  {
  }

  // A stored object is an old one, or the moving start's own.
  lemma MoveStores(containers: Containers, starts: seq<Start>, i: nat, move: Move, pool: Pool, id: string)
    requires i < |starts| && CanMove(starts[i], move) && id in NextContainers(containers, i, starts[i], move)
    requires id in containers ==> Stored(starts, id, containers[id])
    ensures var now := NextContainers(containers, i, starts[i], move)[id];
      || (id in containers && now == containers[id])
      || Stored(starts[i := NextStart(starts[i], move, pool)], id, now)
  {
  }

  lemma ExitStores(s: Sup, pid: int, key: string, id: string)
    requires Found(s, pid, key) && id in ChildExit(s, pid, key).containers
    ensures id in s.containers && ChildExit(s, pid, key).containers[id] == s.containers[id]
  {
  }

  lemma StepStores(w: World, step: Step, id: string)
    requires AllStored(w) && Enabled(w, step) && id in Do(w, step).sup.containers
    ensures var v := Do(w, step);
      (id in w.sup.containers && v.sup.containers[id] == w.sup.containers[id]) || Stored(v.starts, id, v.sup.containers[id])
  {
    match step {
      case Advance(i, move) => MoveStores(w.sup.containers, w.starts, i, move, w.sup.pool, id);
      case Exit(pid, Some(key)) => ExitStores(w.sup, pid, key, id);
      case _ =>
    }
  }

  lemma StepAllStored(w: World, step: Step)
    requires AllStored(w) && Enabled(w, step)
    ensures AllStored(Do(w, step))
  {
    var v := Do(w, step);
    forall id | id in v.sup.containers ensures Stored(v.starts, id, v.sup.containers[id]) {
      StepStores(w, step, id);
      if id in w.sup.containers && v.sup.containers[id] == w.sup.containers[id] {
        var c := w.sup.containers[id];
        assert Stored(w.starts, id, c);
        StepContinues(w, step, c.self.start);
        StoredContinues(w.starts, v.starts, id, c);
      }
    }
  }

  lemma StepPipes(w: World, step: Step, i: nat)
    requires PipeInv(w) && Enabled(w, step) && i < |w.starts|
    ensures var v := Do(w, step);
      i < |v.starts| && i in v.sup.keepAlive && SpecFits(v.starts[i]) && FreedByOthersOnce(v.starts[i], v.sup.keepAlive[i])
  {
    PipeChangesOnlyBy(w, step, i);
    StepContinues(w, step, i);
  }

  lemma StepPipeKeys(w: World, step: Step, i: nat)
    requires PipeInv(w) && Enabled(w, step)
    ensures i in Do(w, step).sup.keepAlive <==> i < |Do(w, step).starts|
  {
    if step.Exit? && step.found.Some? {
      ExitPipes(w.sup, step.pid, step.found.value, i);
    }
  }

  lemma StepPipeInv(w: World, step: Step)
    requires PipeInv(w) && Enabled(w, step)
    ensures PipeInv(Do(w, step))
  {
    var v := Do(w, step);
    StepAllStored(w, step);
    forall i: nat ensures i in v.sup.keepAlive <==> i < |v.starts| {
      StepPipeKeys(w, step, i);
    }
    forall i | 0 <= i < |v.starts|
      ensures SpecFits(v.starts[i]) && FreedByOthersOnce(v.starts[i], v.sup.keepAlive[i])
    {
      if i < |w.starts| {
        StepPipes(w, step, i);
      }
    }
  }

  lemma {:induction false} RunPipes(base: IP, steps: seq<Step>)
    requires Run(base, steps).Some?
    ensures PipeInv(Run(base, steps).value)
  {
    if steps != [] {
      var n := |steps| - 1;
      RunPipes(base, steps[..n]);
      StepPipeInv(Run(base, steps[..n]).value, steps[n]);
    }
  }

  // Main result: after any run, the pipe of an interactive creator has been freed at most
  // once, and is closed exactly when it was.
  lemma CreatorPipeFreedAtMostOnce(base: IP, steps: seq<Step>, w: World, i: nat)
    requires Run(base, steps) == Some(w)
    requires i < |w.starts| && w.starts[i].kind == Creator
    ensures i in w.sup.keepAlive && w.sup.keepAlive[i].frees <= 1
    ensures w.sup.keepAlive[i].open <==> w.sup.keepAlive[i].frees == 0
  {
    RunPipes(base, steps);
    assert FreedByOthersOnce(w.starts[i], w.sup.keepAlive[i]);
  }

  // Main result: in every run a pipe changes only by its own start function's free, or by a
  // handled exit or a kill that releases a creator, and then only on its own workload's exit
  // or when its container is alone in the pod.  So neither ever touches a joiner's pipe.
  lemma PipeReleases(base: IP, steps: seq<Step>, w: World, step: Step, v: World, i: nat)
    requires Run(base, steps) == Some(w) && Enabled(w, step) && v == Do(w, step) && i < |w.starts|
    ensures i in w.sup.keepAlive && i in v.sup.keepAlive
    ensures v.sup.keepAlive[i] != w.sup.keepAlive[i] ==>
      || (OwnFree(step, i) && w.starts[i].kind != Creator)
      || ((step.Exit? || step.Kill?) && ReleaseHappens(w.sup, w.starts, v.sup, Observed(step), i))
  {
    RunPipes(base, steps);
    PipeChangesOnlyBy(w, step, i);
  }

  lemma RunOne(base: IP, steps: seq<Step>, w: World, step: Step)
    requires Run(base, steps) == Some(w) && Enabled(w, step)
    ensures Run(base, steps + [step]) == Some(Do(w, step))
  {
    assert (steps + [step])[..|steps|] == steps;
  }
}
