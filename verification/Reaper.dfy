// The supervisor's shared state and the two lock-held regions that take containers down:
// sup/clean.go, OnContainerExit, and sup/commands.go, killOneWithRetry.
module Reaper {
  import opened Prelude
  import opened Namespaces
  import opened ContainerId
  import opened IpAllocator
  import Handles

  // Which of the three objects of which start call: two containers are the same Go object
  // exactly when they agree on this.
  datatype Stage = Initializing | Created | Running
  datatype Object = Object(start: nat, stage: Stage)

  // A container record.  `ipc` names the pipes it was given, and `net` is the address in its
  // network resources.
  datatype Container = Container(
    self: Object, spec: Option<ContainerSpec>, initPid: int, workloadPid: int, net: Option<IP>, ipc: Option<nat>)

  // The write end of a KeepAlive pipe: whether it is still open, and how often it was freed.
  datatype KeepAlive = KeepAlive(open: bool, frees: nat)

  type Containers = map<string, Container>

  datatype Sup = Sup(
    containers: Containers,
    parked: map<string, IP>,
    keepAlive: map<nat, KeepAlive>,
    forwards: map<string, seq<int>>,
    handles: Handles.Table,
    pool: Pool)

  // ---- the pod scans ------------------------------------------------------------

  predicate InPod(id: string, pod: string) {
    Split(id).Some? && Split(id).value.pod == pod
  }

  function Members(containers: Containers, pod: string): set<string> {
    set id | id in containers && InPod(id, pod)
  }

  predicate IsNetRoot(c: Container) {
    c.spec.Some? && c.spec.value.isNetRoot
  }

  predicate HasOpenPipe(c: Container, keepAlive: map<nat, KeepAlive>) {
    c.ipc.Some? && c.ipc.value in keepAlive && keepAlive[c.ipc.value].open
  }

  // FreeFd on the write end, and marking it closed.
  function Free(keepAlive: map<nat, KeepAlive>, ipc: nat): map<nat, KeepAlive>
    requires ipc in keepAlive
  {
    keepAlive[ipc := KeepAlive(false, keepAlive[ipc].frees + 1)]
  }

  function Release(keepAlive: map<nat, KeepAlive>, c: Container): map<nat, KeepAlive> {
    if IsNetRoot(c) && HasOpenPipe(c, keepAlive) then Free(keepAlive, c.ipc.value) else keepAlive
  }

  // releaseLastNetRootKeepAlive: a net root that is the only member left is let go.
  ghost function ReleaseLast(containers: Containers, keepAlive: map<nat, KeepAlive>, pod: string): map<nat, KeepAlive> {
    if exists id :: Members(containers, pod) == {id} then
      var id :| Members(containers, pod) == {id};
      assert id in Members(containers, pod);
      Release(keepAlive, containers[id])
    else keepAlive
  }

  lemma ReleaseLastOne(containers: Containers, keepAlive: map<nat, KeepAlive>, pod: string, id: string)
    requires Members(containers, pod) == {id}
    ensures id in containers && ReleaseLast(containers, keepAlive, pod) == Release(keepAlive, containers[id])
  {
    assert id in Members(containers, pod);
    forall other | Members(containers, pod) == {other} ensures other == id {
      assert other in {id};
    }
  }

  // ---- one exit -------------------------------------------------------------------

  predicate HasPid(c: Container, pid: int) {
    c.workloadPid == pid || c.initPid == pid
  }

  function PodName(id: string): string {
    if Split(id).Some? then Split(id).value.pod else ""
  }

  // The parked addresses once a container's own is kept for its pod.
  function ParkedWith(parked: map<string, IP>, c: Container, id: string): map<string, IP> {
    if c.net.Some? && Split(id).Some? then parked[PodName(id) := c.net.value] else parked
  }

  function Empties(containers: Containers, id: string): bool {
    Split(id).Some? && Members(containers - {id}, PodName(id)) == {}
  }

  // Init of container c, known as `id`, has exited.
  ghost function ReapInit(s: Sup, c: Container, id: string): Sup {
    var pod, last, parked := PodName(id), Empties(s.containers, id), ParkedWith(s.parked, c, id);
    Sup(
      s.containers - {id},
      if last then parked - {pod} else parked,
      ReleaseLast(s.containers - {id}, s.keepAlive, pod),
      if last then s.forwards - {pod} else s.forwards,
      Handles.Reap(s.handles, id),
      if last && pod in parked then Released(s.pool, Some(parked[pod])) else s.pool)
  }

  // A child's exit, once the scan has settled on the container stored under `key`.
  ghost function ChildExit(s: Sup, pid: int, key: string): Sup
    requires key in s.containers && s.containers[key].spec.Some?
  {
    var c := s.containers[key];
    var t := if pid == c.workloadPid then s.(keepAlive := Release(s.keepAlive, c)) else s;
    if pid == c.initPid then ReapInit(t, c, c.spec.value.id) else t
  }

  // The scan is a map iteration: any container with the pid may be found.
  ghost predicate ExitStep(s: Sup, pid: int, t: Sup) {
    if exists key :: Found(s, pid, key) then
      exists key :: Found(s, pid, key) && t == ChildExit(s, pid, key)
    else t == s
  }

  ghost predicate Found(s: Sup, pid: int, key: string) {
    key in s.containers && HasPid(s.containers[key], pid) && s.containers[key].spec.Some?
  }

  lemma MembersLess(containers: Containers, id: string, pod: string)
    ensures Members(containers - {id}, pod) == Members(containers, pod) - {id}
  {
  }

  predicate FreedOnce(before: KeepAlive, after: KeepAlive) {
    before.open && after == KeepAlive(false, before.frees + 1)
  }

  ghost predicate LoneRoot(containers: Containers, pod: string, ipc: nat) {
    exists k :: Members(containers, pod) == {k} && k in containers && IsNetRoot(containers[k])
             && containers[k].ipc == Some(ipc)
  }

  // Reaping frees no pipe but that of a net root left alone in the reaped pod.
  lemma ReapPipes(s: Sup, c: Container, id: string, ipc: nat)
    ensures var t := ReapInit(s, c, id);
      && t.keepAlive.Keys == s.keepAlive.Keys
      && (ipc in s.keepAlive && t.keepAlive[ipc] != s.keepAlive[ipc] ==>
           FreedOnce(s.keepAlive[ipc], t.keepAlive[ipc]) && LoneRoot(t.containers, PodName(id), ipc))
  {
    var containers, pod := s.containers - {id}, PodName(id);
    if k :| Members(containers, pod) == {k} {
      ReleaseLastOne(containers, s.keepAlive, pod, k);
    }
  }

  // An exit frees a pipe at most once: its own workload's, or that of the net root left alone.
  lemma ExitPipes(s: Sup, pid: int, key: string, ipc: nat)
    requires key in s.containers && s.containers[key].spec.Some?
    ensures var t, c := ChildExit(s, pid, key), s.containers[key];
      && t.keepAlive.Keys == s.keepAlive.Keys
      && (ipc in s.keepAlive && t.keepAlive[ipc] != s.keepAlive[ipc] ==>
           && FreedOnce(s.keepAlive[ipc], t.keepAlive[ipc])
           && (|| (pid == c.workloadPid && c.ipc == Some(ipc) && IsNetRoot(c))
               || LoneRoot(t.containers, PodName(c.spec.value.id), ipc)))
  {
    var c := s.containers[key];
    var t := if pid == c.workloadPid then s.(keepAlive := Release(s.keepAlive, c)) else s;
    ReapPipes(t, c, c.spec.value.id, ipc);
  }

  // Forwards go exactly when the last member of their pod does.
  lemma ReapForwards(s: Sup, c: Container, id: string, pod: string)
    requires id in s.containers
    ensures var t := ReapInit(s, c, id);
      && (pod in t.forwards <==>
           pod in s.forwards && !(Members(s.containers, pod) != {} && Members(t.containers, pod) == {}))
      && (pod in t.forwards ==> t.forwards[pod] == s.forwards[pod])
  {
    MembersLess(s.containers, id, pod);
    if InPod(id, pod) {
      assert id in Members(s.containers, pod);
    } else if Split(id).Some? {
      assert PodName(id) != pod;
    }
  }

  // Every container past its placeholder is stored under the ID of its spec.
  ghost predicate Named(s: Sup) {
    forall k :: k in s.containers && s.containers[k].spec.Some? ==> s.containers[k].spec.value.id == k
  }

  // Main result: over any handled exit, the forwards of a pod go, all of them, exactly when
  // the last of its members does; otherwise they stay as they were.
  lemma ExitForwards(s: Sup, pid: int, t: Sup, pod: string)
    requires Named(s) && ExitStep(s, pid, t)
    ensures pod in t.forwards <==>
      pod in s.forwards && !(Members(s.containers, pod) != {} && Members(t.containers, pod) == {})
    ensures pod in t.forwards ==> t.forwards[pod] == s.forwards[pod]
  {
    if exists key :: Found(s, pid, key) {
      var key :| Found(s, pid, key) && t == ChildExit(s, pid, key);
      var c := s.containers[key];
      var u := if pid == c.workloadPid then s.(keepAlive := Release(s.keepAlive, c)) else s;
      ReapForwards(u, c, key, pod);
    }
  }

  // No other container has this PID, as a workload's or as an init's.
  ghost predicate NoOther(s: Sup, pid: int, key: string) {
    forall k :: k in s.containers && s.containers[k].spec.Some? && k != key ==>
      s.containers[k].workloadPid != pid && s.containers[k].initPid != pid
  }

  // The exit of a workload alone frees its creator's pipe and changes nothing else.
  lemma WorkloadExit(s: Sup, pid: int, key: string, t: Sup)
    requires key in s.containers && s.containers[key].spec.Some? && NoOther(s, pid, key)
    requires s.containers[key].workloadPid == pid && s.containers[key].initPid != pid && ExitStep(s, pid, t)
    ensures var c := s.containers[key];
      t == if c.spec.value.isNetRoot && HasOpenPipe(c, s.keepAlive)
           then s.(keepAlive := s.keepAlive[c.ipc.value := KeepAlive(false, s.keepAlive[c.ipc.value].frees + 1)])
           else s
  {
    assert Found(s, pid, key);
  }

  // The exit of an init takes its container out of the map, and its handles out of the table.
  lemma InitExit(s: Sup, pid: int, key: string, t: Sup)
    requires key in s.containers && s.containers[key].spec.Some? && NoOther(s, pid, key)
    requires s.containers[key].initPid == pid && ExitStep(s, pid, t)
    ensures var id := s.containers[key].spec.value.id; t.containers == s.containers - {id} && t.handles == s.handles - {id}
  {
    assert Found(s, pid, key);
  }

  // The exit of a process nobody in the map has changes nothing.
  lemma StrangerExit(s: Sup, pid: int, t: Sup)
    requires forall k :: k in s.containers ==> s.containers[k].workloadPid != pid && s.containers[k].initPid != pid
    requires ExitStep(s, pid, t)
    ensures t == s
  {
  }

  // A placeholder has no spec and no pid yet.
  predicate PlaceholdersIdle(s: Sup) {
    forall id :: id in s.containers && s.containers[id].spec.None? ==>
      s.containers[id].initPid == 0 && s.containers[id].workloadPid == 0
  }

  // ---- one kill ---------------------------------------------------------------------

  datatype KillOutcome = NotFound | KilledWorkload | KilledInit | NoPidYet

  ghost function Killed(s: Sup, id: string): Sup {
    if id in s.containers && s.containers[id].workloadPid > 0
       && Split(id).Some? && Members(s.containers - {id}, PodName(id)) == {}
    then s.(keepAlive := Release(s.keepAlive, s.containers[id]))
    else s
  }

  class Supervisor {
    var containers: Containers
    var parked: map<string, IP>
    var keepAlive: map<nat, KeepAlive>
    var forwards: map<string, seq<int>>
    const registry: Handles.HandleRegistry
    const ipAlloc: IPAllocator

    ghost function State(): Sup
      reads this, registry, ipAlloc
    {
      Sup(containers, parked, keepAlive, forwards, registry.handles, ipAlloc.State())
    }

    constructor (base: IP)
      ensures State() == Sup(map[], map[], map[], map[], map[], Fresh(base))
      ensures fresh(registry) && fresh(ipAlloc)
    {
      containers, parked, keepAlive, forwards := map[], map[], map[], map[];
      registry := new Handles.HandleRegistry();
      ipAlloc := new IPAllocator(base);
    }

    method FindContainerByPID(pid: int) returns (key: Option<string>)
      ensures key.Some? ==>
        key.value in containers && (containers[key.value].workloadPid == pid || containers[key.value].initPid == pid)
      ensures key.None? ==>
        forall id :: id in containers ==> containers[id].workloadPid != pid && containers[id].initPid != pid
    {
      var rest := containers.Keys;
      while rest != {}
        invariant rest <= containers.Keys
        invariant forall id :: id in containers.Keys - rest ==> !HasPid(containers[id], pid)
        decreases rest
      {
        var id :| id in rest;
        if HasPid(containers[id], pid) {
          return Some(id);
        }
        rest := rest - {id};
      }
      return None;
    }

    method IsPodEmpty(pod: string, among: Containers) returns (empty: bool)
      ensures empty <==> Members(among, pod) == {}
    {
      var rest := among.Keys;
      while rest != {}
        invariant rest <= among.Keys
        invariant forall id :: id in among.Keys - rest ==> !InPod(id, pod)
        decreases rest
      {
        var id :| id in rest;
        if InPod(id, pod) {
          assert id in Members(among, pod);
          return false;
        }
        rest := rest - {id};
      }
      return true;
    }

    method FreeKeepAlive(c: Container)
      modifies this`keepAlive
      ensures keepAlive == Release(old(keepAlive), c)
    {
      if IsNetRoot(c) && HasOpenPipe(c, keepAlive) {
        keepAlive := Free(keepAlive, c.ipc.value);
      }
    }

    method ReleaseLastNetRootKeepAlive(pod: string)
      modifies this`keepAlive
      ensures keepAlive == ReleaseLast(containers, old(keepAlive), pod)
    {
      var root: Option<Container> := None;
      var count := 0;
      var rest := containers.Keys;
      ghost var seen: set<string> := {};
      while rest != {}
        invariant rest <= containers.Keys
        invariant seen == set id | id in containers.Keys - rest && InPod(id, pod)
        invariant count == |seen|
        invariant root.None? ==> forall id :: id in seen ==> !IsNetRoot(containers[id])
        invariant root.Some? ==> exists id :: id in seen && root.value == containers[id] && IsNetRoot(root.value)
        decreases rest
      {
        var id :| id in rest;
        rest := rest - {id};
        if !InPod(id, pod) {
          continue;
        }
        count := count + 1;
        seen := seen + {id};
        if IsNetRoot(containers[id]) {
          root := Some(containers[id]);
        }
      }
      assert seen == Members(containers, pod);
      if count == 1 {
        ghost var only :| only in seen;
        assert seen == {only} by { SingleMember(seen, only); }
        ReleaseLastOne(containers, keepAlive, pod, only);
        if root.Some? {
          FreeKeepAlive(root.value);
        }
      } else {
        assert !exists id :: Members(containers, pod) == {id};
      }
    }

    // One EventChildExit, under the lock.
    method OnChildExit(pid: int)
      requires pid > 0 && PlaceholdersIdle(State())
      modifies this, registry, ipAlloc
      ensures ExitStep(old(State()), pid, State())
    {
      var key := FindContainerByPID(pid);
      if key == None {
        return;
      }
      var c := containers[key.value];
      if pid == c.workloadPid {
        FreeKeepAlive(c);
      }
      if pid == c.initPid {
        ReapContainer(c);
      }
      assert Found(old(State()), pid, key.value);
    }

    // The second half of the exit handler.
    method ReapContainer(c: Container)
      requires c.spec.Some?
      modifies this, registry, ipAlloc
      ensures State() == ReapInit(old(State()), c, c.spec.value.id)
      ensures containers == old(containers) - {c.spec.value.id}
      ensures forall pod :: Members(containers, pod) != {} && pod in old(forwards) ==>
        pod in forwards && forwards[pod] == old(forwards)[pod]
    {
      var id := c.spec.value.id;
      var pod, _, isPodContainer := SplitContainerID(id);
      if c.net.Some? && isPodContainer {
        parked := parked[pod := c.net.value];
      }
      var closed := registry.ReleaseOwned(id);
      containers := containers - {id};
      ReleaseLastNetRootKeepAlive(pod);
      var empty := IsPodEmpty(pod, containers);
      if isPodContainer && empty {
        forwards := forwards - {pod};
        if pod in parked {
          ipAlloc.Release(Some(parked[pod]));
          parked := parked - {pod};
        }
        assert pod !in parked && parked - {pod} == parked;
      }
    }

    method PodWouldBeEmptyAfterRemoving(pod: string, removeId: string) returns (empty: bool)
      ensures empty <==> Members(containers - {removeId}, pod) == {}
    {
      var tmp: Containers := map[];
      var rest := containers.Keys;
      while rest != {}
        invariant rest <= containers.Keys
        invariant tmp == map id | id in containers.Keys - rest && id != removeId :: containers[id]
        decreases rest
      {
        var id :| id in rest;
        rest := rest - {id};
        if id == removeId {
          continue;
        }
        tmp := tmp[id := containers[id]];
      }
      assert tmp == containers - {removeId};
      empty := IsPodEmpty(pod, tmp);
    }

    // One attempt of killOneWithRetry, under the lock.
    method KillOnce(id: string) returns (outcome: KillOutcome)
      modifies this`keepAlive
      ensures State() == Killed(old(State()), id)
      ensures outcome == NotFound <==> id !in containers
      ensures outcome == KilledWorkload <==> id in containers && containers[id].workloadPid > 0
      ensures outcome == KilledInit <==>
        id in containers && containers[id].workloadPid <= 0 && containers[id].initPid > 0
    {
      if id !in containers {
        return NotFound;
      }
      var c := containers[id];
      if c.workloadPid > 0 {
        var pod, _, ok := SplitContainerID(id);
        if ok && IsNetRoot(c) && HasOpenPipe(c, keepAlive) {
          var empty := PodWouldBeEmptyAfterRemoving(pod, id);
          if empty {
            FreeKeepAlive(c);
          }
        }
        return KilledWorkload;
      }
      if c.initPid > 0 {
        return KilledInit;
      }
      return NoPidYet;
    }
  }

  lemma SingleMember<T>(s: set<T>, x: T)
    requires |s| == 1 && x in s
    ensures s == {x}
  {
    if y :| y in s && y != x {
      SubsetSize({x, y}, s);
    }
  }
}
