// A pod whose workloads are dead, left to the reaper: sup/clean.go, lines 59-132, with the
// end of lib/workload.go's initWorkloadHandling and the kills of sup/commands.go.  No start
// call goes on.  Init waits for its workload and collects it, so the supervisor only ever
// reaps init processes.
module PodDrain {
  import opened Prelude
  import opened Namespaces
  import opened ContainerId
  import opened IpAllocator
  import opened Reaper

  // The supervisor and the processes: which inits still run, which workloads are dead, and
  // which exits wait to be handled.
  datatype World = World(sup: Sup, alive: set<string>, dead: set<string>, exited: set<int>)

  datatype Step = WorkloadDies(key: string) | InitExits(key: string) | Reap(pid: int) | Kill(id: string)

  // The pipe still holds its reader.  A start function's free wakes it before the mark: then
  // the number is in place, and the byte is written.
  predicate HoldsReader(c: Container, keepAlive: map<nat, KeepAlive>) {
    HasOpenPipe(c, keepAlive) && keepAlive[c.ipc.value].frees == 0
  }

  // A net root's init stays until its KeepAlive pipe is freed.  An init whose workload the
  // supervisor does not know may exit at any time: a kill is then aimed at init itself.
  predicate MayExit(w: World, key: string) {
    && key in w.sup.containers && key in w.alive
    && (|| w.sup.containers[key].workloadPid <= 0
        || (key in w.dead && (IsNetRoot(w.sup.containers[key]) ==> !HoldsReader(w.sup.containers[key], w.sup.keepAlive))))
  }

  ghost predicate Next(w: World, step: Step, v: World) {
    match step
    case WorkloadDies(key) =>
      && key in w.sup.containers && w.sup.containers[key].workloadPid > 0 && key !in w.dead
      && v == w.(dead := w.dead + {key})
    case InitExits(key) =>
      && MayExit(w, key)
      && v == w.(alive := w.alive - {key}, exited := w.exited + {w.sup.containers[key].initPid})
    case Reap(pid) =>
      && pid in w.exited
      && v.alive == w.alive && v.dead == w.dead && v.exited == w.exited - {pid}
      && ExitStep(w.sup, pid, v.sup)
    case Kill(id) => v == w.(sup := Killed(w.sup, id))
  }

  // ---- the starting hypotheses ---------------------------------------------------

  // Whatever the map holds: a container past its placeholder is stored under the ID of its
  // spec, and its PIDs are its own.  Its workload's may not be known yet.
  ghost predicate Identified(s: Sup) {
    && PlaceholdersIdle(s)
    && (forall k :: k in s.containers && s.containers[k].spec.Some? ==>
         && s.containers[k].spec.value.id == k
         && s.containers[k].initPid > 0 && s.containers[k].workloadPid >= 0
         && s.containers[k].initPid != s.containers[k].workloadPid)
    && (forall j, k :: j in s.containers && k in s.containers && j != k ==>
         DistinctPids(s.containers[j], s.containers[k]))
  }

  predicate DistinctPids(a: Container, b: Container) {
    a.spec.Some? && b.spec.Some? ==>
      a.initPid != b.initPid && a.initPid != b.workloadPid && a.workloadPid != b.initPid
  }

  // Attached pipes exist, and no two containers share them.
  ghost predicate Piped(s: Sup) {
    && (forall k :: k in s.containers && s.containers[k].ipc.Some? ==> s.containers[k].ipc.value in s.keepAlive)
    && (forall j, k :: j in s.containers && k in s.containers && j != k && s.containers[j].ipc.Some? ==>
         s.containers[j].ipc != s.containers[k].ipc)
  }

  predicate Runs(s: Sup, k: string, pid: int) {
    k in s.containers && s.containers[k].spec.Some? && s.containers[k].initPid == pid
  }

  // A running init has no exit pending, and none of the pending exits is a workload's.
  // Exits of processes the map does not hold may be pending, and others may be lost.
  ghost predicate Tracked(w: World) {
    && (forall k :: k in w.alive ==>
         k in w.sup.containers && w.sup.containers[k].spec.Some? && w.sup.containers[k].initPid !in w.exited)
    && (forall k :: k in w.sup.containers && w.sup.containers[k].spec.Some? ==> w.sup.containers[k].workloadPid !in w.exited)
  }

  ghost predicate Good(w: World) {
    Identified(w.sup) && Piped(w.sup) && Tracked(w)
  }

  // A member of the pod is fully started, with a dead workload, and its init runs or its
  // exit is pending.
  predicate MemberReady(w: World, k: string)
    requires k in w.sup.containers
  {
    var c := w.sup.containers[k];
    && c.spec.Some? && c.workloadPid > 0 && k in w.dead
    && (IsNetRoot(c) ==> c.ipc.Some?)
    && (k in w.alive || c.initPid in w.exited)
  }

  // The pod: members ready, at most one creator, and one address at most, the creator's own
  // or the one parked for the pod.
  ghost predicate PodReady(w: World, pod: string) {
    && (forall k :: k in Members(w.sup.containers, pod) ==> MemberReady(w, k))
    && (forall j, k | j in Members(w.sup.containers, pod) && k in Members(w.sup.containers, pod) ::
         IsNetRoot(w.sup.containers[j]) && IsNetRoot(w.sup.containers[k]) ==> j == k)
    && (forall k | k in Members(w.sup.containers, pod) ::
         w.sup.containers[k].net.Some? ==> IsNetRoot(w.sup.containers[k]) && pod !in w.sup.parked)
  }

  // A creator whose pipe still holds init has another member beside it.
  ghost predicate NotAlone(w: World, pod: string) {
    forall k :: k in Members(w.sup.containers, pod) && Waits(w, k) ==> Members(w.sup.containers, pod) != {k}
  }

  predicate Waits(w: World, k: string)
    requires k in w.sup.containers
  {
    k in w.alive && IsNetRoot(w.sup.containers[k]) && HoldsReader(w.sup.containers[k], w.sup.keepAlive)
  }

  ghost predicate HoldsAddress(s: Sup, pod: string, ip: IP) {
    || (exists k :: k in Members(s.containers, pod) && s.containers[k].net == Some(ip))
    || (pod in s.parked && s.parked[pod] == ip)
  }

  ghost predicate Cleared(s: Sup, pod: string) {
    Members(s.containers, pod) == {} && pod !in s.forwards && pod !in s.parked
  }

  // What every run keeps once no creator waits alone: it stays so, and an empty pod is cleared.
  ghost predicate Draining(w: World, pod: string) {
    NotAlone(w, pod) && (Members(w.sup.containers, pod) == {} ==> Cleared(w.sup, pod))
  }

  // An address the pod held is still held or back in the pool.
  ghost predicate Accounted(w: World, pod: string, ip: IP) {
    HoldsAddress(w.sup, pod, ip) || ip !in w.sup.pool.used
  }

  // ---- what one handled exit does ----------------------------------------------------

  lemma OnlyFound(w: World, pid: int, key: string)
    requires Good(w) && pid in w.exited && Found(w.sup, pid, key)
    ensures Runs(w.sup, key, pid) && key !in w.alive
    ensures forall k :: Runs(w.sup, k, pid) ==> k == key
  {
    forall k | Runs(w.sup, k, pid) ensures k == key {
      assert k != key ==> DistinctPids(w.sup.containers[k], w.sup.containers[key]);
    }
  }

  // The scan can only find the container whose init exited, and takes the second branch.  An
  // exit of a process the map does not hold changes nothing.
  lemma ExitIsReap(w: World, pid: int, t: Sup) returns (key: Option<string>)
    requires Good(w) && pid in w.exited && ExitStep(w.sup, pid, t)
    ensures key.Some? ==>
      Runs(w.sup, key.value, pid) && key.value !in w.alive && t == ReapInit(w.sup, w.sup.containers[key.value], key.value)
    ensures key.None? ==> t == w.sup && forall k :: !Runs(w.sup, k, pid)
  {
    if exists k :: Found(w.sup, pid, k) {
      var k :| Found(w.sup, pid, k) && t == ChildExit(w.sup, pid, k);
      key := Some(k);
      OnlyFound(w, pid, k);
    } else {
      key := None;
      forall k ensures !Runs(w.sup, k, pid) {
        assert !Found(w.sup, pid, k);
      }
    }
  }

  lemma LessGood(w: World, v: World, key: string)
    requires Good(w) && v.sup.containers == w.sup.containers - {key} && v.sup.keepAlive.Keys == w.sup.keepAlive.Keys
    requires key !in w.alive && v.alive == w.alive && v.exited <= w.exited
    ensures Good(v)
  {
  }

  lemma ReapGood(w: World, pid: int, v: World)
    requires Good(w) && Next(w, Reap(pid), v)
    ensures Good(v)
  {
    var found := ExitIsReap(w, pid, v.sup);
    if found.Some? {
      ReapPipes(w.sup, w.sup.containers[found.value], found.value, 0);
      LessGood(w, v, found.value);
    }
  }

  lemma InitExitGood(w: World, key: string, v: World)
    requires Good(w) && Next(w, InitExits(key), v)
    ensures Good(v)
  {
    forall k | k in v.sup.containers && v.sup.containers[k].spec.Some?
      ensures v.sup.containers[k].workloadPid !in v.exited
      ensures k in v.alive ==> v.sup.containers[k].initPid !in v.exited
    {
      assert k != key ==> DistinctPids(w.sup.containers[k], w.sup.containers[key]);
    }
  }

  lemma NextGood(w: World, step: Step, v: World)
    requires Good(w) && Next(w, step, v)
    ensures Good(v)
  {
    match step {
      case InitExits(key) => InitExitGood(w, key, v);
      case Reap(pid) => ReapGood(w, pid, v);
      case _ =>
    }
  }

  // ---- what one handled exit does to the pod ------------------------------------------

  // An exit in another pod, or in none, leaves this pod's entries alone.
  lemma ReapElsewhere(s: Sup, c: Container, id: string, pod: string)
    requires !InPod(id, pod)
    ensures var t := ReapInit(s, c, id);
      && Members(t.containers, pod) == Members(s.containers, pod)
      && (forall k :: k in Members(s.containers, pod) ==> t.containers[k] == s.containers[k])
      && (pod in t.parked <==> pod in s.parked) && (pod in s.parked ==> t.parked[pod] == s.parked[pod])
      && (pod in t.forwards <==> pod in s.forwards)
      && t.pool.used <= s.pool.used
  {
    MembersLess(s.containers, id, pod);
  }

  // An exit in this pod parks the creator's address, or clears the pod when it was the last.
  lemma ReapHere(s: Sup, c: Container, id: string, pod: string)
    requires InPod(id, pod)
    ensures var t, parked := ReapInit(s, c, id), if c.net.Some? then s.parked[pod := c.net.value] else s.parked;
      && Members(t.containers, pod) == Members(s.containers, pod) - {id}
      && (forall k :: k in Members(t.containers, pod) ==> t.containers[k] == s.containers[k])
      && t.pool.used <= s.pool.used
      && (Members(t.containers, pod) != {} ==> t.parked == parked)
      && (Members(t.containers, pod) == {} ==> Cleared(t, pod) && (pod in parked ==> parked[pod] !in t.pool.used))
  {
    MembersLess(s.containers, id, pod);
  }

  lemma ReapLeavesReady(w: World, pid: int, v: World, key: string, k: string)
    requires Good(w) && Runs(w.sup, key, pid) && k in w.sup.containers && k != key && MemberReady(w, k)
    requires v.alive == w.alive && v.dead == w.dead && v.exited == w.exited - {pid}
    requires k in v.sup.containers && v.sup.containers[k] == w.sup.containers[k]
    ensures MemberReady(v, k)
  {
    assert DistinctPids(w.sup.containers[k], w.sup.containers[key]);
  }

  lemma ReapMembersReady(w: World, pid: int, v: World, pod: string, key: string)
    requires Good(w) && PodReady(w, pod) && Runs(w.sup, key, pid)
    requires v.alive == w.alive && v.dead == w.dead && v.exited == w.exited - {pid}
    requires v.sup == ReapInit(w.sup, w.sup.containers[key], key)
    ensures PodReady(v, pod)
  {
    var c := w.sup.containers[key];
    if InPod(key, pod) {
      ReapHere(w.sup, c, key, pod);
      assert key in Members(w.sup.containers, pod);
    } else {
      ReapElsewhere(w.sup, c, key, pod);
    }
    forall k | k in Members(v.sup.containers, pod) ensures MemberReady(v, k) {
      assert k in Members(w.sup.containers, pod);
      ReapLeavesReady(w, pid, v, key, k);
    }
  }

  lemma ReapReady(w: World, pid: int, v: World, pod: string)
    requires Good(w) && PodReady(w, pod) && Next(w, Reap(pid), v)
    ensures PodReady(v, pod)
  {
    var found := ExitIsReap(w, pid, v.sup);
    if found.Some? {
      ReapMembersReady(w, pid, v, pod, found.value);
    } else {
      forall k | k in Members(v.sup.containers, pod) ensures MemberReady(v, k) {
        assert MemberReady(w, k) && !Runs(w.sup, k, pid);
      }
    }
  }

  // A net root left alone by an exit in its pod has no open pipe any more.
  lemma LastIsReleased(s: Sup, c: Container, id: string, k: string)
    ensures var t := ReapInit(s, c, id);
      Members(t.containers, PodName(id)) == {k} && k in t.containers && IsNetRoot(t.containers[k]) ==>
        !HasOpenPipe(t.containers[k], t.keepAlive)
  {
    var containers := s.containers - {id};
    if Members(containers, PodName(id)) == {k} {
      ReleaseLastOne(containers, s.keepAlive, PodName(id), k);
    }
  }

  lemma ReapNotAlone(w: World, pid: int, v: World, pod: string)
    requires Good(w) && NotAlone(w, pod) && Next(w, Reap(pid), v)
    ensures NotAlone(v, pod)
  {
    var found := ExitIsReap(w, pid, v.sup);
    forall k | k in Members(v.sup.containers, pod) && Waits(v, k) ensures Members(v.sup.containers, pod) != {k} {
      if found.Some? {
        var key := found.value;
        var c := w.sup.containers[key];
        ReapPipes(w.sup, c, key, v.sup.containers[k].ipc.value);
        assert Waits(w, k);
        if InPod(key, pod) {
          LastIsReleased(w.sup, c, key, k);
        } else {
          ReapElsewhere(w.sup, c, key, pod);
        }
      } else {
        assert Waits(w, k);
      }
    }
  }

  lemma ReapClears(w: World, pid: int, v: World, pod: string)
    requires Good(w) && Draining(w, pod) && Next(w, Reap(pid), v)
    ensures Members(v.sup.containers, pod) == {} ==> Cleared(v.sup, pod)
  {
    var found := ExitIsReap(w, pid, v.sup);
    if found.Some? {
      var key := found.value;
      if InPod(key, pod) {
        ReapHere(w.sup, w.sup.containers[key], key, pod);
      } else {
        ReapElsewhere(w.sup, w.sup.containers[key], key, pod);
      }
    }
  }

  lemma ReapHoldsHere(s: Sup, key: string, pod: string, ip: IP)
    requires key in s.containers && InPod(key, pod) && HoldsAddress(s, pod, ip)
    requires s.containers[key].net.Some? ==> pod !in s.parked
    requires forall k :: k in Members(s.containers, pod) && s.containers[k].net.Some? && k != key ==> s.containers[key].net.None?
    ensures var t := ReapInit(s, s.containers[key], key); HoldsAddress(t, pod, ip) || ip !in t.pool.used
  {
    var t := ReapInit(s, s.containers[key], key);
    ReapHere(s, s.containers[key], key, pod);
    if k :| k in Members(s.containers, pod) && s.containers[k].net == Some(ip) && k != key {
      assert k in Members(t.containers, pod);
    }
  }

  lemma ReapHolds(w: World, pid: int, v: World, pod: string, ip: IP)
    requires Good(w) && PodReady(w, pod) && Accounted(w, pod, ip) && Next(w, Reap(pid), v)
    ensures Accounted(v, pod, ip)
  {
    var found := ExitIsReap(w, pid, v.sup);
    if found.Some? {
      var key := found.value;
      if InPod(key, pod) {
        assert key in Members(w.sup.containers, pod);
        ReapHere(w.sup, w.sup.containers[key], key, pod);
        if HoldsAddress(w.sup, pod, ip) {
          ReapHoldsHere(w.sup, key, pod, ip);
        }
      } else {
        ReapElsewhere(w.sup, w.sup.containers[key], key, pod);
      }
    }
  }

  // A kill touches nothing but the pipe of a creator alone in its pod.
  lemma KillKeeps(w: World, id: string, v: World, pod: string)
    requires PodReady(w, pod) && Next(w, Kill(id), v)
    ensures PodReady(v, pod) && (NotAlone(w, pod) ==> NotAlone(v, pod))
    ensures forall ip :: Accounted(w, pod, ip) ==> Accounted(v, pod, ip)
  {
    assert forall k :: k in w.sup.containers && Waits(v, k) ==> Waits(w, k);
    forall ip | Accounted(w, pod, ip) ensures Accounted(v, pod, ip) {
      if k :| k in Members(w.sup.containers, pod) && w.sup.containers[k].net == Some(ip) {
        assert k in Members(v.sup.containers, pod);
      }
    }
  }

  // Any step keeps the pod ready, alone or not, and its address accounted for.
  lemma ReadyStep(w: World, step: Step, v: World, pod: string)
    requires Good(w) && PodReady(w, pod) && Next(w, step, v)
    ensures Good(v) && PodReady(v, pod)
  {
    NextGood(w, step, v);
    match step {
      case WorkloadDies(key) => DeathReady(w, key, v, pod);
      case InitExits(key) => ExitReady(w, key, v, pod);
      case Reap(pid) => ReapReady(w, pid, v, pod);
      case Kill(id) => KillKeeps(w, id, v, pod);
    }
  }

  lemma DeathReady(w: World, key: string, v: World, pod: string)
    requires PodReady(w, pod) && Next(w, WorkloadDies(key), v)
    ensures PodReady(v, pod)
  {
    forall k | k in Members(v.sup.containers, pod) ensures MemberReady(v, k) {
      assert MemberReady(w, k);
    }
  }

  lemma ExitReady(w: World, key: string, v: World, pod: string)
    requires PodReady(w, pod) && Next(w, InitExits(key), v)
    ensures PodReady(v, pod)
  {
    forall k | k in Members(v.sup.containers, pod) ensures MemberReady(v, k) {
      assert MemberReady(w, k);
    }
  }

  lemma AccountStep(w: World, step: Step, v: World, pod: string, ip: IP)
    requires Good(w) && PodReady(w, pod) && Accounted(w, pod, ip) && Next(w, step, v)
    ensures Accounted(v, pod, ip)
  {
    match step {
      case Reap(pid) => ReapHolds(w, pid, v, pod, ip);
      case Kill(id) => KillKeeps(w, id, v, pod);
      case _ =>
    }
  }

  lemma DrainStep(w: World, step: Step, v: World, pod: string)
    requires Good(w) && PodReady(w, pod) && Draining(w, pod) && Next(w, step, v)
    ensures Draining(v, pod)
  {
    match step {
      case Reap(pid) =>
        ReapNotAlone(w, pid, v, pod);
        ReapClears(w, pid, v, pod);
      case Kill(id) => KillKeeps(w, id, v, pod);
      case _ => assert forall k :: k in w.sup.containers && Waits(v, k) ==> Waits(w, k);
    }
  }

  // ---- progress and termination ----------------------------------------------------------

  lemma Another(members: set<string>, k: string) returns (other: string)
    requires k in members && members != {k}
    ensures other in members && other != k
  {
    assert members - {k} != {} by {
      assert members == (members - {k}) + {k};
    }
    other :| other in members - {k};
  }

  // Only the creator can be waiting, and then it has company that is not.
  lemma ReadyMember(w: World, pod: string) returns (k: string)
    requires PodReady(w, pod) && NotAlone(w, pod) && Members(w.sup.containers, pod) != {}
    ensures k in Members(w.sup.containers, pod) && !Waits(w, k)
  {
    var members := Members(w.sup.containers, pod);
    k :| k in members;
    if Waits(w, k) {
      var other := Another(members, k);
      k := other;
    }
  }

  // A step of the pod itself: an init of its own exits or is reaped.
  ghost predicate OwnStep(w: World, step: Step, pod: string) {
    match step
    case InitExits(key) => key in Members(w.sup.containers, pod)
    case Reap(pid) => exists k :: k in Members(w.sup.containers, pod) && w.sup.containers[k].initPid == pid
    case _ => false
  }

  ghost predicate CanStep(w: World, step: Step) {
    exists v :: Next(w, step, v)
  }

  // A pod that is not empty and whose creator does not wait alone has a step of its own.
  lemma PodProgress(w: World, pod: string) returns (step: Step)
    requires Good(w) && PodReady(w, pod) && NotAlone(w, pod) && Members(w.sup.containers, pod) != {}
    ensures OwnStep(w, step, pod) && CanStep(w, step)
  {
    var k := ReadyMember(w, pod);
    assert MemberReady(w, k);
    if k !in w.alive {
      step := Reap(w.sup.containers[k].initPid);
      ExitHasNext(w, w.sup.containers[k].initPid);
    } else {
      step := InitExits(k);
      assert Next(w, step, w.(alive := w.alive - {k}, exited := w.exited + {w.sup.containers[k].initPid}));
    }
  }

  lemma ExitHasNext(w: World, pid: int)
    requires pid in w.exited
    ensures CanStep(w, Reap(pid))
  {
    var t := if key :| Found(w.sup, pid, key) then ChildExit(w.sup, pid, key) else w.sup;
    assert Next(w, Reap(pid), World(t, w.alive, w.dead, w.exited - {pid}));
  }

  // Each container still costs its workload's death, its init's exit and its reaping.
  function Measure(w: World): nat {
    |w.sup.containers.Keys - w.dead| + 2 * |w.alive| + |w.exited|
  }

  lemma ReapMeasure(w: World, pid: int, v: World)
    requires Good(w) && Next(w, Reap(pid), v)
    ensures Measure(v) < Measure(w)
  {
    var found := ExitIsReap(w, pid, v.sup);
    SubsetSize(v.sup.containers.Keys - v.dead, w.sup.containers.Keys - w.dead);
  }

  lemma DeathMeasure(w: World, key: string, v: World)
    requires Next(w, WorkloadDies(key), v)
    ensures Measure(v) < Measure(w)
  {
    assert v.sup.containers.Keys - v.dead == (w.sup.containers.Keys - w.dead) - {key};
  }

  lemma ExitMeasure(w: World, key: string, v: World)
    requires Next(w, InitExits(key), v)
    ensures Measure(v) < Measure(w)
  {
  }

  lemma KillMeasure(w: World, id: string, v: World)
    requires Next(w, Kill(id), v)
    ensures Measure(v) == Measure(w)
  {
  }

  lemma MeasureDrops(w: World, step: Step, v: World)
    requires Good(w) && Next(w, step, v)
    ensures if step.Kill? then Measure(v) == Measure(w) else Measure(v) < Measure(w)
  {
    match step {
      case WorkloadDies(key) => DeathMeasure(w, key, v);
      case InitExits(key) => ExitMeasure(w, key, v);
      case Reap(pid) => ReapMeasure(w, pid, v);
      case Kill(id) => KillMeasure(w, id, v);
    }
  }

  // ---- runs ----------------------------------------------------------------------------------

  ghost predicate IsRun(run: seq<World>, steps: seq<Step>) {
    |run| == |steps| + 1 && forall i :: 0 <= i < |steps| ==> Follows(run, steps, i)
  }

  ghost predicate Follows(run: seq<World>, steps: seq<Step>, i: nat) {
    |run| == |steps| + 1 && i < |steps| && Next(run[i], steps[i], run[i + 1])
  }

  // Nothing is left of the pod's own doing.
  ghost predicate PodStuck(w: World, pod: string) {
    forall step :: OwnStep(w, step, pod) ==> !CanStep(w, step)
  }

  // Nothing is left at all, short of kills.
  ghost predicate Stuck(w: World) {
    forall step :: CanStep(w, step) ==> step.Kill?
  }

  lemma StuckPods(w: World, pod: string)
    requires Stuck(w)
    ensures PodStuck(w, pod)
  {
  }

  function WithoutKills(steps: seq<Step>): nat {
    if steps == [] then 0
    else WithoutKills(steps[..|steps| - 1]) + if steps[|steps| - 1].Kill? then 0 else 1
  }

  lemma GoodNext(run: seq<World>, steps: seq<Step>, i: nat)
    requires IsRun(run, steps) && i < |steps| && Good(run[i])
    ensures Good(run[i + 1])
  {
    assert Follows(run, steps, i);
    NextGood(run[i], steps[i], run[i + 1]);
  }

  lemma {:induction false} RunGood(run: seq<World>, steps: seq<Step>, i: nat)
    requires IsRun(run, steps) && Good(run[0]) && i <= |steps|
    ensures Good(run[i])
  {
    if i > 0 {
      RunGood(run, steps, i - 1);
      GoodNext(run, steps, i - 1);
    }
  }

  lemma MeasureNext(run: seq<World>, steps: seq<Step>, i: nat)
    requires IsRun(run, steps) && Good(run[0]) && i < |steps|
    ensures Measure(run[i + 1]) + WithoutKills(steps[..i + 1]) <= Measure(run[i]) + WithoutKills(steps[..i])
  {
    RunGood(run, steps, i);
    assert Follows(run, steps, i);
    MeasureDrops(run[i], steps[i], run[i + 1]);
    assert steps[..i + 1][..i] == steps[..i];
  }

  // What a run has left and what it has spent, kills aside.
  function Budget(run: seq<World>, steps: seq<Step>, i: nat): nat
    requires i < |run| && i <= |steps|
  {
    Measure(run[i]) + WithoutKills(steps[..i])
  }

  lemma {:induction false} BudgetFalls(run: seq<World>, steps: seq<Step>, i: nat)
    requires |run| == |steps| + 1 && i <= |steps|
    requires forall k :: 0 <= k < i ==> Budget(run, steps, k + 1) <= Budget(run, steps, k)
    ensures Budget(run, steps, i) <= Budget(run, steps, 0)
  {
    if i > 0 {
      BudgetFalls(run, steps, i - 1);
      assert Budget(run, steps, i - 1 + 1) <= Budget(run, steps, i - 1);
    }
  }

  // Every run ends, kills aside.
  lemma RunsAreBounded(run: seq<World>, steps: seq<Step>)
    requires IsRun(run, steps) && Good(run[0])
    ensures WithoutKills(steps) <= Measure(run[0])
  {
    forall k | 0 <= k < |steps| ensures Budget(run, steps, k + 1) <= Budget(run, steps, k) {
      MeasureNext(run, steps, k);
    }
    BudgetFalls(run, steps, |steps|);
    assert steps[..0] == [] && steps[..|steps|] == steps;
  }

  lemma ReadyNext(run: seq<World>, steps: seq<Step>, pod: string, i: nat)
    requires IsRun(run, steps) && i < |steps| && Good(run[i]) && PodReady(run[i], pod)
    ensures Good(run[i + 1]) && PodReady(run[i + 1], pod)
    ensures forall ip :: Accounted(run[i], pod, ip) ==> Accounted(run[i + 1], pod, ip)
  {
    assert Follows(run, steps, i);
    ReadyStep(run[i], steps[i], run[i + 1], pod);
    forall ip | Accounted(run[i], pod, ip) ensures Accounted(run[i + 1], pod, ip) {
      AccountStep(run[i], steps[i], run[i + 1], pod, ip);
    }
  }

  lemma {:induction false} RunReady(run: seq<World>, steps: seq<Step>, pod: string, i: nat)
    requires IsRun(run, steps) && Good(run[0]) && PodReady(run[0], pod) && i <= |steps|
    ensures Good(run[i]) && PodReady(run[i], pod)
    ensures forall ip :: Accounted(run[0], pod, ip) ==> Accounted(run[i], pod, ip)
  {
    if i > 0 {
      RunReady(run, steps, pod, i - 1);
      ReadyNext(run, steps, pod, i - 1);
    }
  }

  lemma DrainNext(run: seq<World>, steps: seq<Step>, pod: string, i: nat)
    requires IsRun(run, steps) && Good(run[0]) && PodReady(run[0], pod) && i < |steps| && Draining(run[i], pod)
    ensures Draining(run[i + 1], pod)
  {
    RunReady(run, steps, pod, i);
    assert Follows(run, steps, i);
    DrainStep(run[i], steps[i], run[i + 1], pod);
  }

  ghost predicate KeepsDraining(run: seq<World>, pod: string, i: nat) {
    i + 1 < |run| && (Draining(run[i], pod) ==> Draining(run[i + 1], pod))
  }

  lemma {:induction false} StaysDraining(run: seq<World>, pod: string, from: nat, i: nat)
    requires from <= i < |run| && Draining(run[from], pod)
    requires forall k :: from <= k < i ==> KeepsDraining(run, pod, k)
    ensures Draining(run[i], pod)
  {
    if i > from {
      StaysDraining(run, pod, from, i - 1);
      assert KeepsDraining(run, pod, i - 1);
    }
  }

  lemma RunKeeps(run: seq<World>, steps: seq<Step>, pod: string, from: nat, i: nat)
    requires IsRun(run, steps) && Good(run[0]) && PodReady(run[0], pod)
    requires from <= i <= |steps| && Draining(run[from], pod)
    ensures Draining(run[i], pod)
  {
    forall k | from <= k < i ensures KeepsDraining(run, pod, k) {
      if Draining(run[k], pod) {
        DrainNext(run, steps, pod, k);
      }
    }
    StaysDraining(run, pod, from, i);
  }

  // From the moment no creator waits alone, only an empty and cleared pod can be stuck.
  lemma StuckIsCleared(run: seq<World>, steps: seq<Step>, pod: string, from: nat)
    requires IsRun(run, steps) && Good(run[0]) && PodReady(run[0], pod)
    requires from <= |steps| && Draining(run[from], pod) && PodStuck(run[|steps|], pod)
    ensures Cleared(run[|steps|].sup, pod)
  {
    RunKeeps(run, steps, pod, from, |steps|);
    RunReady(run, steps, pod, |steps|);
    if Members(run[|steps|].sup.containers, pod) != {} {
      var step := PodProgress(run[|steps|], pod);
    }
  }

  // ---- the forwards ---------------------------------------------------------------------------

  ghost predicate SameForwards(s: Sup, t: Sup, pod: string) {
    && (pod in t.forwards <==> pod in s.forwards)
    && (pod in t.forwards ==> t.forwards[pod] == s.forwards[pod])
  }

  lemma ForwardsStep(w: World, step: Step, v: World, pod: string)
    requires Good(w) && Next(w, step, v) && Members(v.sup.containers, pod) != {}
    ensures Members(w.sup.containers, pod) != {} && SameForwards(w.sup, v.sup, pod)
  {
    if step.Reap? {
      ExitForwards(w.sup, step.pid, v.sup, pod);
      var found := ExitIsReap(w, step.pid, v.sup);
      if found.Some? {
        MembersLess(w.sup.containers, found.value, pod);
      }
    }
  }

  lemma ForwardsNext(run: seq<World>, steps: seq<Step>, pod: string, i: nat)
    requires IsRun(run, steps) && Good(run[0]) && i < |steps| && Members(run[i + 1].sup.containers, pod) != {}
    ensures Members(run[i].sup.containers, pod) != {} && SameForwards(run[i].sup, run[i + 1].sup, pod)
  {
    RunGood(run, steps, i);
    assert Follows(run, steps, i);
    ForwardsStep(run[i], steps[i], run[i + 1], pod);
  }

  // Main result: while any member of the pod is left, its forwards are those of the start.
  lemma {:induction false} ForwardsUntilEmpty(run: seq<World>, steps: seq<Step>, pod: string, i: nat)
    requires IsRun(run, steps) && Good(run[0]) && i <= |steps| && Members(run[i].sup.containers, pod) != {}
    ensures SameForwards(run[0].sup, run[i].sup, pod)
  {
    if i > 0 {
      ForwardsNext(run, steps, pod, i - 1);
      ForwardsUntilEmpty(run, steps, pod, i - 1);
    }
  }

  // ---- the creator that waits alone ----------------------------------------------------------------

  // A lone creator with its pipe open: nobody but an exit in its pod or a kill would free it.
  ghost predicate Alone(w: World, pod: string, root: string) {
    && Good(w) && Members(w.sup.containers, pod) == {root} && Waits(w, root)
    && w.sup.containers[root].workloadPid > 0
  }

  lemma AloneReap(w: World, pid: int, v: World, pod: string, root: string)
    requires Alone(w, pod, root) && Next(w, Reap(pid), v)
    ensures Alone(v, pod, root)
  {
    NextGood(w, Reap(pid), v);
    var found := ExitIsReap(w, pid, v.sup);
    assert root in Members(w.sup.containers, pod);
    if found.Some? {
      var key := found.value;
      assert key !in Members(w.sup.containers, pod);
      ReapElsewhere(w.sup, w.sup.containers[key], key, pod);
      assert root in v.sup.containers;
      OtherPodsPipe(w, key, v.sup, root, pod);
    }
  }

  lemma AloneStep(w: World, step: Step, v: World, pod: string, root: string)
    requires Alone(w, pod, root) && Next(w, step, v) && step != Kill(root)
    ensures Alone(v, pod, root)
  {
    NextGood(w, step, v);
    assert root in Members(w.sup.containers, pod);
    match step {
      case Reap(pid) => AloneReap(w, pid, v, pod, root);
      case Kill(id) => OtherKillsPipe(w, id, root);
      case _ =>
    }
  }

  // Killing another container frees no pipe but that container's.
  lemma OtherKillsPipe(w: World, id: string, root: string)
    requires Piped(w.sup) && root in w.sup.containers && id != root
    requires HasOpenPipe(w.sup.containers[root], w.sup.keepAlive)
    ensures HasOpenPipe(w.sup.containers[root], Killed(w.sup, id).keepAlive)
  {
    assert id in w.sup.containers ==> w.sup.containers[root].ipc != w.sup.containers[id].ipc;
  }

  lemma OtherPodsPipe(w: World, key: string, t: Sup, root: string, pod: string)
    requires Piped(w.sup) && key in w.sup.containers && !InPod(key, pod)
    requires root in w.sup.containers && InPod(root, pod) && IsNetRoot(w.sup.containers[root])
    requires HasOpenPipe(w.sup.containers[root], w.sup.keepAlive)
    requires t == ReapInit(w.sup, w.sup.containers[key], key)
    ensures HasOpenPipe(w.sup.containers[root], t.keepAlive)
  {
    var ipc := w.sup.containers[root].ipc.value;
    ReapPipes(w.sup, w.sup.containers[key], key, ipc);
    EmptyIsNoPod(key, root);
    forall k | Members(t.containers, PodName(key)) == {k} && k in t.containers ensures t.containers[k].ipc != Some(ipc) {
      assert k in Members(t.containers, PodName(key));
      assert k != root;
    }
  }

  // A container outside every pod shares no pod name with a member.
  lemma EmptyIsNoPod(key: string, root: string)
    ensures InPod(root, PodName(key)) ==> Split(key).Some?
  {
    if Split(root).Some? {
      SplitIff(root, Split(root).value);
    }
  }

  lemma AloneNext(run: seq<World>, steps: seq<Step>, pod: string, root: string, i: nat)
    requires IsRun(run, steps) && i < |steps| && Alone(run[i], pod, root) && steps[i] != Kill(root)
    ensures Alone(run[i + 1], pod, root)
  {
    assert Follows(run, steps, i);
    AloneStep(run[i], steps[i], run[i + 1], pod, root);
  }

  lemma {:induction false} AloneUntilKilled(run: seq<World>, steps: seq<Step>, pod: string, root: string, i: nat)
    requires IsRun(run, steps) && Alone(run[0], pod, root) && i <= |steps|
    requires forall k :: 0 <= k < i ==> steps[k] != Kill(root)
    ensures Alone(run[i], pod, root)
  {
    if i > 0 {
      AloneUntilKilled(run, steps, pod, root, i - 1);
      AloneNext(run, steps, pod, root, i - 1);
    }
  }

  // Killing the lone creator lets it go.
  lemma KillReleasesLone(w: World, v: World, pod: string, root: string)
    requires Alone(w, pod, root) && Next(w, Kill(root), v)
    ensures Good(v) && NotAlone(v, pod)
  {
    assert root in Members(w.sup.containers, pod);
    MembersLess(w.sup.containers, root, pod);
    assert Members(v.sup.containers, pod) == {root};
    assert !Waits(v, root);
  }

  // ---- main results ---------------------------------------------------------------------------------

  // The creator alone in the pod at the start is killed in the run.
  predicate LoneKilled(w: World, steps: seq<Step>, pod: string) {
    exists i :: 0 <= i < |steps| && steps[i].Kill? && Members(w.sup.containers, pod) == {steps[i].id}
  }

  lemma {:induction false} FirstKill(steps: seq<Step>, root: string, n: nat) returns (i: nat)
    requires n < |steps| && steps[n] == Kill(root)
    ensures i <= n && steps[i] == Kill(root) && forall k :: 0 <= k < i ==> steps[k] != Kill(root)
  {
    if k :| 0 <= k < n && steps[k] == Kill(root) {
      i := FirstKill(steps, root, k);
    } else {
      i := n;
    }
  }

  lemma AloneAtStart(w: World, pod: string) returns (root: string)
    requires Good(w) && PodReady(w, pod) && !NotAlone(w, pod)
    ensures Alone(w, pod, root)
  {
    root :| root in Members(w.sup.containers, pod) && Waits(w, root) && Members(w.sup.containers, pod) == {root};
    assert MemberReady(w, root);
  }

  lemma KillNext(run: seq<World>, steps: seq<Step>, pod: string, root: string, i: nat)
    requires IsRun(run, steps) && i < |steps| && steps[i] == Kill(root)
    requires Alone(run[i], pod, root)
    ensures Draining(run[i + 1], pod)
  {
    assert Follows(run, steps, i);
    KillReleasesLone(run[i], run[i + 1], pod, root);
    assert root in Members(run[i].sup.containers, pod);
    assert Members(run[i + 1].sup.containers, pod) == Members(run[i].sup.containers, pod);
  }

  lemma KilledDrains(run: seq<World>, steps: seq<Step>, pod: string, root: string, n: nat)
    requires IsRun(run, steps) && PodStuck(run[|steps|], pod) && PodReady(run[0], pod)
    requires Alone(run[0], pod, root) && n < |steps| && steps[n] == Kill(root)
    ensures Cleared(run[|steps|].sup, pod)
  {
    var i := FirstKill(steps, root, n);
    AloneUntilKilled(run, steps, pod, root, i);
    KillNext(run, steps, pod, root, i);
    StuckIsCleared(run, steps, pod, i + 1);
  }

  // Main result, for every run with any number of kills, that leaves the pod no step of its
  // own: the pod is drained, that is empty, its forwards removed and nothing parked, if and
  // only if no creator waited alone in it, or that creator was killed.
  lemma DrainsIff(run: seq<World>, steps: seq<Step>, pod: string)
    requires IsRun(run, steps) && PodStuck(run[|steps|], pod)
    requires Good(run[0]) && PodReady(run[0], pod) && Members(run[0].sup.containers, pod) != {}
    ensures Cleared(run[|steps|].sup, pod) <==> NotAlone(run[0], pod) || LoneKilled(run[0], steps, pod)
  {
    if NotAlone(run[0], pod) {
      StuckIsCleared(run, steps, pod, 0);
    } else {
      var root := AloneAtStart(run[0], pod);
      if LoneKilled(run[0], steps, pod) {
        var n :| 0 <= n < |steps| && steps[n].Kill? && Members(run[0].sup.containers, pod) == {steps[n].id};
        assert steps[n].id in {root};
        KilledDrains(run, steps, pod, root, n);
      } else {
        AloneUntilKilled(run, steps, pod, root, |steps|);
        assert root in Members(run[|steps|].sup.containers, pod);
      }
    }
  }

  // Main result: and a drained pod has returned the address it held, in the map or parked.
  lemma DrainReturnsAddress(run: seq<World>, steps: seq<Step>, pod: string, ip: IP)
    requires IsRun(run, steps) && Cleared(run[|steps|].sup, pod)
    requires Good(run[0]) && PodReady(run[0], pod) && HoldsAddress(run[0].sup, pod, ip)
    ensures ip !in run[|steps|].sup.pool.used
  {
    RunReady(run, steps, pod, |steps|);
    assert Accounted(run[0], pod, ip);
  }

  // Together: such a pod ends empty and cleared, with its address back in the pool.
  lemma PodDrains(run: seq<World>, steps: seq<Step>, last: World, pod: string, ip: IP)
    requires IsRun(run, steps) && last == run[|steps|] && PodStuck(last, pod)
    requires Good(run[0]) && PodReady(run[0], pod) && Members(run[0].sup.containers, pod) != {}
    requires NotAlone(run[0], pod) || LoneKilled(run[0], steps, pod)
    requires HoldsAddress(run[0].sup, pod, ip)
    ensures Cleared(last.sup, pod)
    ensures ip !in last.sup.pool.used
  {
    DrainsIff(run, steps, pod);
    DrainReturnsAddress(run, steps, pod, ip);
  }

  lemma RunExtends(run: seq<World>, steps: seq<Step>, step: Step, v: World)
    requires IsRun(run, steps) && Next(run[|steps|], step, v)
    ensures IsRun(run + [v], steps + [step])
  {
    forall i | 0 <= i < |steps + [step]| ensures Follows(run + [v], steps + [step], i) {
      assert i < |steps| ==> Follows(run, steps, i);
    }
  }

  lemma {:induction false} Complete(run: seq<World>, steps: seq<Step>) returns (full: seq<World>, all: seq<Step>)
    requires IsRun(run, steps) && Good(run[0]) && WithoutKills(steps) == |steps|
    ensures IsRun(full, all) && full[0] == run[0] && Stuck(full[|all|]) && WithoutKills(all) == |all|
    decreases Measure(run[0]) - |steps|
  {
    RunsAreBounded(run, steps);
    full, all := run, steps;
    if !Stuck(run[|steps|]) {
      var step :| CanStep(run[|steps|], step) && !step.Kill?;
      var v :| Next(run[|steps|], step, v);
      assert (steps + [step])[..|steps|] == steps;
      RunExtends(run, steps, step, v);
      RunsAreBounded(run + [v], steps + [step]);
      full, all := Complete(run + [v], steps + [step]);
    }
  }

  ghost predicate Drained(run: seq<World>, pod: string) {
    |run| > 0 && Cleared(run[|run| - 1].sup, pod)
  }

  ghost predicate MaximalFrom(w: World, run: seq<World>, steps: seq<Step>) {
    IsRun(run, steps) && run[0] == w && Stuck(run[|steps|]) && WithoutKills(steps) == |steps|
  }

  ghost predicate AlwaysDrains(w: World, pod: string) {
    forall run: seq<World>, steps: seq<Step> :: MaximalFrom(w, run, steps) ==> Drained(run, pod)
  }

  lemma {:induction false} NoKills(steps: seq<Step>, i: nat)
    requires WithoutKills(steps) == |steps| && i < |steps|
    ensures !steps[i].Kill?
  {
    var n := |steps| - 1;
    AtMostAll(steps[..n]);
    if i < n {
      NoKills(steps[..n], i);
    }
  }

  lemma {:induction false} AtMostAll(steps: seq<Step>)
    ensures WithoutKills(steps) <= |steps|
  {
    if steps != [] {
      AtMostAll(steps[..|steps| - 1]);
    }
  }

  // Main result: left alone, a pod drains in all maximal runs if and only if no creator waits
  // alone in it.
  lemma DrainsIffNotAlone(w: World, pod: string)
    requires Good(w) && PodReady(w, pod) && Members(w.sup.containers, pod) != {}
    ensures AlwaysDrains(w, pod) <==> NotAlone(w, pod)
  {
    forall run: seq<World>, steps: seq<Step> | MaximalFrom(w, run, steps)
      ensures Drained(run, pod) <==> NotAlone(w, pod)
    {
      StuckPods(run[|steps|], pod);
      DrainsIff(run, steps, pod);
      forall i | 0 <= i < |steps| ensures !steps[i].Kill? {
        NoKills(steps, i);
      }
    }
    var full, all := Complete([w], []);
    assert MaximalFrom(w, full, all);
  }
}
