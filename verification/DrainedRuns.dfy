// The two views joined: a pod that has come about in a run of start calls, left to the reaper.
// What PodDrain asks of a state, runs give, but for what the kernel says of its processes.
module DrainedRuns {
  import opened Prelude
  import opened Namespaces
  import opened ContainerId
  import opened IpAllocator
  import opened Reaper
  import opened Lifecycle
  import opened Addresses
  import P = PodDrain

  // ---- what every run gives ------------------------------------------------------------

  ghost predicate Forked(starts: seq<Start>) {
    forall i :: 0 <= i < |starts| && Rank(starts[i].pc) >= 2 ==> starts[i].initPid > 0
  }

  lemma StepForked(w: World, step: Step)
    requires Forked(w.starts) && Enabled(w, step)
    ensures Forked(Do(w, step).starts)
  {
  }

  lemma {:induction false} RunForked(base: IP, steps: seq<Step>)
    requires Run(base, steps).Some?
    ensures Forked(Run(base, steps).value.starts)
  {
    if steps != [] {
      var n := |steps| - 1;
      RunForked(base, steps[..n]);
      StepForked(Run(base, steps[..n]).value, steps[n]);
    }
  }

  // What the kernel is trusted with: the PIDs in the map are those of different processes.
  ghost predicate PidsApart(s: Sup) {
    && (forall k :: k in s.containers && s.containers[k].spec.Some? ==>
         s.containers[k].workloadPid >= 0 && s.containers[k].initPid != s.containers[k].workloadPid)
    && (forall j, k :: j in s.containers && k in s.containers && j != k ==>
         P.DistinctPids(s.containers[j], s.containers[k]))
  }

  lemma StoredIdentified(w: World, k: string)
    requires AllStored(w) && Forked(w.starts) && k in w.sup.containers
    ensures var c := w.sup.containers[k];
      if c.spec.Some? then c.spec.value.id == k && c.initPid > 0 else c.initPid == 0 && c.workloadPid == 0
  {
    assert Stored(w.starts, k, w.sup.containers[k]);
  }

  lemma StoredPiped(w: World, j: string, k: string)
    requires AllStored(w) && j in w.sup.containers && k in w.sup.containers && j != k && w.sup.containers[j].ipc.Some?
    ensures w.sup.containers[j].ipc != w.sup.containers[k].ipc
  {
    assert Stored(w.starts, j, w.sup.containers[j]) && Stored(w.starts, k, w.sup.containers[k]);
  }

  // After any run the map is as PodDrain wants it, whatever the timing was.
  lemma RunIdentified(base: IP, steps: seq<Step>, w: World)
    requires Run(base, steps) == Some(w) && PidsApart(w.sup)
    ensures P.Identified(w.sup) && P.Piped(w.sup)
  {
    RunPipes(base, steps);
    RunForked(base, steps);
    forall k | k in w.sup.containers
      ensures var c := w.sup.containers[k];
        if c.spec.Some? then c.spec.value.id == k && c.initPid > 0 else c.initPid == 0 && c.workloadPid == 0
      ensures w.sup.containers[k].ipc.Some? ==> w.sup.containers[k].ipc.value in w.sup.keepAlive
    {
      StoredIdentified(w, k);
      assert Stored(w.starts, k, w.sup.containers[k]);
    }
    forall j, k | j in w.sup.containers && k in w.sup.containers && j != k && w.sup.containers[j].ipc.Some?
      ensures w.sup.containers[j].ipc != w.sup.containers[k].ipc
    {
      StoredPiped(w, j, k);
    }
  }

  // After a disciplined run a pod has one creator at most, and one address.
  lemma RootIsCreator(w: World, k: string)
    requires AllStored(w) && StartsInv(w.starts) && k in w.sup.containers
    ensures IsNetRoot(w.sup.containers[k]) ==> IsCreatorId(k)
    ensures w.sup.containers[k].net.Some? ==> IsNetRoot(w.sup.containers[k])
  {
    assert Stored(w.starts, k, w.sup.containers[k]);
    assert StartFits(w.starts[w.sup.containers[k].self.start]);
  }

  lemma OneRoot(w: World, pod: string, j: string, k: string)
    requires AllStored(w) && StartsInv(w.starts)
    requires j in Members(w.sup.containers, pod) && k in Members(w.sup.containers, pod)
    ensures IsNetRoot(w.sup.containers[j]) && IsNetRoot(w.sup.containers[k]) ==> j == k
  {
    RootIsCreator(w, j);
    RootIsCreator(w, k);
    SamePodSameCreator(j, k);
  }

  // A pod whose members' workloads are dead and whose processes are accounted for.
  ghost predicate DeadPod(p: P.World, pod: string) {
    forall k :: k in Members(p.sup.containers, pod) ==> P.MemberReady(p, k)
  }

  lemma RunPodReady(w: World, p: P.World, pod: string)
    requires Orderly(w) && p.sup == w.sup && DeadPod(p, pod)
    ensures P.PodReady(p, pod)
  {
    forall j, k | j in Members(p.sup.containers, pod) && k in Members(p.sup.containers, pod)
      ensures IsNetRoot(p.sup.containers[j]) && IsNetRoot(p.sup.containers[k]) ==> j == k
    {
      OneRoot(w, pod, j, k);
    }
    forall k | k in Members(p.sup.containers, pod)
      ensures p.sup.containers[k].net.Some? ==> IsNetRoot(p.sup.containers[k]) && pod !in p.sup.parked
    {
      RootIsCreator(w, k);
      assert k in w.sup.containers && PodName(k) == pod;
    }
  }

  // ---- draining as a run of its own --------------------------------------------------------

  predicate NoBegins(steps: seq<Step>) {
    forall k :: 0 <= k < |steps| ==> steps[k].Exit? || steps[k].Kill?
  }

  // One step of draining is at most one step of the run: an exit, a kill or nothing.
  lemma DrainMove(w: World, p: P.World, step: P.Step, q: P.World) returns (one: seq<Step>, v: World)
    requires p.sup == w.sup && P.Next(p, step, q) && (step.Reap? ==> step.pid > 0)
    ensures v.sup == q.sup && v.starts == w.starts && NoBegins(one)
    ensures (one == [] && v == w) || (|one| == 1 && Enabled(w, one[0]) && v == Do(w, one[0]))
  {
    match step {
      case Reap(pid) =>
        ExitIsExitStep(w, pid, q.sup);
        var found :| Enabled(w, Exit(pid, found)) && Do(w, Exit(pid, found)).sup == q.sup;
        one, v := [Exit(pid, found)], Do(w, Exit(pid, found));
      case Kill(id) =>
        one, v := [Kill(id)], Do(w, Kill(id));
      case _ =>
        one, v := [], w;
    }
  }

  // Pending exits are those of processes.
  predicate RealPids(exited: set<int>) {
    forall pid :: pid in exited ==> pid > 0
  }

  lemma {:induction false} ExitsPositive(run: seq<P.World>, steps: seq<P.Step>, i: nat)
    requires P.IsRun(run, steps) && P.Good(run[0]) && i <= |steps|
    requires RealPids(run[0].exited)
    ensures RealPids(run[i].exited)
  {
    if i > 0 {
      ExitsPositive(run, steps, i - 1);
      PositiveNext(run, steps, i - 1);
    }
  }

  lemma PositiveNext(run: seq<P.World>, steps: seq<P.Step>, i: nat)
    requires P.IsRun(run, steps) && P.Good(run[0]) && i < |steps|
    requires RealPids(run[i].exited)
    ensures RealPids(run[i + 1].exited)
  {
    P.RunGood(run, steps, i);
    assert P.Follows(run, steps, i);
  }

  // A draining of the state after a run is the end of a longer run, with no start call moving.
  lemma {:induction false} DrainExtends(
      base: IP, steps: seq<Step>, w: World, run: seq<P.World>, drain: seq<P.Step>, i: nat)
    returns (more: seq<Step>, v: World)
    requires Run(base, steps) == Some(w) && P.IsRun(run, drain) && run[0].sup == w.sup && i <= |drain|
    requires P.Good(run[0]) && RealPids(run[0].exited)
    ensures Run(base, steps + more) == Some(v) && v.sup == run[i].sup && v.starts == w.starts && NoBegins(more)
  {
    if i == 0 {
      more, v := [], w;
      assert steps + more == steps;
    } else {
      var past, u := DrainExtends(base, steps, w, run, drain, i - 1);
      ExitsPositive(run, drain, i - 1);
      assert P.Follows(run, drain, i - 1);
      var one;
      one, v := DrainMove(u, run[i - 1], drain[i - 1], run[i]);
      more := past + one;
      if one == [] {
        assert more == past;
      } else {
        RunOne(base, steps + past, u, one[0]);
        assert steps + more == (steps + past) + [one[0]];
      }
    }
  }

  lemma {:induction false} EndsDisciplined(base: IP, steps: seq<Step>, more: seq<Step>, w: World)
    requires DisciplinedRun(base, steps) && Run(base, steps) == Some(w) && NoCommand(w)
    requires Run(base, steps + more).Some? && NoBegins(more)
    ensures DisciplinedRun(base, steps + more) && Run(base, steps + more).value.starts == w.starts
  {
    if more == [] {
      assert steps + more == steps;
    } else {
      var n := |more| - 1;
      assert (steps + more)[..|steps + more| - 1] == steps + more[..n];
      EndsDisciplined(base, steps, more[..n], w);
    }
  }

  // Main result: take any disciplined run, at whose end the map's PIDs are those of different
  // processes and a pod's workloads are dead.  However the pod is then left to the reaper and
  // to kills until it has no step of its own, it ends drained, with every address it held
  // back in the pool, if and only if no creator waited alone in it or that creator was killed.
  lemma RunPodDrains(
      base: IP, steps: seq<Step>, w: World, run: seq<P.World>, drain: seq<P.Step>, last: P.World, pod: string)
    requires DisciplinedRun(base, steps) && Run(base, steps) == Some(w) && PidsApart(w.sup)
    requires P.IsRun(run, drain) && run[0].sup == w.sup && last == run[|drain|] && P.PodStuck(last, pod)
    requires P.Tracked(run[0]) && DeadPod(run[0], pod) && Members(w.sup.containers, pod) != {}
    ensures P.Cleared(last.sup, pod) <==> P.NotAlone(run[0], pod) || P.LoneKilled(run[0], drain, pod)
    ensures P.Cleared(last.sup, pod) ==> forall ip :: P.HoldsAddress(w.sup, pod, ip) ==> ip !in last.sup.pool.used
  {
    RunOrderly(base, steps);
    RunIdentified(base, steps, w);
    RunPodReady(w, run[0], pod);
    P.DrainsIff(run, drain, pod);
    if P.Cleared(last.sup, pod) {
      forall ip | P.HoldsAddress(w.sup, pod, ip) ensures ip !in last.sup.pool.used {
        P.DrainReturnsAddress(run, drain, pod, ip);
      }
    }
  }

  // Main result: and when every pod of the run had a letter and no command was in progress,
  // the addresses are still conserved at the end.
  lemma DrainConserves(
      base: IP, steps: seq<Step>, w: World, run: seq<P.World>, drain: seq<P.Step>) returns (more: seq<Step>, v: World)
    requires DisciplinedRun(base, steps) && Lettered(steps) && Run(base, steps) == Some(w) && NoCommand(w)
    requires PidsApart(w.sup) && P.IsRun(run, drain) && run[0].sup == w.sup && P.Tracked(run[0])
    requires RealPids(run[0].exited)
    ensures DisciplinedRun(base, steps + more) && Run(base, steps + more) == Some(v)
    ensures v.sup == run[|drain|].sup && v.starts == w.starts && Conserved(v)
  {
    RunIdentified(base, steps, w);
    more, v := DrainExtends(base, steps, w, run, drain, |drain|);
    EndsDisciplined(base, steps, more, w);
    assert Lettered(steps + more);
    AddressesConserved(base, steps + more);
    forall ip ensures ip in v.sup.pool.used <==> IsHeld(v, ip) {
      assert ip in v.sup.pool.used <==> exists h :: HeldBy(v, h) == Some(ip);
    }
  }
}
