// KeepAlive pipes that their own start function frees, outside the lock: those of joiners and
// batch creators.  sup/orchestrator.go, lines 145-147, 235-236 and 265-266, against
// sup/clean.go and killOneWithRetry.
module BatchPipes {
  import opened Prelude
  import opened Namespaces
  import opened ContainerId
  import opened IpAllocator
  import opened Reaper
  import opened Lifecycle
  import opened Scripts

  // ---- when an exit or a kill releases a pipe -----------------------------------------

  // The guards of the reaper and of the kill path, before they act on pipe i.
  ghost predicate Releases(s: Sup, step: Step, i: nat) {
    && i in s.keepAlive && s.keepAlive[i].open
    && match step
       case Exit(pid, Some(key)) => ExitGuard(s, pid, key, i)
       case Kill(id) => KillGuard(s, id, i)
       case _ => false
  }

  ghost predicate ExitGuard(s: Sup, pid: int, key: string, i: nat) {
    && key in s.containers && s.containers[key].spec.Some?
    && var c := s.containers[key];
    || (pid == c.workloadPid && IsNetRoot(c) && c.ipc == Some(i))
    || (pid == c.initPid && LoneRoot(s.containers - {c.spec.value.id}, PodName(c.spec.value.id), i))
  }

  ghost predicate KillGuard(s: Sup, id: string, i: nat) {
    && id in s.containers && s.containers[id].workloadPid > 0
    && IsNetRoot(s.containers[id]) && s.containers[id].ipc == Some(i)
    && Split(id).Some? && Members(s.containers - {id}, PodName(id)) == {}
  }

  lemma ReapReleasesIff(s: Sup, c: Container, id: string, i: nat)
    requires i in s.keepAlive
    ensures i in ReapInit(s, c, id).keepAlive
    ensures ReapInit(s, c, id).keepAlive[i]
         == if s.keepAlive[i].open && LoneRoot(s.containers - {id}, PodName(id), i)
            then KeepAlive(false, s.keepAlive[i].frees + 1) else s.keepAlive[i]
  {
    var containers, pod := s.containers - {id}, PodName(id);
    if k :| Members(containers, pod) == {k} {
      ReleaseLastOne(containers, s.keepAlive, pod, k);
      forall j | Members(containers, pod) == {j} ensures j == k {
        assert j in {k};
      }
    }
  }

  lemma ExitReleasesIff(s: Sup, pid: int, key: string, i: nat)
    requires key in s.containers && s.containers[key].spec.Some? && i in s.keepAlive
    ensures i in ChildExit(s, pid, key).keepAlive
    ensures ChildExit(s, pid, key).keepAlive[i]
         == if s.keepAlive[i].open && ExitGuard(s, pid, key, i)
            then KeepAlive(false, s.keepAlive[i].frees + 1) else s.keepAlive[i]
  {
    var c := s.containers[key];
    var t := if pid == c.workloadPid then s.(keepAlive := Release(s.keepAlive, c)) else s;
    ReapReleasesIff(t, c, c.spec.value.id, i);
  }

  // An exit or a kill frees pipe i, once, exactly when its guards hold.
  lemma ReleasesIff(w: World, step: Step, i: nat)
    requires Enabled(w, step) && (step.Exit? || step.Kill?) && i in w.sup.keepAlive
    ensures i in Do(w, step).sup.keepAlive
    ensures Do(w, step).sup.keepAlive[i]
         == if Releases(w.sup, step, i) then KeepAlive(false, w.sup.keepAlive[i].frees + 1) else w.sup.keepAlive[i]
  {
    match step {
      case Exit(pid, Some(key)) => ExitReleasesIff(w.sup, pid, key, i);
      case _ =>
    }
  }

  // ---- the bounds -----------------------------------------------------------------------

  // How often a pipe may have been freed, by how far its start call has come.
  predicate FreesFit(s: Start, k: KeepAlive) {
    && k.frees <= (if s.kind == BatchCreator then 2 else 1)
    && (k.open ==> k.frees == if s.pc == PFreed then 1 else 0)
    && (!k.open ==> k.frees >= 1)
    && (!k.open && !Creates(s.kind) ==> s.pc == PMarked || s.pc == PReturned)
    && (s.kind == Creator ==> s.pc != PFreed)
  }

  ghost predicate FreesInv(w: World) {
    && PipeInv(w)
    && forall i :: 0 <= i < |w.starts| ==> FreesFit(w.starts[i], w.sup.keepAlive[i])
  }

  lemma MoveFrees(s: Start, k: KeepAlive, move: Move, pool: Pool)
    requires FreesFit(s, k) && CanMove(s, move)
    ensures FreesFit(NextStart(s, move, pool), NextKeepAlive(k, move))
    ensures NextKeepAlive(k, move).frees == 2 <==> k.frees == 2
  {
  }

  lemma ReleaseFrees(w: World, step: Step, i: nat)
    requires PipeInv(w) && i < |w.starts| && FreesFit(w.starts[i], w.sup.keepAlive[i])
    requires Enabled(w, step) && (step.Exit? || step.Kill?)
    ensures var v := Do(w, step);
      && v.starts == w.starts && i in v.sup.keepAlive && FreesFit(v.starts[i], v.sup.keepAlive[i])
      && (v.sup.keepAlive[i].frees == 2 <==>
           w.sup.keepAlive[i].frees == 2 || (w.starts[i].pc == PFreed && Releases(w.sup, step, i)))
  {
    ReleasesIff(w, step, i);
    PipeChangesOnlyBy(w, step, i);
  }

  // One step: the bounds are kept, and a second free is a release between a start function's
  // free and its marking.
  lemma StepFrees(w: World, step: Step, i: nat)
    requires PipeInv(w) && i < |w.starts| && FreesFit(w.starts[i], w.sup.keepAlive[i]) && Enabled(w, step)
    ensures var v := Do(w, step);
      && i < |v.starts| && i in v.sup.keepAlive && FreesFit(v.starts[i], v.sup.keepAlive[i])
      && (v.sup.keepAlive[i].frees == 2 <==>
           w.sup.keepAlive[i].frees == 2 || (w.starts[i].pc == PFreed && Releases(w.sup, step, i)))
  {
    if step.Exit? || step.Kill? {
      ReleaseFrees(w, step, i);
    } else if step.Advance? && step.i == i {
      MoveFrees(w.starts[i], w.sup.keepAlive[i], step.move, w.sup.pool);
    }
  }

  lemma StepFreesInv(w: World, step: Step)
    requires FreesInv(w) && Enabled(w, step)
    ensures FreesInv(Do(w, step))
  {
    var v := Do(w, step);
    StepPipeInv(w, step);
    forall i | 0 <= i < |v.starts| ensures FreesFit(v.starts[i], v.sup.keepAlive[i]) {
      if i < |w.starts| {
        StepFrees(w, step, i);
      }
    }
  }

  lemma {:induction false} RunFrees(base: IP, steps: seq<Step>)
    requires Run(base, steps).Some?
    ensures FreesInv(Run(base, steps).value)
  {
    if steps != [] {
      var n := |steps| - 1;
      RunFrees(base, steps[..n]);
      StepFreesInv(Run(base, steps[..n]).value, steps[n]);
    }
  }

  // Main result: after any run every pipe has been freed at most twice, and at most once
  // unless it is a batch creator's.  A joiner's pipe is open until its own start function
  // marks it, and an open pipe has been freed exactly while that function is at the mark.
  lemma PipeFreesBounded(base: IP, steps: seq<Step>, w: World, i: nat)
    requires Run(base, steps) == Some(w) && i < |w.starts|
    ensures i in w.sup.keepAlive
    ensures w.sup.keepAlive[i].frees <= (if w.starts[i].kind == BatchCreator then 2 else 1)
    ensures w.sup.keepAlive[i].open ==> w.sup.keepAlive[i].frees == if w.starts[i].pc == PFreed then 1 else 0
    ensures !Creates(w.starts[i].kind) && !w.sup.keepAlive[i].open ==> w.starts[i].pc == PMarked || w.starts[i].pc == PReturned
  {
    RunFrees(base, steps);
    assert FreesFit(w.starts[i], w.sup.keepAlive[i]);
  }

  // ---- the exact condition ------------------------------------------------------------------

  // Step n releases pipe i while its start function has freed it and not yet marked it.
  ghost predicate ReleasedBetween(base: IP, steps: seq<Step>, n: nat, i: nat) {
    && n < |steps| && Run(base, steps[..n]).Some?
    && var w := Run(base, steps[..n]).value;
    && i < |w.starts| && w.starts[i].pc == PFreed && Releases(w.sup, steps[n], i)
  }

  lemma {:induction false} StartsGrow(base: IP, steps: seq<Step>, n: nat)
    requires Run(base, steps).Some? && n <= |steps|
    ensures Run(base, steps[..n]).Some?
    ensures |Run(base, steps[..n]).value.starts| <= |Run(base, steps).value.starts|
  {
    if n == |steps| {
      assert steps[..n] == steps;
    } else {
      var past := steps[..|steps| - 1];
      StartsGrow(base, past, n);
      assert past[..n] == steps[..n];
    }
  }

  lemma SplitBetween(base: IP, steps: seq<Step>, i: nat)
    requires steps != []
    ensures var m := |steps| - 1;
      (exists n :: ReleasedBetween(base, steps, n, i)) <==>
      (exists n :: ReleasedBetween(base, steps[..m], n, i)) || ReleasedBetween(base, steps, m, i)
  {
    var m := |steps| - 1;
    forall n: nat | n < m ensures ReleasedBetween(base, steps, n, i) <==> ReleasedBetween(base, steps[..m], n, i) {
      assert steps[..m][..n] == steps[..n];
    }
  }

  // Main result: a pipe has been freed twice if and only if some handled exit or kill released
  // it between its start function's free and its marking.
  lemma {:induction false} FreedTwiceIff(base: IP, steps: seq<Step>, w: World, i: nat)
    requires Run(base, steps) == Some(w) && i < |w.starts|
    ensures i in w.sup.keepAlive
    ensures w.sup.keepAlive[i].frees == 2 <==> exists n :: ReleasedBetween(base, steps, n, i)
  {
    RunFrees(base, steps);
    if steps != [] {
      var m := |steps| - 1;
      var past := Run(base, steps[..m]).value;
      RunFrees(base, steps[..m]);
      SplitBetween(base, steps, i);
      if i < |past.starts| {
        FreedTwiceIff(base, steps[..m], past, i);
        StepFrees(past, steps[m], i);
      } else {
        NotYet(base, steps[..m], i);
      }
    }
  }

  lemma NotYet(base: IP, steps: seq<Step>, i: nat)
    requires Run(base, steps).Some? && |Run(base, steps).value.starts| <= i
    ensures !exists n :: ReleasedBetween(base, steps, n, i)
  {
    forall n: nat | n < |steps| ensures !ReleasedBetween(base, steps, n, i) {
      StartsGrow(base, steps, n);
    }
  }

  // ---- a run in which it happens ---------------------------------------------------------------

  // A run whose exits are all those of the given init processes.
  ghost predicate RunsTo(base: IP, steps: seq<Step>, w: World, inits: set<int>) {
    && Run(base, steps) == Some(w)
    && forall k :: 0 <= k < |steps| && steps[k].Exit? ==> steps[k].pid in inits
  }

  lemma RunsOn(base: IP, steps: seq<Step>, w: World, inits: set<int>, step: Step)
    requires RunsTo(base, steps, w, inits) && Enabled(w, step) && (step.Exit? ==> step.pid in inits)
    ensures RunsTo(base, steps + [step], Do(w, step), inits)
  {
    RunOne(base, steps, w, step);
  }

  lemma PlayTo(base: IP, steps: seq<Step>, before: World, inits: set<int>, sc: Script, k: nat)
    returns (more: seq<Step>, w: World)
    requires RunsTo(base, steps, before, inits) && k <= 9 && Playing(before, before, sc, 0)
    ensures RunsTo(base, more, w, inits) && Playing(before, w, sc, k)
  {
    var moves;
    moves, w := Play(base, steps, before, sc, k);
    more := steps + moves;
  }

  const ROOT: string := "bctor-a1"
  const LATE: string := "bctor-a2"
  const INITS: set<int> := {1, 11}

  lemma PodA(containers: Containers)
    ensures PodName(ROOT) == PodName(LATE) == "a" && Split(ROOT).Some? && Split(LATE).Some?
    ensures containers.Keys == {ROOT} ==> Members(containers, "a") == {ROOT}
  {
    SplitIff(ROOT, Parts("a", "1"));
    SplitIff(LATE, Parts("a", "2"));
  }

  function Late(): Script {
    Script(1, BatchJoiner, JoinerSpec(LATE, ROOT), 10, map[], None)
  }

  // A pod is started, asked to run a batch joiner, and killed and reaped before the joiner's
  // start call gets going.
  lemma OldPod(base: IP) returns (steps: seq<Step>, w: World)
    ensures RunsTo(base, steps, w, INITS)
    ensures |w.starts| == 2 && w.starts[0].initPid == 1 && w.starts[1] == StartAt(Late(), 0)
    ensures w.sup.containers == map[]
    ensures 1 in w.sup.keepAlive && w.sup.keepAlive[1] == KeepAlive(true, 0)
  {
    steps, w := OldPodKilled(base);
    var exit := Exit(1, Some(ROOT));
    RunsOn(base, steps, w, INITS, exit);
    RootReaped(w);
    steps, w := steps + [exit], DoExit(w, 1, ROOT);
  }

  lemma RootReaped(w: World)
    requires w.sup.containers.Keys == {ROOT} && Found(w.sup, 1, ROOT) && w.sup.containers[ROOT].spec == Some(CreatorSpec(ROOT))
    requires w.sup.containers[ROOT].initPid == 1 && w.sup.containers[ROOT].ipc == Some(0)
    requires 1 in w.sup.keepAlive && w.sup.keepAlive[1] == KeepAlive(true, 0)
    ensures ChildExit(w.sup, 1, ROOT).containers == map[]
    ensures 1 in ChildExit(w.sup, 1, ROOT).keepAlive && ChildExit(w.sup, 1, ROOT).keepAlive[1] == KeepAlive(true, 0)
  {
    var left := w.sup.containers - {ROOT};
    assert left == map[];
    ExitReleasesIff(w.sup, 1, ROOT, 1);
  }

  lemma OldPodKilled(base: IP) returns (steps: seq<Step>, w: World)
    ensures RunsTo(base, steps, w, INITS)
    ensures |w.starts| == 2 && w.starts[0].initPid == 1 && w.starts[1] == StartAt(Late(), 0)
    ensures w.sup.containers.Keys == {ROOT} && w.sup.containers[ROOT].spec == Some(CreatorSpec(ROOT))
    ensures w.sup.containers[ROOT].initPid == 1 && w.sup.containers[ROOT].ipc == Some(0)
    ensures Found(w.sup, 1, ROOT)
    ensures 1 in w.sup.keepAlive && w.sup.keepAlive[1] == KeepAlive(true, 0)
  {
    steps, w := OldRoot(base);
    var begin := Begin(BatchJoiner, LATE, ROOT);
    RunsOn(base, steps, w, INITS, begin);
    steps, w := steps + [begin], DoBegin(w, BatchJoiner, LATE, ROOT);
    RunsOn(base, steps, w, INITS, Kill(ROOT));
    ReleasesIff(w, Kill(ROOT), 1);
    steps, w := steps + [Kill(ROOT)], w.(sup := Killed(w.sup, ROOT));
  }

  lemma OldRoot(base: IP) returns (steps: seq<Step>, w: World)
    ensures RunsTo(base, steps, w, INITS)
    ensures |w.starts| == 1 && w.starts[0].initPid == 1
    ensures w.sup.containers.Keys == {ROOT} && 0 in w.sup.keepAlive
    ensures w.sup.containers[ROOT] == RunningObject(0, w.starts[0], Some(0)) && w.starts[0].spec == CreatorSpec(ROOT)
  {
    var begin := Begin(Creator, ROOT, "");
    RunsOn(base, [], Initially(base), INITS, begin);
    var before := Do(Initially(base), begin);
    var sc := Script(0, Creator, CreatorSpec(ROOT), 0, CREATED, Allocated(Fresh(base)).1);
    steps, w := PlayTo(base, [] + [begin], before, INITS, sc, 9);
    OnlyKey(before.sup.containers, w.sup.containers, ROOT);
  }

  // A batch creator takes the letter again and gets as far as its pipes, and then so does the
  // late joiner.
  lemma NewPodWithLateJoiner(base: IP) returns (steps: seq<Step>, w: World, root: Script)
    ensures RunsTo(base, steps, w, INITS)
    ensures root.i == 2 && root.kind == BatchCreator && root.spec == CreatorSpec(ROOT)
    ensures |w.starts| == 3 && w.starts[0].initPid == 1 && w.starts[1] == StartAt(Late(), 8) && w.starts[2] == StartAt(root, 8)
    ensures w.sup.containers.Keys == {ROOT, LATE}
    ensures w.sup.containers[ROOT] == RunningObject(2, StartAt(root, 8), Some(2))
    ensures w.sup.containers[LATE] == RunningObject(1, StartAt(Late(), 8), Some(1))
    ensures 2 in w.sup.keepAlive && w.sup.keepAlive[2] == KeepAlive(true, 0)
  {
    steps, w := OldPod(base);
    var begin := Begin(BatchCreator, ROOT, "");
    RunsOn(base, steps, w, INITS, begin);
    steps, w := steps + [begin], Do(w, begin);
    var before := w;
    root := Script(2, BatchCreator, CreatorSpec(ROOT), 20, CREATED, Allocated(w.sup.pool).1);
    steps, w := PlayTo(base, steps, before, INITS, root, 8);
    OnlyKey(before.sup.containers, w.sup.containers, ROOT);
    var middle := w;
    steps, w := PlayTo(base, steps, middle, INITS, Late(), 8);
    OnlyKey(middle.sup.containers, w.sup.containers, LATE);
    assert ROOT in w.sup.containers - {LATE};
  }

  lemma BatchFreesItsOwn(base: IP) returns (steps: seq<Step>, w: World, root: Script)
    ensures RunsTo(base, steps, w, INITS) && root.spec == CreatorSpec(ROOT) && root.kind == BatchCreator
    ensures |w.starts| == 3 && w.starts[0].initPid == 1 && w.starts[1] == StartAt(Late(), 8)
    ensures w.starts[2] == StartAt(root, 8).(pc := PFreed)
    ensures w.sup.containers.Keys == {ROOT, LATE} && Found(w.sup, 11, LATE)
    ensures w.sup.containers[ROOT] == RunningObject(2, StartAt(root, 8), Some(2))
    ensures w.sup.containers[LATE] == RunningObject(1, StartAt(Late(), 8), Some(1))
    ensures 2 in w.sup.keepAlive && w.sup.keepAlive[2] == KeepAlive(true, 1)
  {
    steps, w, root := NewPodWithLateJoiner(base);
    RunsOn(base, steps, w, INITS, Advance(2, FreePipe));
    steps, w := steps + [Advance(2, FreePipe)], DoAdvance(w, 2, FreePipe);
  }

  // The bound is met by a run in which the supervisor is told of nothing but exits of init
  // processes: the late joiner's is handled between the batch creator's free and its mark,
  // finds the creator alone in the pod and frees the number again.
  lemma BatchPipeFreedTwice(base: IP) returns (steps: seq<Step>, w: World)
    ensures Run(base, steps) == Some(w)
    ensures |w.starts| == 3 && w.starts[2].kind == BatchCreator
    ensures 2 in w.sup.keepAlive && w.sup.keepAlive[2].frees == 2
    ensures forall k :: 0 <= k < |steps| && steps[k].Exit? ==>
      steps[k].pid == w.starts[0].initPid || steps[k].pid == w.starts[1].initPid
  {
    var before, root;
    steps, before, root := BatchFreesItsOwn(base);
    RunsOn(base, steps, before, INITS, Exit(11, Some(LATE)));
    LateExitReleases(before, root);
    steps, w := steps + [Exit(11, Some(LATE))], DoExit(before, 11, LATE);
    assert w.starts == before.starts && w.starts[1].initPid == 11;
  }

  lemma LateExitReleases(w: World, root: Script)
    requires root.spec == CreatorSpec(ROOT)
    requires w.sup.containers.Keys == {ROOT, LATE} && Found(w.sup, 11, LATE)
    requires w.sup.containers[ROOT] == RunningObject(2, StartAt(root, 8), Some(2))
    requires w.sup.containers[LATE] == RunningObject(1, StartAt(Late(), 8), Some(1))
    requires 2 in w.sup.keepAlive && w.sup.keepAlive[2] == KeepAlive(true, 1)
    ensures 2 in ChildExit(w.sup, 11, LATE).keepAlive
    ensures ChildExit(w.sup, 11, LATE).keepAlive[2] == KeepAlive(false, 2)
  {
    var left := w.sup.containers - {LATE};
    assert left.Keys == {ROOT};
    PodA(left);
    assert LoneRoot(left, "a", 2);
    ExitReleasesIff(w.sup, 11, LATE, 2);
  }
}
