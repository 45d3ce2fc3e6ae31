// A start call that nothing goes wrong in, as a script of its moves: a building block of the
// runs that show something can happen.
module Scripts {
  import opened Prelude
  import opened Namespaces
  import opened ContainerId
  import opened IpAllocator
  import opened Reaper
  import opened Lifecycle

  // Call number i, of an init with PID pid+1 and a workload with pid+2; what init reports, and
  // the address the call gets.
  datatype Script = Script(
    i: nat, kind: Kind, spec: ContainerSpec, pid: nat, report: map<NamespaceType, int>, net: Option<IP>)

  const CREATED: map<NamespaceType, int> := map[NSUser := 3, NSNet := 4, NSMnt := 5, NSPID := 6]

  // The interactive creator returns; the others get as far as freeing their pipe.
  function MoveAt(sc: Script, k: nat): Move
    requires k < 9
  {
    [Fork(Some(sc.pid + 1)), ShareHandles(true), Insert, Register(sc.pid + 2, Some(sc.report)), Allocate,
     Configure(true), Publish, Attach, if sc.kind == Creator then Return else FreePipe][k]
  }

  function StartAt(sc: Script, k: nat): Start
    requires k <= 9
  {
    Start(sc.kind, sc.spec, if k == 0 then 0 else sc.pid + 1, if k <= 3 then 0 else sc.pid + 2,
          if k <= 3 then map[] else sc.report, if k <= 4 then None else sc.net,
          [PBegun, PForked, PShared, PInserted, PRegistered, PAllocated, PConfigured, PPublished, PAttached,
           if sc.kind == Creator then PReturned else PFreed][k])
  }

  predicate Wants(sc: Script) {
    sc.spec.isNetRoot && NSNet in sc.report && sc.report[NSNet] != 0
  }

  predicate Fits(sc: Script, pool: Pool) {
    && (sc.spec.isNetRoot <==> Creates(sc.kind))
    && sc.net == if Wants(sc) then Allocated(pool).1 else None
  }

  function PoolAt(pool: Pool, sc: Script, k: nat): Pool {
    if k >= 5 && Wants(sc) then Allocated(pool).0 else pool
  }

  function PipesAt(keepAlive: map<nat, KeepAlive>, sc: Script, k: nat): map<nat, KeepAlive> {
    if k == 9 && sc.kind != Creator then keepAlive[sc.i := KeepAlive(true, 1)] else keepAlive
  }

  // The call after k of its moves, everything else as it was before the first.
  ghost predicate Playing(before: World, w: World, sc: Script, k: nat)
    requires k <= 9
  {
    var id := sc.spec.id;
    && sc.i < |before.starts| && w.starts == before.starts[sc.i := StartAt(sc, k)]
    && w.sup.containers - {id} == before.sup.containers - {id}
    && (k >= 7 ==>
         id in w.sup.containers
         && w.sup.containers[id] == RunningObject(sc.i, StartAt(sc, k), if k == 7 then None else Some(sc.i)))
    && sc.i in before.sup.keepAlive && before.sup.keepAlive[sc.i] == KeepAlive(true, 0)
    && w.sup.keepAlive == PipesAt(before.sup.keepAlive, sc, k)
    && Fits(sc, before.sup.pool) && w.sup.pool == PoolAt(before.sup.pool, sc, k)
    && w.sup.parked == before.sup.parked
  }

  lemma ScriptMoves(sc: Script, k: nat, pool: Pool)
    requires k < 9 && Fits(sc, pool)
    ensures CanMove(StartAt(sc, k), MoveAt(sc, k))
    ensures NextStart(StartAt(sc, k), MoveAt(sc, k), PoolAt(pool, sc, k)) == StartAt(sc, k + 1)
    ensures NextPool(PoolAt(pool, sc, k), StartAt(sc, k), MoveAt(sc, k)) == PoolAt(pool, sc, k + 1)
  {
  }

  lemma ScriptStores(sc: Script, k: nat, before: Containers, containers: Containers)
    requires k < 9 && containers - {sc.spec.id} == before - {sc.spec.id}
    requires k >= 7 ==>
      sc.spec.id in containers
      && containers[sc.spec.id] == RunningObject(sc.i, StartAt(sc, k), if k == 7 then None else Some(sc.i))
    ensures var next := NextContainers(containers, sc.i, StartAt(sc, k), MoveAt(sc, k));
      && next - {sc.spec.id} == before - {sc.spec.id}
      && (k >= 6 ==>
           sc.spec.id in next
           && next[sc.spec.id] == RunningObject(sc.i, StartAt(sc, k + 1), if k == 6 then None else Some(sc.i)))
  {
  }

  lemma PlayingStep(before: World, w: World, sc: Script, k: nat)
    requires k < 9 && Playing(before, w, sc, k)
    ensures CanMove(w.starts[sc.i], MoveAt(sc, k))
    ensures Playing(before, DoAdvance(w, sc.i, MoveAt(sc, k)), sc, k + 1)
  {
    ScriptMoves(sc, k, before.sup.pool);
    ScriptStores(sc, k, before.sup.containers, w.sup.containers);
  }

  predicate OnlyAdvances(steps: seq<Step>) {
    forall k :: 0 <= k < |steps| ==> steps[k].Advance?
  }

  // The script can be played from any run that has come to its call.
  lemma {:induction false} Play(base: IP, steps: seq<Step>, before: World, sc: Script, k: nat)
    returns (more: seq<Step>, w: World)
    requires Run(base, steps) == Some(before) && k <= 9 && Playing(before, before, sc, 0)
    ensures Run(base, steps + more) == Some(w) && Playing(before, w, sc, k) && OnlyAdvances(more)
  {
    if k == 0 {
      more, w := [], before;
      assert steps + more == steps;
    } else {
      more, w := Play(base, steps, before, sc, k - 1);
      var step := Advance(sc.i, MoveAt(sc, k - 1));
      PlayingStep(before, w, sc, k - 1);
      RunOne(base, steps + more, w, step);
      assert steps + (more + [step]) == (steps + more) + [step];
      more, w := more + [step], DoAdvance(w, sc.i, MoveAt(sc, k - 1));
    }
  }

  // What a call leaves in the map: its own container, and all the others.
  lemma OnlyKey(before: Containers, after: Containers, id: string)
    requires after - {id} == before - {id} && id in after
    ensures after.Keys == before.Keys + {id}
    ensures forall k :: k in before && k != id ==> k in after && after[k] == before[k]
  {
    forall k ensures k in after <==> k in before || k == id {
      assert k in after - {id} <==> k in before - {id};
    }
    forall k | k in before && k != id ensures after[k] == before[k] {
      assert k in after - {id} && (after - {id})[k] == (before - {id})[k];
    }
  }
}
