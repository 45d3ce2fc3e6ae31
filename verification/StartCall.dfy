// The start calls as the code runs them, from fork to return, against the moves of Lifecycle:
// sup/supervisor.go, StartContainer and FinalizeContainer; sup/orchestrator.go, StartCreator
// and StartJoiner; the creator half of d_new.  Each method is a call nothing interrupts.
module StartCall {
  import opened Prelude
  import opened Namespaces
  import opened ContainerId
  import opened IpAllocator
  import opened Reaper
  import opened Lifecycle
  import Handles

  // What the kernel and init answer during one call.
  datatype Answers = Answers(
    child: Option<int>, mapsWritten: bool, workPid: int, fds: Option<map<NamespaceType, int>>,
    vethUp: bool, interfaceUp: bool)

  // The same call, further on; the pipes are as they were.
  predicate Same(w: World, v: World, i: nat)
    requires i < |w.starts|
  {
    && |v.starts| == |w.starts|
    && v.starts[i].kind == w.starts[i].kind && v.starts[i].spec == w.starts[i].spec
    && v.sup.keepAlive == w.sup.keepAlive
  }

  // The state after FinalizeContainer, as moves: from the workload's PID to the container
  // marked running.
  function Networked(w: World, i: nat, a: Answers): (v: World)
    requires i < |w.starts|
    ensures Same(w, v, i)
  {
    DoAdvance(DoAdvance(w, i, Allocate), i, Configure(a.vethUp && a.interfaceUp))
  }

  function Finalized(w: World, i: nat, a: Answers): (v: World)
    requires i < |w.starts|
    ensures Same(w, v, i)
  {
    DoAdvance(Networked(DoAdvance(w, i, Register(a.workPid, a.fds)), i, a), i, Publish)
  }

  // The state after StartContainer.
  function Started(w: World, i: nat, a: Answers): (v: World)
    requires i < |w.starts|
    ensures Same(w, v, i)
  {
    var forked := DoAdvance(w, i, Fork(a.child));
    if a.child == None then forked
    else
      var shared := DoAdvance(forked, i, ShareHandles(a.mapsWritten));
      if !a.mapsWritten then shared else Finalized(DoAdvance(shared, i, Insert), i, a)
  }

  // The supervisor is in the state of w, and call i has the local variables of s.
  ghost predicate InStep(sup: Supervisor, w: World, i: nat, s: Start)
    reads sup, sup.registry, sup.ipAlloc
  {
    w.sup == sup.State() && i < |w.starts| && w.starts[i] == s
  }

  method ConfigureNetwork(sup: Supervisor, ghost w: World, i: nat, s: Start, a: Answers) returns (net: Option<IP>)
    requires InStep(sup, w, i, s) && s.net == None
    modifies sup.ipAlloc
    ensures Networked(w, i, a).sup == sup.State()
    ensures Networked(w, i, a).starts[i] == s.(net := net, pc := PConfigured)
    ensures net ==
      if s.spec.isNetRoot && NSNet in s.created && s.created[NSNet] != 0 && a.vethUp && a.interfaceUp
      then Allocated(old(sup.ipAlloc.State())).1 else None
    ensures net.None? ==> sup.ipAlloc.used == old(sup.ipAlloc.used)
  {
    net := None;
    if WantsAddress(s) {
      net := NetworkConfig(sup.ipAlloc, a.vethUp, a.interfaceUp);
    }
    GivenBack(w.sup.pool);
    assert Networked(w, i, a).sup.pool.used == sup.ipAlloc.used;
  }

  // The owner holds every reported descriptor, counted once.
  predicate TableHolds(table: Handles.Table, id: string, fds: map<NamespaceType, int>) {
    id in table && forall ns :: ns in fds ==> ns in table[id] && table[id][ns] == Handles.NamespaceHandle(fds[ns], 1)
  }

  method RegisterHandles(sup: Supervisor, ghost w: World, i: nat, s: Start, a: Answers) returns (t: Start)
    requires InStep(sup, w, i, s)
    modifies sup.registry
    ensures InStep(sup, DoAdvance(w, i, Register(a.workPid, a.fds)), i, t)
    ensures a.fds.Some? ==> TableHolds(sup.registry.handles, s.spec.id, a.fds.value)
    ensures a.fds.None? ==> sup.registry.handles == old(sup.registry.handles)
    ensures t == s.(workPid := a.workPid, created := if a.fds.Some? then a.fds.value else map[], pc := PRegistered)
  {
    t := s.(workPid := a.workPid, created := map[], pc := PRegistered);
    if a.fds.Some? {
      sup.registry.RegisterNamespaceHandles(s.spec.id, a.fds.value);
      t := t.(created := a.fds.value);
      AppliedOne(w.sup.handles, Handles.Registered(s.spec.id, a.fds.value));
    }
  }

  lemma AppliedOne(table: Handles.Table, e: Handles.Event)
    ensures Applied(table, [e]) == Handles.Apply(table, e)
  {
  }

  method FinalizeContainer(sup: Supervisor, ghost w: World, i: nat, s: Start, a: Answers) returns (c: Container)
    requires InStep(sup, w, i, s) && s.net == None
    modifies sup`containers, sup.registry, sup.ipAlloc
    ensures Finalized(w, i, a).sup == sup.State()
    ensures c == RunningObject(i, Finalized(w, i, a).starts[i], None)
    ensures sup.containers == old(sup.containers)[s.spec.id := c]
    ensures c.spec == Some(s.spec) && c.initPid == s.initPid && c.workloadPid == a.workPid && c.ipc == None
    ensures c.net ==
      if s.spec.isNetRoot && a.fds.Some? && NSNet in a.fds.value && a.fds.value[NSNet] != 0 && a.vethUp && a.interfaceUp
      then Allocated(old(sup.ipAlloc.State())).1 else None
    ensures a.fds.Some? ==> TableHolds(sup.registry.handles, s.spec.id, a.fds.value)
    ensures a.fds.None? ==> sup.registry.handles == old(sup.registry.handles)
  {
    var t := RegisterHandles(sup, w, i, s, a);
    ghost var registered := DoAdvance(w, i, Register(a.workPid, a.fds));
    var net := ConfigureNetwork(sup, registered, i, t, a);
    c := Container(Object(i, Running), Some(s.spec), s.initPid, a.workPid, net, None);
    sup.containers := sup.containers[s.spec.id := c];
  }

  lemma Overwritten(m: Containers, id: string, c: Container, d: Container)
    ensures m[id := c][id := d] == m[id := d]
  {
  }

  // None: the fork failed, or the ID maps could not be written.
  method StartContainer(sup: Supervisor, ghost w: World, i: nat, s: Start, a: Answers) returns (c: Option<Container>)
    requires InStep(sup, w, i, s) && s.net == None
    requires a.mapsWritten || Creates(s.kind)
    modifies sup`containers, sup.registry, sup.ipAlloc
    ensures Started(w, i, a).sup == sup.State()
    ensures c.Some? <==> a.child.Some? && a.mapsWritten
    ensures c.Some? ==>
      && c.value == RunningObject(i, Started(w, i, a).starts[i], None)
      && sup.containers == old(sup.containers)[s.spec.id := c.value]
      && c.value.spec == Some(s.spec) && Some(c.value.initPid) == a.child
      && c.value.workloadPid == a.workPid && c.value.ipc == None
      && (a.fds.Some? ==> TableHolds(sup.registry.handles, s.spec.id, a.fds.value))
    ensures c.None? ==> sup.containers == old(sup.containers) && sup.registry.handles == old(sup.registry.handles)
  {
    if a.child == None || !a.mapsWritten {
      return None;
    }
    var t := s.(initPid := a.child.value, pc := PShared);
    if |s.spec.shares| > 0 {
      var _ := sup.registry.SendNamespaceFDs(s.spec.shares);
    }
    AppliedOne(w.sup.handles, Handles.Shared(s.spec.shares));
    var created := Container(Object(i, Created), Some(s.spec), t.initPid, 0, None, None);
    sup.containers := sup.containers[s.spec.id := created];
    ghost var inserted := DoAdvance(DoAdvance(DoAdvance(w, i, Fork(a.child)), i, ShareHandles(true)), i, Insert);
    t := t.(pc := PInserted);
    var running := FinalizeContainer(sup, inserted, i, t, a);
    Overwritten(old(sup.containers), s.spec.id, created, running);
    c := Some(running);
  }

  // ---- the rest of each start function ---------------------------------------------------

  lemma Attaches(v: World, i: nat)
    requires i < |v.starts| && v.starts[i].spec.id in v.sup.containers
    requires v.sup.containers[v.starts[i].spec.id] == RunningObject(i, v.starts[i], None)
    ensures DoAdvance(v, i, Attach).sup
         == v.sup.(containers := v.sup.containers[v.starts[i].spec.id := RunningObject(i, v.starts[i], Some(i))])
  {
  }

  lemma Returns(v: World, i: nat)
    requires i < |v.starts| && Creates(v.starts[i].kind)
    ensures DoAdvance(v, i, Return).sup
         == v.sup.(containers := v.sup.containers[v.starts[i].spec.id := RunningObject(i, v.starts[i], Some(i))])
  {
  }

  // A start function's last moves: pipes attached, freed, marked.
  function Freed(v: World, i: nat): (r: World)
    requires i < |v.starts|
    ensures |r.starts| == |v.starts| && r.starts[i] == v.starts[i].(pc := PMarked)
  {
    DoAdvance(DoAdvance(DoAdvance(v, i, Attach), i, FreePipe), i, MarkPipe)
  }

  lemma AttachClose(v: World, i: nat)
    requires i < |v.starts| && v.starts[i].spec.id in v.sup.containers
    requires v.sup.containers[v.starts[i].spec.id] == RunningObject(i, v.starts[i], None)
    requires i in v.sup.keepAlive && v.sup.keepAlive[i].open
    ensures Freed(v, i).sup
         == v.sup.(
              containers := v.sup.containers[v.starts[i].spec.id := RunningObject(i, v.starts[i], Some(i))],
              keepAlive := Free(v.sup.keepAlive, i))
  {
  }

  // The start function's own reference and the map's are the same object, unless the map has
  // moved on: here nothing came between.
  method StartCreator(sup: Supervisor, ghost w: World, i: nat, s: Start, a: Answers) returns (c: Option<Container>)
    requires InStep(sup, w, i, s) && s.net == None && s.kind == Creator
    modifies sup`containers, sup.registry, sup.ipAlloc
    ensures c.Some? <==> a.child.Some? && a.mapsWritten
    ensures c.None? ==> sup.State() == Started(w, i, a).sup
    ensures c.Some? ==>
      && sup.State() == DoAdvance(Started(w, i, a), i, Attach).sup
      && c.value == RunningObject(i, Started(w, i, a).starts[i], Some(i))
      && sup.containers == old(sup.containers)[s.spec.id := c.value]
      && c.value.spec == Some(s.spec) && c.value.workloadPid == a.workPid && c.value.ipc == Some(i)
  {
    c := StartContainer(sup, w, i, s, a);
    if c == None {
      return;
    }
    Attaches(Started(w, i, a), i);
    Overwritten(old(sup.containers), s.spec.id, c.value, c.value.(ipc := Some(i)));
    c := Some(c.value.(ipc := Some(i)));
    sup.containers := sup.containers[s.spec.id := c.value];
  }

  // The creator half of d_new: the object goes into the map once more.
  method NewPod(sup: Supervisor, ghost w: World, i: nat, s: Start, a: Answers) returns (ok: bool)
    requires InStep(sup, w, i, s) && s.net == None && s.kind == Creator
    modifies sup`containers, sup.registry, sup.ipAlloc
    ensures ok <==> a.child.Some? && a.mapsWritten
    ensures sup.State() == (if ok then Returned(w, i, a) else Started(w, i, a)).sup
  {
    var c := StartCreator(sup, w, i, s, a);
    if c == None {
      return false;
    }
    PutBack(sup, DoAdvance(Started(w, i, a), i, Attach), i, s.spec.id, c.value);
    return true;
  }

  function Returned(w: World, i: nat, a: Answers): World
    requires i < |w.starts|
  {
    DoAdvance(DoAdvance(Started(w, i, a), i, Attach), i, Return)
  }

  method PutBack(sup: Supervisor, ghost v: World, i: nat, id: string, c: Container)
    requires v.sup == sup.State() && i < |v.starts| && Creates(v.starts[i].kind) && v.starts[i].spec.id == id
    requires c == RunningObject(i, v.starts[i], Some(i))
    modifies sup`containers
    ensures sup.State() == DoAdvance(v, i, Return).sup
  {
    Returns(v, i);
    sup.containers := sup.containers[id := c];
  }

  // One more free of pipe i, which is closed now; the other pipes are as they were.
  predicate PipeFreed(before: map<nat, KeepAlive>, after: map<nat, KeepAlive>, i: nat) {
    i in before && after == before[i := KeepAlive(false, before[i].frees + 1)]
  }

  // Attaches the pipes, frees the KeepAlive one and marks it.
  method CloseOwnPipe(sup: Supervisor, ghost v: World, i: nat, id: string, c: Container) returns (d: Container)
    requires v.sup == sup.State() && i < |v.starts| && v.starts[i].spec.id == id
    requires id in sup.containers && sup.containers[id] == c == RunningObject(i, v.starts[i], None)
    requires i in sup.keepAlive && sup.keepAlive[i].open
    modifies sup`containers, sup`keepAlive
    ensures sup.State() == Freed(v, i).sup
    ensures d == c.(ipc := Some(i)) == RunningObject(i, v.starts[i], Some(i))
    ensures sup.containers == old(sup.containers)[id := d]
    ensures PipeFreed(old(sup.keepAlive), sup.keepAlive, i)
  {
    AttachClose(v, i);
    d := c.(ipc := Some(i));
    sup.containers := sup.containers[id := d];
    sup.keepAlive := Free(sup.keepAlive, i);
  }

  method StartJoiner(sup: Supervisor, ghost w: World, i: nat, s: Start, a: Answers)
    requires InStep(sup, w, i, s) && s.net == None && !Creates(s.kind) && a.mapsWritten
    requires i in sup.keepAlive && sup.keepAlive[i].open
    modifies sup`containers, sup`keepAlive, sup.registry, sup.ipAlloc
    ensures a.child.None? ==> sup.State() == Started(w, i, a).sup
    ensures a.child.Some? ==> sup.State() == Freed(Started(w, i, a), i).sup
    ensures a.child.Some? ==>
      PipeFreed(old(sup.keepAlive), sup.keepAlive, i)
    ensures a.child.Some? ==>
      s.spec.id in sup.containers && sup.containers[s.spec.id].workloadPid == a.workPid
      && sup.containers[s.spec.id].ipc == Some(i)
  {
    var c := StartContainer(sup, w, i, s, a);
    if c == None {
      return;
    }
    var _ := CloseOwnPipe(sup, Started(w, i, a), i, s.spec.id, c.value);
  }

  // The batch creator frees and marks its own pipe before it returns.
  method StartCreatorBatch(sup: Supervisor, ghost w: World, i: nat, s: Start, a: Answers) returns (c: Option<Container>)
    requires InStep(sup, w, i, s) && s.net == None && s.kind == BatchCreator
    requires i in sup.keepAlive && sup.keepAlive[i].open
    modifies sup`containers, sup`keepAlive, sup.registry, sup.ipAlloc
    ensures c.Some? <==> a.child.Some? && a.mapsWritten
    ensures c.None? ==> sup.State() == Started(w, i, a).sup
    ensures c.Some? ==>
      && sup.State() == Freed(Started(w, i, a), i).sup
      && c.value == RunningObject(i, Started(w, i, a).starts[i], Some(i))
      && sup.containers == old(sup.containers)[s.spec.id := c.value]
      && c.value.spec == Some(s.spec) && c.value.workloadPid == a.workPid && c.value.ipc == Some(i)
      && PipeFreed(old(sup.keepAlive), sup.keepAlive, i)
  {
    c := StartContainer(sup, w, i, s, a);
    if c == None {
      return;
    }
    var d := CloseOwnPipe(sup, Started(w, i, a), i, s.spec.id, c.value);
    Overwritten(old(sup.containers), s.spec.id, c.value, d);
    c := Some(d);
  }

  // The creator half of d_run: the object goes into the map once more.
  method RunNewPod(sup: Supervisor, ghost w: World, i: nat, s: Start, a: Answers) returns (ok: bool)
    requires InStep(sup, w, i, s) && s.net == None && s.kind == BatchCreator
    requires i in sup.keepAlive && sup.keepAlive[i].open
    modifies sup`containers, sup`keepAlive, sup.registry, sup.ipAlloc
    ensures ok <==> a.child.Some? && a.mapsWritten
    ensures !ok ==> sup.State() == Started(w, i, a).sup
    ensures ok ==> sup.State() == DoAdvance(Freed(Started(w, i, a), i), i, Return).sup
  {
    var c := StartCreatorBatch(sup, w, i, s, a);
    if c == None {
      return false;
    }
    PutBack(sup, Freed(Started(w, i, a), i), i, s.spec.id, c.value);
    return true;
  }

  // The joiner half of d_new, for one joiner: pipes are made, a name is taken, and a
  // placeholder holds it while the start call gets going.
  method RequestJoiner(sup: Supervisor, ghost w: World, i: nat, letter: string) returns (name: Option<string>)
    requires w.sup == sup.State() && i == |w.starts|
    modifies sup`containers, sup`keepAlive
    ensures name.Some? <==> PREFIX + letter + "1" in old(sup.containers)
    ensures name.None? ==> sup.State() == old(sup.State())
    ensures name.Some? ==>
      && name.value == PREFIX + letter + Decimal(IndexFor(old(sup.containers).Keys, letter))
      && sup.State() == DoBegin(w, Joiner, name.value, PREFIX + letter + "1").sup
      && sup.containers == old(sup.containers)[name.value := Container(Object(i, Initializing), None, 0, 0, None, None)]
      && sup.keepAlive == old(sup.keepAlive)[i := KeepAlive(true, 0)]
  {
    if PREFIX + letter + "1" !in sup.containers {
      return None;
    }
    sup.keepAlive := sup.keepAlive[i := KeepAlive(true, 0)];
    var index := GetNextContainerIndex(sup.containers.Keys, letter);
    name := Some(PREFIX + letter + Decimal(index));
    sup.containers := sup.containers[name.value := Container(Object(i, Initializing), None, 0, 0, None, None)];
  }
}
