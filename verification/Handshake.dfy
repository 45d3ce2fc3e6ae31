// The start-up handshake between the supervisor, a container's init and its workload:
// three program counters and six channels, one step per blocking call or visible action.
//   supervisor  sup/supervisor.go, StartContainer and FinalizeContainer
//   init        lib/namespaces.go, ApplyNamespaces; lib/workload.go, initWorkloadHandling
//   workload    lib/workload.go, SetupRootAndSpawnWorkload
// System calls succeed.  No end of file can unblock a reader: while one waits, some process
// still holds a write end (the reader itself, or for KeepAlive the supervisor), so a read
// waits for a byte or a message.
module Handshake {
  import opened Prelude
  import opened Namespaces
  import opened FdPassing
  import Handles

  // A start call: the spec, and the handles registered for the container it shares from.
  datatype Config = Config(spec: ContainerSpec, handles: Handles.Owned)

  datatype SupPC =
    | SDecide | SWaitReady | SWriteMaps | SSignalMaps | SSend | SInsert
    | SRecvPid | SRecvCreated | SNetwork | SFreeNet | SSetRunning | SDone | SPanic

  datatype InitPC =
    | IRecv | ICrashed | IUser | ISignal | IWaitMaps | IJoin | IUnshare
    | IFork | ISendPid | ISendCreated | IWaitWorkload | IHold | IExited

  datatype WorkPC = WNone | WSetup | WWaitNet | WExec | WRunning | WExited

  datatype Report = PidReport | CreatedReport(kinds: set<NamespaceType>)

  datatype Event =
    | EnteredUserNs | WroteMaps | JoinedNs(ns: NamespaceType) | UnsharedRest
    | SentPid | SentCreated | ReceivedPid | ReceivedCreated | NetworkDone | ReleasedHold
    | ContainerRunning | WorkloadExeced | WorkloadExited | InitExited

  datatype State = State(
    sup: SupPC, init: InitPC, work: WorkPC,
    userNsReady: nat, userNsPipe: nat, netReady: nat, keepAlive: nat, holdReleased: bool,
    sup2init: seq<FdMessage>, init2sup: seq<Report>,
    shared: set<NamespaceType>, pending: set<NamespaceType>,
    joined: set<NamespaceType>, created: set<NamespaceType>,
    log: seq<Event>)

  const START := State(SDecide, IRecv, WNone, 0, 0, 0, 0, false, [], [], {}, {}, {}, {}, [])

  // ---- the two independently coded decisions -------------------------------

  // sup/supervisor.go: USER is created, not joined.
  predicate SupCreatesUser(spec: ContainerSpec) {
    Wants(spec, NSUser) && !exists i :: 0 <= i < |spec.shares| && spec.shares[i].kind == NSUser
  }

  // lib/namespaces.go: USER is wanted and no user descriptor was received.
  predicate InitCreatesUser(spec: ContainerSpec, shared: set<NamespaceType>) {
    Wants(spec, NSUser) && NSUser !in shared
  }

  lemma DecisionsAgree(spec: ContainerSpec)
    ensures SupCreatesUser(spec) <==> InitCreatesUser(spec, ShareTypes(spec))
  {
    if NSUser in ShareTypes(spec) {
      var s :| s in spec.shares && s.kind == NSUser;
      var i :| 0 <= i < |spec.shares| && spec.shares[i] == s;
    }
  }

  // ---- the share message ----------------------------------------------------

  // SendNamespaceFDs puts a message on the socket.
  predicate Sends(c: Config) {
    0 < |c.spec.shares| <= SCM_MAX_FD && Handles.Sendable(c.handles, c.spec.shares)
  }

  function ShareMessage(c: Config): FdMessage
    requires Sends(c)
  {
    SharesMessage(ShareList(c.spec.shares),
                  seq(|c.spec.shares|, i requires 0 <= i < |c.spec.shares| => c.handles[c.spec.shares[i].kind].fd))
  }

  // The keys of the map the receiver builds; descriptor numbers do not matter here.
  function SharedKeys(decoded: map<Byte, int>): set<NamespaceType> {
    set ns: NamespaceType | Code(ns) in decoded
  }

  function Decode(msg: FdMessage): Option<map<Byte, int>> {
    DecodeShares(msg.payload, Truncate(msg.fds))
  }

  lemma ShareMessageDecodes(c: Config)
    requires Sends(c)
    ensures Decode(ShareMessage(c)).Some? <==> |c.spec.shares| <= OOB_FDS
    ensures Decode(ShareMessage(c)).Some? ==> SharedKeys(Decode(ShareMessage(c)).value) == ShareTypes(c.spec)
  {
    var types, fds := ShareList(c.spec.shares), ShareMessage(c).fds;
    SharesDecode(types, Truncate(fds));
    ShareListTypes(c.spec);
    assert forall ns :: ns in types <==> ns in (set t | t in types);
  }

  // ---- steps ------------------------------------------------------------------

  datatype Step = SupStep | InitStep | JoinStep(ns: NamespaceType) | WorkStep | ReleaseStep

  // The supervisor, from after the fork to the container marked running.
  function Sup(c: Config, s: State): Option<State> {
    match s.sup
    case SDecide =>
      if SupCreatesUser(c.spec) then Some(s.(sup := SWaitReady))
      else Some(s.(sup := SSend, userNsPipe := s.userNsPipe + 1))
    case SWaitReady =>
      if s.userNsReady == 0 then None else Some(s.(sup := SWriteMaps, userNsReady := s.userNsReady - 1))
    case SWriteMaps => Some(s.(sup := SSignalMaps))
    case SSignalMaps => Some(s.(sup := SSend, userNsPipe := s.userNsPipe + 1))
    case SSend =>
      if Sends(c) then Some(s.(sup := SInsert, sup2init := s.sup2init + [ShareMessage(c)]))
      else Some(s.(sup := SInsert))
    case SInsert => Some(s.(sup := SRecvPid))
    case SRecvPid =>
      if s.init2sup == [] then None
      else if s.init2sup[0] != PidReport then Some(s.(sup := SPanic))
      else Some(s.(sup := SRecvCreated, init2sup := s.init2sup[1..]))
    case SRecvCreated =>
      if !CreatesAnyNamespace(c.spec) && c.spec.shares == [] then Some(s.(sup := SNetwork))
      else if s.init2sup == [] then None
      else Some(s.(sup := SNetwork, init2sup := s.init2sup[1..]))
    case SNetwork =>
      Some(s.(sup := if c.spec.isNetRoot then SFreeNet else SSetRunning))
    case SFreeNet => Some(s.(sup := SSetRunning, netReady := s.netReady + 1))
    case SSetRunning => Some(s.(sup := SDone))
    case SDone => None
    case SPanic => None
  }

  // Init, except for the joins, whose order is the map's.
  function Init(c: Config, s: State): Option<State> {
    match s.init
    case IRecv =>
      if c.spec.shares == [] then Some(s.(init := IUser))
      else if s.sup2init == [] then None
      else
        var rest := s.sup2init[1..];
        (match Decode(s.sup2init[0])
         case None => Some(s.(init := ICrashed, sup2init := rest))
         case Some(out) => Some(s.(init := IUser, sup2init := rest, shared := SharedKeys(out))))
    case ICrashed => None
    case IUser =>
      if InitCreatesUser(c.spec, s.shared) then
        Some(s.(init := ISignal, created := s.created + {NSUser}))
      else if NSUser in s.shared then
        Some(s.(init := IJoin, joined := s.joined + {NSUser}, pending := s.shared - {NSUser}))
      else Some(s.(init := IJoin, pending := s.shared))
    case ISignal => Some(s.(init := IWaitMaps, userNsReady := s.userNsReady + 1))
    case IWaitMaps =>
      if s.userNsPipe == 0 then None
      else Some(s.(init := IJoin, userNsPipe := s.userNsPipe - 1, pending := s.shared - {NSUser}))
    case IJoin => if s.pending == {} then Some(s.(init := IUnshare)) else None
    case IUnshare =>
      var flags := UnshareFlags(c.spec, s.shared, UNSHARE_ORDER);
      Some(s.(init := IFork, created := if flags == 0 then s.created else s.created + DecodeFlags(flags)))
    case IFork => Some(s.(init := ISendPid, work := WSetup))
    case ISendPid => Some(s.(init := ISendCreated, init2sup := s.init2sup + [PidReport]))
    case ISendCreated =>
      Some(s.(init := IWaitWorkload,
              init2sup := s.init2sup + [CreatedReport(Wanted(c.spec) - ShareTypes(c.spec))]))
    case IWaitWorkload =>
      if s.work != WExited then None
      else Some(s.(init := if c.spec.isNetRoot then IHold else IExited))
    case IHold =>
      if s.keepAlive == 0 then None
      else Some(s.(init := IExited, keepAlive := s.keepAlive - 1))
    case IExited => None
  }

  function Join(s: State, ns: NamespaceType): Option<State> {
    if s.init != IJoin || ns !in s.pending then None
    else Some(s.(pending := s.pending - {ns}, joined := s.joined + {ns}))
  }

  function Work(c: Config, s: State): Option<State> {
    match s.work
    case WNone => None
    case WSetup => Some(s.(work := if c.spec.isNetRoot then WWaitNet else WExec))
    case WWaitNet => if s.netReady == 0 then None else Some(s.(work := WExec, netReady := s.netReady - 1))
    case WExec => Some(s.(work := WRunning))
    case WRunning => Some(s.(work := WExited))
    case WExited => None
  }

  // The reaper or the kill path lets a net root's init go, once it is running.
  function Release(c: Config, s: State): Option<State> {
    if s.sup != SDone || !c.spec.isNetRoot || s.holdReleased then None
    else Some(s.(keepAlive := s.keepAlive + 1, holdReleased := true))
  }

  function Move(c: Config, s: State, step: Step): Option<State> {
    match step
    case SupStep => Sup(c, s)
    case InitStep => Init(c, s)
    case JoinStep(ns) => Join(s, ns)
    case WorkStep => Work(c, s)
    case ReleaseStep => Release(c, s)
  }

  // The visible event of a step, if it has one.
  function Visible(c: Config, s: State, step: Step): Option<Event> {
    match step
    case SupStep =>
      (match s.sup
       case SWriteMaps => Some(WroteMaps)
       case SRecvPid => Some(ReceivedPid)
       case SRecvCreated =>
         if CreatesAnyNamespace(c.spec) || c.spec.shares != [] then Some(ReceivedCreated) else None
       case SNetwork => if c.spec.isNetRoot then Some(NetworkDone) else None
       case SSetRunning => Some(ContainerRunning)
       case _ => None)
    case InitStep =>
      (match s.init
       case IUser =>
         if InitCreatesUser(c.spec, s.shared) then Some(EnteredUserNs)
         else if NSUser in s.shared then Some(JoinedNs(NSUser)) else None
       case IUnshare => if UnshareFlags(c.spec, s.shared, UNSHARE_ORDER) != 0 then Some(UnsharedRest) else None
       case ISendPid => Some(SentPid)
       case ISendCreated => Some(SentCreated)
       case IWaitWorkload => if c.spec.isNetRoot then None else Some(InitExited)
       case IHold => Some(InitExited)
       case _ => None)
    case JoinStep(ns) => Some(JoinedNs(ns))
    case WorkStep =>
      (match s.work
       case WExec => Some(WorkloadExeced)
       case WRunning => Some(WorkloadExited)
       case _ => None)
    case ReleaseStep => Some(ReleasedHold)
  }

  function Take(c: Config, s: State, step: Step): Option<State> {
    match Move(c, s, step)
    case None => None
    case Some(t) =>
      match Visible(c, s, step)
      case None => Some(t)
      case Some(e) => Some(t.(log := s.log + [e]))
  }

  // ---- runs --------------------------------------------------------------------

  ghost predicate IsRun(c: Config, run: seq<State>) {
    && |run| > 0
    && run[0] == START
    && forall i :: 0 < i < |run| ==> Moves(c, run[i - 1], run[i])
  }

  ghost predicate Moves(c: Config, s: State, t: State) {
    exists step :: Take(c, s, step) == Some(t)
  }

  ghost predicate Reachable(c: Config, s: State) {
    exists run :: IsRun(c, run) && run[|run| - 1] == s
  }

  ghost predicate Stuck(c: Config, s: State) {
    forall step :: Take(c, s, step) == None
  }

  predicate Final(s: State) {
    s.sup == SDone && s.init == IExited
  }

  // The condition the whole handshake turns on, checkable before the fork.
  predicate Compatible(c: Config) {
    || c.spec.shares == []
    || (&& Handles.Sendable(c.handles, c.spec.shares)
        && |c.spec.shares| <= OOB_FDS
        && (!c.spec.namespaces.user || NSUser in ShareTypes(c.spec)))
  }
}
