// What every run of the handshake keeps, and exactly when it cannot block.
module HandshakeProofs {
  import opened Prelude
  import opened Namespaces
  import opened FdPassing
  import Handles
  import opened Handshake

  function SupRank(pc: SupPC): nat {
    match pc
    case SDecide => 0 case SWaitReady => 1 case SWriteMaps => 2 case SSignalMaps => 3
    case SSend => 4 case SInsert => 5 case SRecvPid => 6 case SRecvCreated => 7
    case SNetwork => 8 case SFreeNet => 9 case SSetRunning => 10 case SDone => 11 case SPanic => 12
  }

  function InitRank(pc: InitPC): nat {
    match pc
    case IRecv => 0 case ICrashed => 1 case IUser => 2 case ISignal => 3 case IWaitMaps => 4
    case IJoin => 5 case IUnshare => 6 case IFork => 7 case ISendPid => 8 case ISendCreated => 9
    case IWaitWorkload => 10 case IHold => 11 case IExited => 12
  }

  function WorkRank(pc: WorkPC): nat {
    match pc
    case WNone => 0 case WSetup => 1 case WWaitNet => 2 case WExec => 3 case WRunning => 4 case WExited => 5
  }

  // ---- the invariant ---------------------------------------------------------

  predicate ReadsCreated(spec: ContainerSpec) {
    Wanted(spec) != {} || spec.shares != []
  }

  // The user-namespace pipes, and where each side is relative to the other.
  ghost predicate UserNsInv(c: Config, s: State) {
    var sup, init, cu := SupRank(s.sup), InitRank(s.init), SupCreatesUser(c.spec);
    && (!cu ==> !(1 <= sup <= 3) && !(3 <= init <= 4))
    && s.userNsReady == (if cu && init >= 4 && sup <= 1 then 1 else 0)
    && s.userNsPipe == (if sup >= 4 && (cu ==> init <= 4) then 1 else 0)
    && (cu && sup >= 2 ==> init >= 4)
    && (cu && init >= 5 ==> sup >= 4)
  }

  // The shared-descriptor socket.
  ghost predicate ShareInv(c: Config, s: State) {
    var sup, init := SupRank(s.sup), InitRank(s.init);
    && s.sup2init == (if Sends(c) && sup >= 5 && init == 0 then [ShareMessage(c)] else [])
    && (c.spec.shares != [] && init >= 1 ==> Sends(c) && sup >= 5)
    && (s.init == ICrashed ==> c.spec.shares != [] && |c.spec.shares| > OOB_FDS)
    && (init >= 2 ==> |c.spec.shares| <= OOB_FDS)
    && s.shared == (if init >= 2 then ShareTypes(c.spec) else {})
  }

  // Init's reports to the supervisor.
  ghost predicate ReportInv(c: Config, s: State) {
    var sup, init := SupRank(s.sup), InitRank(s.init);
    && s.sup != SPanic
    && s.init2sup == (if init >= 9 && sup <= 6 then [PidReport] else [])
                   + (if init >= 10 && (ReadsCreated(c.spec) ==> sup <= 7)
                      then [CreatedReport(Wanted(c.spec) - ShareTypes(c.spec))] else [])
    && (sup >= 7 ==> init >= 9)
    && (sup >= 8 && ReadsCreated(c.spec) ==> init >= 10)
  }

  // The workload's gate and init's hold.
  ghost predicate GateInv(c: Config, s: State) {
    var sup, init, work, root := SupRank(s.sup), InitRank(s.init), WorkRank(s.work), c.spec.isNetRoot;
    && (work >= 1 <==> init >= 8)
    && s.netReady == (if root && sup >= 10 && work <= 2 then 1 else 0)
    && (root && work >= 3 ==> sup >= 10)
    && (!root ==> work != 2 && sup != 9 && init != 11)
    && (init >= 11 ==> work == 5)
    && s.keepAlive == (if s.holdReleased && init <= 11 then 1 else 0)
    && (s.holdReleased ==> root && sup == 11)
    && (root && init == 12 ==> s.holdReleased)
  }

  // The namespaces init is in: joined ones and created ones.
  ghost predicate NamespaceInv(c: Config, s: State) {
    var init, shares, cu := InitRank(s.init), ShareTypes(c.spec), SupCreatesUser(c.spec);
    && s.pending !! s.joined
    && (init <= 4 ==> s.joined == s.pending == {})
    && (init >= 5 ==> s.joined + s.pending == shares && NSUser !in s.pending)
    && (init >= 6 ==> s.pending == {})
    && s.created == (if init >= 7 then Wanted(c.spec) - shares else if cu && init >= 3 then {NSUser} else {})
  }

  // Which events the program counters say have happened.
  ghost predicate Happened(c: Config, s: State, e: Event) {
    var sup, init, work, cu := SupRank(s.sup), InitRank(s.init), WorkRank(s.work), SupCreatesUser(c.spec);
    match e
    case EnteredUserNs => cu && init >= 3
    case WroteMaps => cu && sup >= 3
    case JoinedNs(ns) => ns in s.joined
    case UnsharedRest => init >= 7 && Wanted(c.spec) - {NSUser} - ShareTypes(c.spec) != {}
    case SentPid => init >= 9
    case SentCreated => init >= 10
    case ReceivedPid => sup >= 7
    case ReceivedCreated => ReadsCreated(c.spec) && sup >= 8
    case NetworkDone => c.spec.isNetRoot && sup >= 9
    case ReleasedHold => s.holdReleased
    case ContainerRunning => sup >= 11
    case WorkloadExeced => work >= 4
    case WorkloadExited => work >= 5
    case InitExited => init == 12
  }

  ghost predicate StateInv(c: Config, s: State) {
    UserNsInv(c, s) && ShareInv(c, s) && ReportInv(c, s) && GateInv(c, s) && NamespaceInv(c, s)
  }

  ghost predicate Inv(c: Config, s: State) {
    StateInv(c, s) && forall e :: e in s.log <==> Happened(c, s, e)
  }

  lemma InvStart(c: Config)
    ensures StateInv(c, START)
    ensures forall e :: !Happened(c, START, e)
  {
  }

  // ---- each actor keeps each part ---------------------------------------------

  lemma SupKeepsPipes(c: Config, s: State)
    requires UserNsInv(c, s) && Sup(c, s).Some?
    ensures UserNsInv(c, Sup(c, s).value)
  {
  }

  lemma SupKeepsShare(c: Config, s: State)
    requires ShareInv(c, s) && Sup(c, s).Some?
    ensures ShareInv(c, Sup(c, s).value)
  {
    SupLeavesInit(c, s);
    var t := Sup(c, s).value;
    assert s.sup != SSend ==> t.sup2init == s.sup2init && (SupRank(t.sup) >= 5 <==> SupRank(s.sup) >= 5);
  }

  // What one step of the supervisor does to init's reports.
  predicate SupReads(c: Config, s: State, t: State) {
    var sup, nextSup := SupRank(s.sup), SupRank(t.sup);
    && t.init == s.init
    && (sup < 6 ==> nextSup <= 6 && t.init2sup == s.init2sup)
    && (sup > 7 ==> 8 <= nextSup <= 11 && t.init2sup == s.init2sup)
    && (sup == 6 ==> s.init2sup != [] && (s.init2sup[0] == PidReport ==> nextSup == 7 && t.init2sup == s.init2sup[1..]))
    && (sup == 7 ==>
         nextSup == 8 && (ReadsCreated(c.spec) ==> s.init2sup != [])
         && t.init2sup == if ReadsCreated(c.spec) then s.init2sup[1..] else s.init2sup)
  }

  lemma SupReports(c: Config, s: State)
    requires Sup(c, s).Some?
    ensures SupReads(c, s, Sup(c, s).value)
  {
    CreatesAnyIff(c.spec);
  }

  lemma ReadsKeepReport(c: Config, s: State, t: State)
    requires ReportInv(c, s) && SupReads(c, s, t)
    ensures ReportInv(c, t)
  {
  }

  lemma SupKeepsReport(c: Config, s: State)
    requires ReportInv(c, s) && Sup(c, s).Some?
    ensures ReportInv(c, Sup(c, s).value)
  {
    SupReports(c, s);
    ReadsKeepReport(c, s, Sup(c, s).value);
  }

  lemma SupKeepsGate(c: Config, s: State)
    requires GateInv(c, s) && ReportInv(c, s) && Sup(c, s).Some?
    ensures GateInv(c, Sup(c, s).value)
  {
  }

  lemma SupLeavesInit(c: Config, s: State)
    requires Sup(c, s).Some?
    ensures var t := Sup(c, s).value;
      && t.init == s.init && t.work == s.work && t.shared == s.shared && t.holdReleased == s.holdReleased
      && t.pending == s.pending && t.joined == s.joined && t.created == s.created
  {
  }

  lemma SupKeepsNamespaces(c: Config, s: State)
    requires NamespaceInv(c, s) && Sup(c, s).Some?
    ensures NamespaceInv(c, Sup(c, s).value)
  {
    SupLeavesInit(c, s);
    var t := Sup(c, s).value;
  }

  lemma InitKeepsPipes(c: Config, s: State)
    requires UserNsInv(c, s) && ShareInv(c, s) && Init(c, s).Some?
    ensures UserNsInv(c, Init(c, s).value)
  {
    DecisionsAgree(c.spec);
  }

  lemma InitKeepsShare(c: Config, s: State)
    requires ShareInv(c, s) && Init(c, s).Some?
    ensures ShareInv(c, Init(c, s).value)
  {
    if s.init == IRecv && c.spec.shares != [] { ShareMessageDecodes(c); }
  }

  lemma InitReports(c: Config, s: State)
    requires Init(c, s).Some?
    ensures var t, init := Init(c, s).value, InitRank(s.init);
      && t.sup == s.sup
      && (init == 8 ==> InitRank(t.init) == 9 && t.init2sup == s.init2sup + [PidReport])
      && (init == 9 ==>
           InitRank(t.init) == 10 && t.init2sup == s.init2sup + [CreatedReport(Wanted(c.spec) - ShareTypes(c.spec))])
      && (init != 8 && init != 9 ==> t.init2sup == s.init2sup && (init < 8 <==> InitRank(t.init) < 9))
      && (init > 9 ==> InitRank(t.init) > 9)
  {
  }

  lemma InitKeepsReport(c: Config, s: State)
    requires ReportInv(c, s) && Init(c, s).Some?
    ensures ReportInv(c, Init(c, s).value)
  {
    InitReports(c, s);
  }

  lemma InitKeepsGate(c: Config, s: State)
    requires GateInv(c, s) && Init(c, s).Some?
    ensures GateInv(c, Init(c, s).value)
  {
  }

  lemma InitKeepsNamespaces(c: Config, s: State)
    requires NamespaceInv(c, s) && Init(c, s).Some?
    requires InitRank(s.init) >= 2 ==> s.shared == ShareTypes(c.spec)
    requires !SupCreatesUser(c.spec) ==> s.init != ISignal && s.init != IWaitMaps
    ensures NamespaceInv(c, Init(c, s).value)
  {
    DecisionsAgree(c.spec);
    if s.init == IUnshare {
      UnshareKeepsNamespaces(c, s);
    } else if s.init == IUser || s.init == IWaitMaps {
      var t := Init(c, s).value;
      assert InitRank(t.init) == 3 || (InitRank(t.init) == 5 && t.joined + t.pending == ShareTypes(c.spec));
    } else {
      assert Init(c, s).value.created == s.created;
    }
  }

  lemma UnshareKeepsNamespaces(c: Config, s: State)
    requires NamespaceInv(c, s) && s.init == IUnshare && s.shared == ShareTypes(c.spec)
    ensures NamespaceInv(c, Init(c, s).value)
  {
    DecisionsAgree(c.spec);
    UnshareCreatesTheRest(c.spec, s.shared);
    var t := Init(c, s).value;
    assert t.created == s.created + (Wanted(c.spec) - {NSUser} - ShareTypes(c.spec));
    assert NSUser in Wanted(c.spec) <==> Wants(c.spec, NSUser);
  }

  lemma OtherKeepsRest(c: Config, s: State, step: Step)
    requires UserNsInv(c, s) && ShareInv(c, s) && ReportInv(c, s)
    requires Move(c, s, step).Some? && !step.SupStep? && !step.InitStep?
    ensures var t := Move(c, s, step).value; UserNsInv(c, t) && ShareInv(c, t) && ReportInv(c, t)
  {
    OtherKeepsFields(c, s, step);
  }

  lemma OtherKeepsFields(c: Config, s: State, step: Step)
    requires Move(c, s, step).Some? && !step.SupStep? && !step.InitStep?
    ensures var t := Move(c, s, step).value;
      && t.sup == s.sup && t.init == s.init && t.userNsReady == s.userNsReady && t.userNsPipe == s.userNsPipe
      && t.sup2init == s.sup2init && t.init2sup == s.init2sup && t.shared == s.shared && t.created == s.created
  {
  }

  lemma OtherKeepsGate(c: Config, s: State, step: Step)
    requires GateInv(c, s) && Move(c, s, step).Some? && !step.SupStep? && !step.InitStep?
    ensures GateInv(c, Move(c, s, step).value)
  {
  }

  lemma OtherKeepsNamespaces(c: Config, s: State, step: Step)
    requires NamespaceInv(c, s) && Move(c, s, step).Some? && !step.SupStep? && !step.InitStep?
    ensures NamespaceInv(c, Move(c, s, step).value)
  {
  }

  lemma StateInvStep(c: Config, s: State, step: Step)
    requires StateInv(c, s) && Move(c, s, step).Some?
    ensures StateInv(c, Move(c, s, step).value)
  {
    match step {
      case SupStep =>
        SupKeepsPipes(c, s); SupKeepsShare(c, s); SupKeepsReport(c, s);
        SupKeepsGate(c, s); SupKeepsNamespaces(c, s);
      case InitStep =>
        InitKeepsPipes(c, s); InitKeepsShare(c, s); InitKeepsReport(c, s);
        InitKeepsGate(c, s); InitKeepsNamespaces(c, s);
      case _ =>
        OtherKeepsRest(c, s, step); OtherKeepsGate(c, s, step); OtherKeepsNamespaces(c, s, step);
    }
  }

  // ---- ordering -----------------------------------------------------------------

  // The order the protocol promises, as a table: `a` must come before `b`.
  ghost predicate MustPrecede(c: Config, a: Event, b: Event) {
    var cu, shares, root := SupCreatesUser(c.spec), ShareTypes(c.spec), c.spec.isNetRoot;
    var reports := Wanted(c.spec) != {} || c.spec.shares != [];
    match b
    case EnteredUserNs => false
    case WroteMaps => a == EnteredUserNs
    case JoinedNs(ns) => ns != NSUser && NSUser in shares && a == JoinedNs(NSUser)
    case UnsharedRest => (cu && a == WroteMaps) || (a.JoinedNs? && a.ns in shares)
    case SentPid => (cu && a == WroteMaps) || (a.JoinedNs? && a.ns in shares)
    case SentCreated => a == SentPid
    case ReceivedPid => a == SentPid
    case ReceivedCreated => a == ReceivedPid || a == SentCreated
    case NetworkDone => a == ReceivedPid || (reports && a == ReceivedCreated)
    case ContainerRunning => a == ReceivedPid || (reports && a == ReceivedCreated) || (root && a == NetworkDone)
    case WorkloadExeced => (root && a == NetworkDone) || (cu && a == WroteMaps) || (a.JoinedNs? && a.ns in shares)
    case ReleasedHold => a == ContainerRunning
    case WorkloadExited => a == WorkloadExeced
    case InitExited => a == WorkloadExited || (root && a == ReleasedHold)
  }

  // A visible event is new, everything that must precede it has happened, and it is the
  // only thing that happens.
  lemma SupHappens(c: Config, s: State, e: Event)
    requires Sup(c, s).Some? && Sup(c, s).value.sup != SPanic
    requires !SupCreatesUser(c.spec) ==> !(1 <= SupRank(s.sup) <= 3)
    ensures Happened(c, Sup(c, s).value, e) <==> Happened(c, s, e) || Visible(c, s, SupStep) == Some(e)
    ensures Visible(c, s, SupStep) == Some(e) ==> !Happened(c, s, e)
  {
    SupMoves(c, s);
    SupMovedHappens(c, s, Sup(c, s).value, e);
  }

  // What one step of the supervisor changes, as far as the events care.
  predicate SupMoved(c: Config, s: State, t: State) {
    var sup, nextSup := SupRank(s.sup), SupRank(t.sup);
    && t.init == s.init && t.work == s.work && t.joined == s.joined && t.holdReleased == s.holdReleased
    && (nextSup >= 3 <==> sup >= 2 || (sup == 0 && !SupCreatesUser(c.spec)))
    && (nextSup >= 7 <==> sup >= 6)
    && (nextSup >= 8 <==> sup >= 7)
    && (nextSup >= 9 <==> sup >= 8)
    && (nextSup >= 11 <==> sup >= 10)
  }

  lemma SupMoves(c: Config, s: State)
    requires Sup(c, s).Some? && Sup(c, s).value.sup != SPanic
    ensures SupMoved(c, s, Sup(c, s).value)
  {
  }

  lemma SupMovedHappens(c: Config, s: State, t: State, e: Event)
    requires SupMoved(c, s, t) && SupRank(s.sup) <= 10
    requires !SupCreatesUser(c.spec) ==> !(1 <= SupRank(s.sup) <= 3)
    ensures Happened(c, t, e) <==> Happened(c, s, e) || Visible(c, s, SupStep) == Some(e)
    ensures Visible(c, s, SupStep) == Some(e) ==> !Happened(c, s, e)
  {
    CreatesAnyIff(c.spec);
  }

  lemma SupInOrder(c: Config, s: State, a: Event, e: Event)
    requires StateInv(c, s) && Sup(c, s).Some? && Visible(c, s, SupStep) == Some(e) && MustPrecede(c, a, e)
    ensures Happened(c, s, a)
  {
  }

  // What one step of init changes, as far as the events care.
  ghost predicate InitMoved(c: Config, s: State, t: State) {
    var init, nextInit := InitRank(s.init), InitRank(t.init);
    && t.sup == s.sup && t.holdReleased == s.holdReleased
    && init < nextInit
    && (nextInit >= 3 <==> init >= 2) && (nextInit >= 7 <==> init >= 6) && (nextInit >= 9 <==> init >= 8)
    && (nextInit >= 10 <==> init >= 9)
    && (nextInit == 12 <==> init == 11 || (init == 10 && !c.spec.isNetRoot))
    && t.work == (if s.init == IFork then WSetup else s.work)
    && (s.init == IFork ==> t.pending == s.pending)
    && t.joined == (if s.init == IUser && !InitCreatesUser(c.spec, s.shared) && NSUser in s.shared
                    then s.joined + {NSUser} else s.joined)
  }

  lemma InitMoves(c: Config, s: State)
    requires Init(c, s).Some?
    ensures InitMoved(c, s, Init(c, s).value)
  {
  }

  lemma InitMovedHappens(c: Config, s: State, t: State, e: Event)
    requires InitMoved(c, s, t)
    requires (s.init == IFork ==> s.work == WNone) && (s.init == IUser ==> s.joined == {})
    requires InitRank(s.init) >= 2 ==> s.shared == ShareTypes(c.spec)
    requires !SupCreatesUser(c.spec) ==> s.init != ISignal && s.init != IWaitMaps
    ensures Happened(c, t, e) <==> Happened(c, s, e) || Visible(c, s, InitStep) == Some(e)
    ensures Visible(c, s, InitStep) == Some(e) ==> !Happened(c, s, e)
  {
    DecisionsAgree(c.spec);
    if s.init == IUnshare { UnshareCreatesTheRest(c.spec, s.shared); }
  }

  lemma InitHappens(c: Config, s: State, e: Event)
    requires UserNsInv(c, s) && ShareInv(c, s) && GateInv(c, s) && NamespaceInv(c, s) && Init(c, s).Some?
    ensures Happened(c, Init(c, s).value, e) <==> Happened(c, s, e) || Visible(c, s, InitStep) == Some(e)
    ensures Visible(c, s, InitStep) == Some(e) ==> !Happened(c, s, e)
  {
    var t := Init(c, s).value;
    InitMoves(c, s);
    InitMovedHappens(c, s, t, e);
  }

  lemma InitInOrder(c: Config, s: State, a: Event, e: Event)
    requires StateInv(c, s) && Init(c, s).Some? && Visible(c, s, InitStep) == Some(e) && MustPrecede(c, a, e)
    ensures Happened(c, s, a)
  {
    DecisionsAgree(c.spec);
  }

  lemma OtherHappens(c: Config, s: State, step: Step, e: Event)
    requires StateInv(c, s) && Move(c, s, step).Some? && !step.SupStep? && !step.InitStep?
    ensures Happened(c, Move(c, s, step).value, e) <==> Happened(c, s, e) || Visible(c, s, step) == Some(e)
    ensures Visible(c, s, step) == Some(e) ==> !Happened(c, s, e)
  {
    match step {
      case JoinStep(ns) => JoinHappens(c, s, ns, e);
      case WorkStep => WorkHappens(c, s, e);
      case ReleaseStep =>
    }
  }

  lemma JoinHappens(c: Config, s: State, ns: NamespaceType, e: Event)
    requires s.pending !! s.joined && Join(s, ns).Some?
    ensures Happened(c, Join(s, ns).value, e) <==> Happened(c, s, e) || e == JoinedNs(ns)
    ensures e == JoinedNs(ns) ==> !Happened(c, s, e)
  {
  }

  lemma WorkHappens(c: Config, s: State, e: Event)
    requires Work(c, s).Some?
    ensures Happened(c, Work(c, s).value, e) <==> Happened(c, s, e) || Visible(c, s, WorkStep) == Some(e)
    ensures Visible(c, s, WorkStep) == Some(e) ==> !Happened(c, s, e)
  {
  }

  lemma OtherInOrder(c: Config, s: State, step: Step, a: Event, e: Event)
    requires StateInv(c, s) && Move(c, s, step).Some? && !step.SupStep? && !step.InitStep?
    requires Visible(c, s, step) == Some(e) && MustPrecede(c, a, e)
    ensures Happened(c, s, a)
  {
  }

  // ---- the run-level invariant ------------------------------------------------------

  ghost predicate Precedes(log: seq<Event>, a: Event, b: Event) {
    forall j :: 0 <= j < |log| && log[j] == b ==> a in log[..j]
  }

  ghost predicate Ordered(c: Config, log: seq<Event>) {
    forall a, b :: MustPrecede(c, a, b) ==> Precedes(log, a, b)
  }

  ghost predicate NoRepeats(log: seq<Event>) {
    forall i, j :: 0 <= i < j < |log| ==> log[i] != log[j]
  }

  ghost predicate RunInv(c: Config, s: State) {
    Inv(c, s) && Ordered(c, s.log) && NoRepeats(s.log)
  }

  lemma PrecedesAppend(log: seq<Event>, a: Event, b: Event, e: Event)
    requires Precedes(log, a, b) && (e == b ==> a in log)
    ensures Precedes(log + [e], a, b)
  {
    forall j | 0 <= j < |log + [e]| && (log + [e])[j] == b ensures a in (log + [e])[..j] {
      assert (log + [e])[..j] == log[..j];
      if j == |log| { assert log[..j] == log; }
    }
  }

  lemma Happens(c: Config, s: State, step: Step, e: Event)
    requires StateInv(c, s) && Move(c, s, step).Some?
    ensures Happened(c, Move(c, s, step).value, e) <==> Happened(c, s, e) || Visible(c, s, step) == Some(e)
    ensures Visible(c, s, step) == Some(e) ==> !Happened(c, s, e)
  {
    match step {
      case SupStep => SupKeepsReport(c, s); SupHappens(c, s, e);
      case InitStep => InitHappens(c, s, e);
      case _ => OtherHappens(c, s, step, e);
    }
  }

  lemma InOrder(c: Config, s: State, step: Step, a: Event, e: Event)
    requires StateInv(c, s) && Move(c, s, step).Some? && Visible(c, s, step) == Some(e) && MustPrecede(c, a, e)
    ensures Happened(c, s, a)
  {
    match step {
      case SupStep => SupInOrder(c, s, a, e);
      case InitStep => InitInOrder(c, s, a, e);
      case _ => OtherInOrder(c, s, step, a, e);
    }
  }

  lemma HappenedIgnoresLog(c: Config, s: State, log: seq<Event>, e: Event)
    ensures Happened(c, s.(log := log), e) <==> Happened(c, s, e)
  {
  }

  lemma StateInvIgnoresLog(c: Config, s: State, log: seq<Event>)
    requires StateInv(c, s)
    ensures StateInv(c, s.(log := log))
  {
  }

  lemma MoveKeepsLog(c: Config, s: State, step: Step)
    requires Move(c, s, step).Some?
    ensures Move(c, s, step).value.log == s.log
  {
  }

  lemma AppendOrdered(c: Config, log: seq<Event>, e: Event)
    requires Ordered(c, log) && NoRepeats(log) && e !in log
    requires forall a :: MustPrecede(c, a, e) ==> a in log
    ensures Ordered(c, log + [e]) && NoRepeats(log + [e])
  {
    forall a, b | MustPrecede(c, a, b) ensures Precedes(log + [e], a, b) {
      PrecedesAppend(log, a, b, e);
    }
  }

  lemma LogMatches(c: Config, s: State, step: Step, e: Event)
    requires StateInv(c, s) && (e in s.log <==> Happened(c, s, e)) && Take(c, s, step).Some?
    ensures var t := Take(c, s, step).value; e in t.log <==> Happened(c, t, e)
  {
    var t, t' := Move(c, s, step).value, Take(c, s, step).value;
    MoveKeepsLog(c, s, step);
    Happens(c, s, step, e);
    HappenedIgnoresLog(c, t, t'.log, e);
  }

  lemma InvStep(c: Config, s: State, step: Step)
    requires Inv(c, s) && Take(c, s, step).Some?
    ensures Inv(c, Take(c, s, step).value)
  {
    StateInvStep(c, s, step);
    StateInvIgnoresLog(c, Move(c, s, step).value, Take(c, s, step).value.log);
    forall e ensures e in Take(c, s, step).value.log <==> Happened(c, Take(c, s, step).value, e) {
      LogMatches(c, s, step, e);
    }
  }

  lemma RunInvStep(c: Config, s: State, step: Step)
    requires RunInv(c, s) && Take(c, s, step).Some?
    ensures RunInv(c, Take(c, s, step).value)
  {
    InvStep(c, s, step);
    MoveKeepsLog(c, s, step);
    if Visible(c, s, step).Some? {
      var e := Visible(c, s, step).value;
      Happens(c, s, step, e);
      forall a | MustPrecede(c, a, e) ensures a in s.log {
        InOrder(c, s, step, a, e);
      }
      AppendOrdered(c, s.log, e);
    }
  }

  lemma {:induction false} RunKeepsInv(c: Config, run: seq<State>, i: nat)
    requires IsRun(c, run) && i < |run|
    ensures RunInv(c, run[i])
  {
    if i == 0 {
      InvStart(c);
    } else {
      RunKeepsInv(c, run, i - 1);
      assert Moves(c, run[i - 1], run[i]);
      var step :| Take(c, run[i - 1], step) == Some(run[i]);
      RunInvStep(c, run[i - 1], step);
    }
  }

  // Main result: in every interleaving, for every spec, what must come first comes first,
  // and nothing happens twice.
  lemma EveryRunIsOrdered(c: Config, s: State)
    requires Reachable(c, s)
    ensures Ordered(c, s.log) && NoRepeats(s.log)
    ensures s.sup != SPanic
  {
    var run :| IsRun(c, run) && run[|run| - 1] == s;
    RunKeepsInv(c, run, |run| - 1);
  }

  // Main result: past the network step, a supervisor whose container wants or shares any
  // namespace has taken init's report of the created ones, and nothing is left unread.
  lemma CreatedReportTaken(c: Config, s: State)
    requires Reachable(c, s) && s.sup in {SNetwork, SFreeNet, SSetRunning, SDone}
    requires Wanted(c.spec) != {} || c.spec.shares != []
    ensures s.init2sup == [] && s.init in {IWaitWorkload, IHold, IExited} && ReceivedCreated in s.log
  {
    var run :| IsRun(c, run) && run[|run| - 1] == s;
    RunKeepsInv(c, run, |run| - 1);
    assert Happened(c, s, ReceivedCreated);
  }

  // Parts of the invariant, for a caller that holds the whole of it.
  lemma PartsOf(c: Config, s: State)
    requires RunInv(c, s)
    ensures ReportInv(c, s) && GateInv(c, s) && NamespaceInv(c, s)
  {
  }

  lemma WorkloadPartition(c: Config, s: State)
    requires ReportInv(c, s) && GateInv(c, s) && NamespaceInv(c, s) && s.work != WNone
    ensures s.joined == ShareTypes(c.spec)
    ensures s.created == Wanted(c.spec) - ShareTypes(c.spec)
    ensures forall kinds :: CreatedReport(kinds) in s.init2sup ==> kinds == s.created
  {
  }

  // Main result: once init forks the workload it has joined exactly the shared types,
  // created exactly the wanted ones it did not join, and that is what it reports.
  lemma NamespacePartition(c: Config, s: State)
    requires Reachable(c, s) && s.work != WNone
    ensures s.joined == ShareTypes(c.spec)
    ensures s.created == Wanted(c.spec) - ShareTypes(c.spec)
    ensures forall kinds :: CreatedReport(kinds) in s.init2sup ==> kinds == s.created
  {
    var run :| IsRun(c, run) && run[|run| - 1] == s;
    RunKeepsInv(c, run, |run| - 1);
    PartsOf(c, s);
    WorkloadPartition(c, s);
  }

  // ---- progress -------------------------------------------------------------------------

  lemma Progress(c: Config, s: State) returns (step: Step)
    requires StateInv(c, s) && Compatible(c) && !Final(s)
    ensures Take(c, s, step).Some?
  {
    CompatibleFacts(c);
    if Sup(c, s).Some? {
      step := SupStep;
    } else if Init(c, s).Some? {
      step := InitStep;
    } else if s.init == IJoin {
      var ns :| ns in s.pending;
      step := JoinStep(ns);
    } else if Work(c, s).Some? {
      step := WorkStep;
    } else {
      step := ReleaseStep;
      BlockedIsHolding(c, s);
    }
  }

  lemma CompatibleFacts(c: Config)
    requires Compatible(c)
    ensures c.spec.shares != [] ==> Sends(c) && |c.spec.shares| <= OOB_FDS && !SupCreatesUser(c.spec)
  {
    DecisionsAgree(c.spec);
  }

  lemma SupBlocked(c: Config, s: State)
    requires UserNsInv(c, s) && ReportInv(c, s) && Sup(c, s) == None
    ensures s.sup == SDone
         || (s.sup == SWaitReady && SupCreatesUser(c.spec) && InitRank(s.init) <= 3)
         || (s.sup == SRecvPid && InitRank(s.init) <= 8)
         || (s.sup == SRecvCreated && InitRank(s.init) <= 9)
  {
    CreatesAnyIff(c.spec);
  }

  lemma InitBlocked(c: Config, s: State)
    requires UserNsInv(c, s) && ShareInv(c, s) && Init(c, s) == None && s.init != IJoin
    requires c.spec.shares != [] ==> Sends(c) && |c.spec.shares| <= OOB_FDS
    ensures (s.init == IRecv && c.spec.shares != [] && SupRank(s.sup) <= 4)
         || (s.init == IWaitMaps && SupCreatesUser(c.spec) && SupRank(s.sup) <= 3)
         || (s.init == IWaitWorkload && s.work != WExited)
         || (s.init == IHold && s.keepAlive == 0)
         || s.init == IExited
  {
  }

  // When no process can move, init holds the namespaces of a running net root.
  lemma BlockedIsHolding(c: Config, s: State)
    requires StateInv(c, s) && !Final(s) && s.init != IJoin
    requires c.spec.shares != [] ==> Sends(c) && |c.spec.shares| <= OOB_FDS && !SupCreatesUser(c.spec)
    requires Sup(c, s) == None && Init(c, s) == None && Work(c, s) == None
    ensures Release(c, s).Some?
  {
    SupBlocked(c, s);
    InitBlocked(c, s);
  }

  function Measure(s: State): nat {
    (12 - SupRank(s.sup)) + 8 * (12 - InitRank(s.init)) + |s.pending| + (5 - WorkRank(s.work))
    + (if s.holdReleased then 0 else 1)
  }

  lemma SupDrops(c: Config, s: State)
    requires Sup(c, s).Some?
    ensures Measure(Sup(c, s).value) < Measure(s)
  {
    SupLeavesInit(c, s);
  }

  lemma InitDrops(c: Config, s: State)
    requires Init(c, s).Some?
    ensures Measure(Init(c, s).value) < Measure(s)
  {
    InitMoves(c, s);
    AtMostSeven(Init(c, s).value.pending);
    InitMovedDrops(c, s, Init(c, s).value);
  }

  lemma InitMovedDrops(c: Config, s: State, t: State)
    requires InitMoved(c, s, t) && |t.pending| <= 7
    ensures Measure(t) < Measure(s)
  {
  }

  lemma OtherDrops(c: Config, s: State, step: Step)
    requires Move(c, s, step).Some? && !step.SupStep? && !step.InitStep?
    ensures Measure(Move(c, s, step).value) < Measure(s)
  {
  }

  lemma MeasureDrops(c: Config, s: State, step: Step)
    requires Take(c, s, step).Some?
    ensures Measure(Take(c, s, step).value) < Measure(s)
  {
    var t, t' := Move(c, s, step).value, Take(c, s, step).value;
    assert t'.sup == t.sup && t'.init == t.init && t'.work == t.work
        && t'.pending == t.pending && t'.holdReleased == t.holdReleased;
    match step {
      case SupStep => SupDrops(c, s);
      case InitStep => InitDrops(c, s);
      case _ => OtherDrops(c, s, step);
    }
  }

  lemma {:induction false} RunIsShort(c: Config, run: seq<State>, i: nat)
    requires IsRun(c, run) && i < |run|
    ensures Measure(run[i]) + i <= Measure(START)
  {
    if i > 0 {
      RunIsShort(c, run, i - 1);
      assert Moves(c, run[i - 1], run[i]);
      var step :| Take(c, run[i - 1], step) == Some(run[i]);
      MeasureDrops(c, run[i - 1], step);
    }
  }

  // Every run ends: no run has more than 114 steps.
  lemma RunsAreBounded(c: Config, run: seq<State>)
    requires IsRun(c, run)
    ensures |run| - 1 <= 114
  {
    RunIsShort(c, run, |run| - 1);
    assert Measure(START) == 114;
  }

  lemma {:induction false} ReachStuck(c: Config, run: seq<State>) returns (stuck: State)
    requires IsRun(c, run)
    ensures Reachable(c, stuck) && Stuck(c, stuck)
    decreases Measure(run[|run| - 1])
  {
    stuck := run[|run| - 1];
    if !Stuck(c, stuck) {
      var step :| Take(c, stuck, step) != None;
      var next := Take(c, stuck, step).value;
      MeasureDrops(c, stuck, step);
      assert Moves(c, stuck, next);
      stuck := ReachStuck(c, run + [next]);
    }
  }

  // ---- the specs that block -----------------------------------------------------------------

  // An incompatible start leaves init at the receive of the shared descriptors, or crashed in it.
  ghost predicate BlockedInv(c: Config, s: State) {
    && (s.init == IRecv || s.init == ICrashed)
    && (SupCreatesUser(c.spec) ==> SupRank(s.sup) <= 1)
  }

  lemma BlockedStep(c: Config, s: State, step: Step)
    requires !Compatible(c) && StateInv(c, s) && BlockedInv(c, s) && Take(c, s, step).Some?
    ensures BlockedInv(c, Take(c, s, step).value)
  {
    DecisionsAgree(c.spec);
    if s.init == IRecv && s.sup2init != [] {
      ShareMessageDecodes(c);
    }
  }

  lemma {:induction false} BlockedRun(c: Config, run: seq<State>, i: nat)
    requires !Compatible(c) && IsRun(c, run) && i < |run|
    ensures BlockedInv(c, run[i])
  {
    if i > 0 {
      BlockedRun(c, run, i - 1);
      RunKeepsInv(c, run, i - 1);
      assert Moves(c, run[i - 1], run[i]);
      var step :| Take(c, run[i - 1], step) == Some(run[i]);
      BlockedStep(c, run[i - 1], step);
    }
  }

  // An incompatible start never finishes, in any interleaving.
  lemma IncompatibleAlwaysBlocks(c: Config, s: State)
    requires !Compatible(c) && Reachable(c, s)
    ensures !Final(s) && s.work == WNone
  {
    var run :| IsRun(c, run) && run[|run| - 1] == s;
    BlockedRun(c, run, |run| - 1);
    RunKeepsInv(c, run, |run| - 1);
  }

  // Main result: no reachable state is stuck short of the end if and only if the start is compatible.
  lemma DeadlockFreeIffCompatible(c: Config)
    ensures (forall s :: Reachable(c, s) && Stuck(c, s) ==> Final(s)) <==> Compatible(c)
  {
    if Compatible(c) {
      forall s | Reachable(c, s) && Stuck(c, s) ensures Final(s) {
        var run :| IsRun(c, run) && run[|run| - 1] == s;
        RunKeepsInv(c, run, |run| - 1);
        if !Final(s) { var step := Progress(c, s); }
      }
    } else {
      assert IsRun(c, [START]);
      var stuck := ReachStuck(c, [START]);
      IncompatibleAlwaysBlocks(c, stuck);
    }
  }

  // Both specs the orchestrator builds are compatible: a creator always, a joiner whenever
  // its root's user, network and mount handles are registered.
  lemma OrchestratorSpecsCompatible(id: string, root: string, handles: Handles.Owned)
    ensures Compatible(Config(CreatorSpec(id), handles))
    ensures Compatible(Config(JoinerSpec(id, root), handles)) <==> {NSUser, NSNet, NSMnt} <= handles.Keys
  {
    var shares := JoinerSpec(id, root).shares;
    assert shares[0].kind == NSUser && shares[1].kind == NSNet && shares[2].kind == NSMnt;
  }

  // So once a creator's reported namespaces are registered, its joiners cannot block.
  lemma JoinersOfCreatorCompatible(
      table: Handles.Table, creator: string, fds: map<NamespaceType, int>, joiner: string)
    requires fds.Keys == Wanted(CreatorSpec(creator)) - ShareTypes(CreatorSpec(creator))
    ensures Compatible(Config(JoinerSpec(joiner, creator),
                              Handles.OwnedOf(Handles.Register(table, creator, fds), creator)))
  {
    var owned := Handles.OwnedOf(Handles.Register(table, creator, fds), creator);
    CreatorCoversJoiner(creator, joiner);
    assert ShareTypes(JoinerSpec(joiner, creator)) <= fds.Keys <= owned.Keys;
    JoinerShares(joiner, creator);
    OrchestratorSpecsCompatible(joiner, creator, owned);
  }

  lemma JoinerShares(id: string, root: string)
    ensures ShareTypes(JoinerSpec(id, root)) == {NSUser, NSNet, NSMnt}
  {
    var shares := JoinerSpec(id, root).shares;
    assert shares[0].kind == NSUser && shares[1].kind == NSNet && shares[2].kind == NSMnt;
  }
}
