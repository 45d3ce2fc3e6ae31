// lib/types.go and lib/namespaces.go: what a container asks to create and to
// join, and the clone-flag arithmetic that turns the request into one unshare
// mask.  lib/fds_setup.go: which created namespaces init reports back.
module Namespaces {
  import opened Prelude

  datatype NamespaceType = NSUser | NSNet | NSMnt | NSPID | NSIPC | NSUTS | NSCgroup

  datatype NamespaceConfig = NamespaceConfig(
    user: bool, net: bool, mount: bool, pid: bool, ipc: bool, uts: bool, cgroup: bool)

  datatype ShareSpec = ShareSpec(kind: NamespaceType, from: string)

  datatype ContainerSpec = ContainerSpec(
    id: string, namespaces: NamespaceConfig, shares: seq<ShareSpec>, isNetRoot: bool)

  const ALL_NAMESPACES: seq<NamespaceType> := [NSUser, NSNet, NSMnt, NSPID, NSIPC, NSUTS, NSCgroup]

  // The six types the unshare mask is built from; the user namespace is created on its own.
  const UNSHARE_ORDER: seq<NamespaceType> := [NSNet, NSMnt, NSPID, NSIPC, NSUTS, NSCgroup]

  predicate Wants(spec: ContainerSpec, ns: NamespaceType) {
    match ns
    case NSUser => spec.namespaces.user
    case NSNet => spec.namespaces.net
    case NSMnt => spec.namespaces.mount
    case NSPID => spec.namespaces.pid
    case NSIPC => spec.namespaces.ipc
    case NSUTS => spec.namespaces.uts
    case NSCgroup => spec.namespaces.cgroup
  }

  function Wanted(spec: ContainerSpec): set<NamespaceType> {
    set ns: NamespaceType | Wants(spec, ns)
  }

  function ShareTypes(spec: ContainerSpec): set<NamespaceType> {
    set s | s in spec.shares :: s.kind
  }

  function ShareList(shares: seq<ShareSpec>): seq<NamespaceType> {
    seq(|shares|, i requires 0 <= i < |shares| => shares[i].kind)
  }

  lemma ShareListTypes(spec: ContainerSpec)
    ensures (set ns | ns in ShareList(spec.shares)) == ShareTypes(spec)
  {
    forall ns | ns in ShareTypes(spec) ensures ns in ShareList(spec.shares) {
      var i :| 0 <= i < |spec.shares| && spec.shares[i].kind == ns;
      assert ShareList(spec.shares)[i] == ns;
    }
  }

  predicate CreatesAnyNamespace(spec: ContainerSpec) {
    var n := spec.namespaces;
    n.user || n.net || n.mount || n.pid || n.ipc || n.uts || n.cgroup
  }

  // The supervisor's test is whether anything is wanted at all.
  lemma CreatesAnyIff(spec: ContainerSpec)
    ensures CreatesAnyNamespace(spec) <==> Wanted(spec) != {}
  {
    if CreatesAnyNamespace(spec) {
      var n := spec.namespaces;
      assert (n.user ==> NSUser in Wanted(spec)) && (n.net ==> NSNet in Wanted(spec)) && (n.mount ==> NSMnt in Wanted(spec));
      assert (n.pid ==> NSPID in Wanted(spec)) && (n.ipc ==> NSIPC in Wanted(spec)) && (n.uts ==> NSUTS in Wanted(spec));
      assert n.cgroup ==> NSCgroup in Wanted(spec);
    } else {
      assert forall ns: NamespaceType :: !Wants(spec, ns);
    }
  }

  lemma AllSevenListed(ns: NamespaceType)
    ensures ns in ALL_NAMESPACES
    ensures ns in UNSHARE_ORDER <==> ns != NSUser
  {
    match ns {
      case NSUser => assert ALL_NAMESPACES[0] == ns;
      case NSNet => assert ALL_NAMESPACES[1] == UNSHARE_ORDER[0] == ns;
      case NSMnt => assert ALL_NAMESPACES[2] == UNSHARE_ORDER[1] == ns;
      case NSPID => assert ALL_NAMESPACES[3] == UNSHARE_ORDER[2] == ns;
      case NSIPC => assert ALL_NAMESPACES[4] == UNSHARE_ORDER[3] == ns;
      case NSUTS => assert ALL_NAMESPACES[5] == UNSHARE_ORDER[4] == ns;
      case NSCgroup => assert ALL_NAMESPACES[6] == UNSHARE_ORDER[5] == ns;
    }
  }

  lemma AtMostSeven(kinds: set<NamespaceType>)
    ensures |kinds| <= 7
  {
    var all := {NSUser, NSNet, NSMnt, NSPID, NSIPC, NSUTS, NSCgroup};
    forall ns | ns in kinds ensures ns in all {
      AllSevenListed(ns);
      assert ALL_NAMESPACES == [NSUser, NSNet, NSMnt, NSPID, NSIPC, NSUTS, NSCgroup];
    }
    SubsetSize(kinds, all);
  }

  // ---- clone flags -------------------------------------------------------

  // The CLONE_NEW* values of <linux/sched.h>.
  function CloneFlag(ns: NamespaceType): bv32 {
    match ns
    case NSUser => 0x1000_0000
    case NSNet => 0x4000_0000
    case NSMnt => 0x0002_0000
    case NSPID => 0x2000_0000
    case NSIPC => 0x0800_0000
    case NSUTS => 0x0400_0000
    case NSCgroup => 0x0200_0000
  }

  predicate Meets(flags: bv32, bits: bv32) {
    flags & bits != 0
  }

  predicate HasFlag(flags: bv32, ns: NamespaceType) {
    Meets(flags, CloneFlag(ns))
  }

  // What the kernel's unshare(flags) creates.
  function DecodeFlags(flags: bv32): set<NamespaceType> {
    set ns: NamespaceType | HasFlag(flags, ns)
  }

  lemma OrMeets(a: bv32, b: bv32, c: bv32)
    ensures Meets(a | b, c) <==> Meets(a, c) || Meets(b, c)
  {
    assert (a | b) & c == (a & c) | (b & c);
  }

  // Every clone flag is a bit of its own.
  lemma FlagsDistinct(a: NamespaceType, b: NamespaceType)
    ensures HasFlag(CloneFlag(a), b) <==> a == b
  {
    match a {
      case NSUser => match b { case _ => }
      case NSNet => match b { case _ => }
      case NSMnt => match b { case _ => }
      case NSPID => match b { case _ => }
      case NSIPC => match b { case _ => }
      case NSUTS => match b { case _ => }
      case NSCgroup => match b { case _ => }
    }
  }

  lemma HasFlagOr(a: bv32, b: bv32, ns: NamespaceType)
    ensures HasFlag(a | b, ns) <==> HasFlag(a, ns) || HasFlag(b, ns)
  {
    OrMeets(a, b, CloneFlag(ns));
  }

  lemma OrFlag(flags: bv32, added: NamespaceType, ns: NamespaceType)
    ensures HasFlag(flags | CloneFlag(added), ns) <==> HasFlag(flags, ns) || ns == added
  {
    HasFlagOr(flags, CloneFlag(added), ns);
    FlagsDistinct(added, ns);
  }

  // The mask unshare is called with, given the set of namespaces already joined.
  function UnshareFlags(spec: ContainerSpec, joined: set<NamespaceType>, order: seq<NamespaceType>): bv32 {
    if order == [] then 0
    else
      var last := order[|order| - 1];
      var rest := UnshareFlags(spec, joined, order[..|order| - 1]);
      if Wants(spec, last) && last !in joined then rest | CloneFlag(last) else rest
  }

  lemma {:induction false} UnshareFlagsHas(
      spec: ContainerSpec, joined: set<NamespaceType>, order: seq<NamespaceType>, ns: NamespaceType)
    ensures HasFlag(UnshareFlags(spec, joined, order), ns) <==> ns in order && Wants(spec, ns) && ns !in joined
  {
    if order == [] {
      assert !Meets(0, CloneFlag(ns));
    } else {
      var last, init := order[|order| - 1], order[..|order| - 1];
      UnshareFlagsHas(spec, joined, init, ns);
      assert order == init + [last];
      if Wants(spec, last) && last !in joined {
        OrFlag(UnshareFlags(spec, joined, init), last, ns);
      }
    }
  }

  // The unshare mask creates exactly what is wanted, less the user namespace and what was joined.
  lemma UnshareCreatesTheRest(spec: ContainerSpec, joined: set<NamespaceType>)
    ensures DecodeFlags(UnshareFlags(spec, joined, UNSHARE_ORDER)) == Wanted(spec) - {NSUser} - joined
    ensures UnshareFlags(spec, joined, UNSHARE_ORDER) == 0 <==> Wanted(spec) - {NSUser} - joined == {}
  {
    forall ns: NamespaceType
      ensures ns in DecodeFlags(UnshareFlags(spec, joined, UNSHARE_ORDER)) <==> ns in Wanted(spec) - {NSUser} - joined
    {
      AllSevenListed(ns);
      UnshareFlagsHas(spec, joined, UNSHARE_ORDER, ns);
    }
    UnshareFlagsNonzero(spec, joined, UNSHARE_ORDER);
  }

  lemma {:induction false} UnshareFlagsNonzero(spec: ContainerSpec, joined: set<NamespaceType>, order: seq<NamespaceType>)
    ensures UnshareFlags(spec, joined, order) == 0 <==> DecodeFlags(UnshareFlags(spec, joined, order)) == {}
  {
    var flags := UnshareFlags(spec, joined, order);
    if flags == 0 {
      forall ns: NamespaceType ensures !HasFlag(0, ns) {
        assert !Meets(0, CloneFlag(ns));
      }
    } else {
      var last, init := order[|order| - 1], order[..|order| - 1];
      if Wants(spec, last) && last !in joined {
        UnshareFlagsHas(spec, joined, order, last);
        assert last in DecodeFlags(flags);
      } else {
        UnshareFlagsNonzero(spec, joined, init);
      }
    }
  }

  lemma {:induction false} UnshareFlagsWithin(spec: ContainerSpec, joined: set<NamespaceType>, order: seq<NamespaceType>)
    requires forall i :: 0 <= i < |order| ==> order[i] != NSUser
    ensures UnshareFlags(spec, joined, order) & 0x91FD_FFFF == 0
  {
    if order != [] {
      UnshareFlagsWithin(spec, joined, order[..|order| - 1]);
      OneFlagWithin(order[|order| - 1]);
      OrWithin(UnshareFlags(spec, joined, order[..|order| - 1]), CloneFlag(order[|order| - 1]));
    }
  }

  lemma OneFlagWithin(ns: NamespaceType)
    requires ns != NSUser
    ensures CloneFlag(ns) & 0x91FD_FFFF == 0
  {
  }

  lemma OrWithin(a: bv32, b: bv32)
    requires a & 0x91FD_FFFF == 0 && b & 0x91FD_FFFF == 0
    ensures (a | b) & 0x91FD_FFFF == 0
  {
  }

  // The mask bit by bit, in the kernel's numbers: each CLONE_NEW* bit says that the spec asks
  // for that namespace and init did not join it, and no other bit is set.
  lemma UnshareMaskBits(spec: ContainerSpec, joined: set<NamespaceType>)
    ensures var flags, n := UnshareFlags(spec, joined, UNSHARE_ORDER), spec.namespaces;
      && (Meets(flags, 0x4000_0000) <==> n.net && NSNet !in joined)
      && (Meets(flags, 0x0002_0000) <==> n.mount && NSMnt !in joined)
      && (Meets(flags, 0x2000_0000) <==> n.pid && NSPID !in joined)
      && (Meets(flags, 0x0800_0000) <==> n.ipc && NSIPC !in joined)
      && (Meets(flags, 0x0400_0000) <==> n.uts && NSUTS !in joined)
      && (Meets(flags, 0x0200_0000) <==> n.cgroup && NSCgroup !in joined)
      && flags & 0x91FD_FFFF == 0
  {
    UnshareFlagsWithin(spec, joined, UNSHARE_ORDER);
    forall ns: NamespaceType
      ensures HasFlag(UnshareFlags(spec, joined, UNSHARE_ORDER), ns) <==> ns != NSUser && Wants(spec, ns) && ns !in joined
    {
      UnshareFlagsHas(spec, joined, UNSHARE_ORDER, ns);
      AllSevenListed(ns);
    }
    FlagOf(UnshareFlags(spec, joined, UNSHARE_ORDER));
  }

  lemma FlagOf(flags: bv32)
    ensures HasFlag(flags, NSNet) == Meets(flags, 0x4000_0000) && HasFlag(flags, NSMnt) == Meets(flags, 0x0002_0000)
    ensures HasFlag(flags, NSPID) == Meets(flags, 0x2000_0000) && HasFlag(flags, NSIPC) == Meets(flags, 0x0800_0000)
    ensures HasFlag(flags, NSUTS) == Meets(flags, 0x0400_0000) && HasFlag(flags, NSCgroup) == Meets(flags, 0x0200_0000)
  {
  }

  // lib/namespaces.go, the flag loop of ApplyNamespaces.
  method BuildUnshareFlags(spec: ContainerSpec, joined: set<NamespaceType>) returns (flags: bv32)
    ensures flags == UnshareFlags(spec, joined, UNSHARE_ORDER)
    ensures DecodeFlags(flags) == Wanted(spec) - {NSUser} - joined
  {
    flags := 0;
    for i := 0 to |UNSHARE_ORDER|
      invariant flags == UnshareFlags(spec, joined, UNSHARE_ORDER[..i])
    {
      var ns := UNSHARE_ORDER[i];
      assert UNSHARE_ORDER[..i + 1] == UNSHARE_ORDER[..i] + [ns];
      if Wants(spec, ns) {
        if ns !in joined {
          flags := flags | CloneFlag(ns);
        }
      }
    }
    assert UNSHARE_ORDER[..|UNSHARE_ORDER|] == UNSHARE_ORDER;
    UnshareCreatesTheRest(spec, joined);
  }

  // ---- what init reports to the supervisor -------------------------------

  // lib/fds_setup.go, CollectCreatedNamespaceFDs.  `open` is the outcome of opening the
  // namespace's /proc path: a type outside it failed to open and is skipped.
  method CollectCreatedNamespaceFDs(spec: ContainerSpec, open: map<NamespaceType, int>)
      returns (fds: map<NamespaceType, int>)
    ensures fds.Keys == (Wanted(spec) - ShareTypes(spec)) * open.Keys
    ensures forall ns :: ns in fds ==> fds[ns] == open[ns]
  {
    fds := map[];
    var joined: set<NamespaceType> := {};
    for i := 0 to |spec.shares|
      invariant joined == set s | s in spec.shares[..i] :: s.kind
    {
      joined := joined + {spec.shares[i].kind};
      assert spec.shares[..i + 1] == spec.shares[..i] + [spec.shares[i]];
    }
    assert spec.shares[..|spec.shares|] == spec.shares;
    assert joined == ShareTypes(spec);
    for i := 0 to |ALL_NAMESPACES|
      invariant fds.Keys == set ns | ns in ALL_NAMESPACES[..i] && Wants(spec, ns) && ns !in joined && ns in open
      invariant forall ns :: ns in fds ==> ns in open && fds[ns] == open[ns]
    {
      var ns := ALL_NAMESPACES[i];
      assert ALL_NAMESPACES[..i + 1] == ALL_NAMESPACES[..i] + [ns];
      if Wants(spec, ns) && ns !in joined && ns in open {
        fds := fds[ns := open[ns]];
      }
    }
    forall ns: NamespaceType ensures ns in ALL_NAMESPACES {
      AllSevenListed(ns);
    }
    assert ALL_NAMESPACES[..|ALL_NAMESPACES|] == ALL_NAMESPACES;
  }

  // ---- the two specs the orchestrator builds -----------------------------

  // DefaultSpec plus the creator's settings.
  function CreatorSpec(id: string): ContainerSpec {
    ContainerSpec(id, NamespaceConfig(true, true, true, true, false, false, false), [], true)
  }

  // DefaultSpec plus the joiner's settings: user, network and mount namespaces of the root.
  function JoinerSpec(id: string, root: string): ContainerSpec {
    ContainerSpec(id, NamespaceConfig(false, true, true, false, false, false, false),
                  [ShareSpec(NSUser, root), ShareSpec(NSNet, root), ShareSpec(NSMnt, root)], false)
  }

  // What init is asked to do for them: a creator's enters a user namespace of its own and
  // unshares CLONE_NEWNET | CLONE_NEWNS | CLONE_NEWPID; a joiner's, once it joined its three,
  // has nothing left to create and nothing to report.
  lemma OrchestratorRequests(id: string, root: string)
    ensures var spec := CreatorSpec(id);
      && spec.shares == [] && spec.isNetRoot && Wants(spec, NSUser)
      && UnshareFlags(spec, {}, UNSHARE_ORDER) == 0x6002_0000
    ensures var spec := JoinerSpec(id, root);
      && |spec.shares| == 3 && (forall s :: s in spec.shares ==> s.from == root)
      && !spec.isNetRoot && !Wants(spec, NSUser) && Wanted(spec) <= ShareTypes(spec)
      && UnshareFlags(spec, ShareTypes(spec), UNSHARE_ORDER) == 0
  {
    CreatorMask(id);
    var joiner := JoinerSpec(id, root);
    assert joiner.shares[1].kind == NSNet && joiner.shares[2].kind == NSMnt;
    UnshareCreatesTheRest(joiner, ShareTypes(joiner));
  }

  lemma CreatorMask(id: string)
    ensures UnshareFlags(CreatorSpec(id), {}, UNSHARE_ORDER) == 0x6002_0000
  {
    var spec := CreatorSpec(id);
    UnshareStep(spec, 0);
    UnshareStep(spec, 1);
    UnshareStep(spec, 2);
    assert UnshareFlags(spec, {}, UNSHARE_ORDER[..3]) == 0x6002_0000;
    UnshareStep(spec, 3);
    UnshareStep(spec, 4);
    UnshareStep(spec, 5);
    assert UNSHARE_ORDER[..6] == UNSHARE_ORDER;
  }

  lemma UnshareStep(spec: ContainerSpec, k: nat)
    requires k < |UNSHARE_ORDER|
    ensures var rest, last := UnshareFlags(spec, {}, UNSHARE_ORDER[..k]), UNSHARE_ORDER[k];
      UnshareFlags(spec, {}, UNSHARE_ORDER[..k + 1]) == if Wants(spec, last) then rest | CloneFlag(last) else rest
  {
    assert UNSHARE_ORDER[..k + 1][..k] == UNSHARE_ORDER[..k];
  }

  // What a creator creates covers everything a joiner asks to share.
  lemma CreatorCoversJoiner(creator: string, joiner: string)
    ensures ShareTypes(JoinerSpec(joiner, creator)) <= Wanted(CreatorSpec(creator)) - ShareTypes(CreatorSpec(creator))
  {
  }
}
