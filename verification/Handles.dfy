// The supervisor's table of namespace handles: registration after a container starts,
// one reference per visit of a share loop, and the reaper's release.
// lib/fds_setup.go, RegisterNamespaceHandles and SendNamespaceFDs; sup/clean.go, lines 68-78.
module Handles {
  import opened Prelude
  import opened Namespaces
  import opened FdPassing

  datatype NamespaceHandle = NamespaceHandle(fd: int, refs: int)

  type Owned = map<NamespaceType, NamespaceHandle>

  type Table = map<string, Owned>

  // ---- the three table operations ----------------------------------------

  function OwnedOf(table: Table, id: string): Owned {
    if id in table then table[id] else map[]
  }

  // A registration overwrites handles of the same type and keeps the others.
  function Register(table: Table, id: string, fds: map<NamespaceType, int>): Table {
    table[id := Overlay(OwnedOf(table, id), fds, fds.Keys)]
  }

  function Overlay(owned: Owned, fds: map<NamespaceType, int>, kinds: set<NamespaceType>): Owned
    requires kinds <= fds.Keys
  {
    owned + map ns | ns in kinds :: NamespaceHandle(fds[ns], 1)
  }

  lemma OverlayOne(owned: Owned, fds: map<NamespaceType, int>, kinds: set<NamespaceType>, ns: NamespaceType)
    requires kinds <= fds.Keys && ns in fds
    ensures Overlay(owned, fds, kinds)[ns := NamespaceHandle(fds[ns], 1)] == Overlay(owned, fds, kinds + {ns})
  {
  }

  // After a registration the owner holds exactly what was reported, with count one, and what
  // it held of other types; every other owner is as before.
  lemma RegisterSets(table: Table, id: string, fds: map<NamespaceType, int>, other: string, ns: NamespaceType)
    ensures var t := Register(table, id, fds);
      && id in t
      && (ns in t[id] <==> ns in fds || ns in OwnedOf(table, id))
      && (ns in fds ==> t[id][ns] == NamespaceHandle(fds[ns], 1))
      && (ns !in fds && ns in t[id] ==> t[id][ns] == OwnedOf(table, id)[ns])
      && (other != id ==> OwnedOf(t, other) == OwnedOf(table, other))
  {
  }

  // A share loop counts handles up, one by one, until the first type the owner does not have.
  function Visit(owned: Owned, types: seq<NamespaceType>): Owned
    decreases |types|
  {
    if types == [] || types[0] !in owned then owned
    else Visit(owned[types[0] := owned[types[0]].(refs := owned[types[0]].refs + 1)], types[1..])
  }

  function Share(table: Table, shares: seq<ShareSpec>): Table {
    if shares == [] || shares[0].from !in table then table
    else table[shares[0].from := Visit(table[shares[0].from], ShareList(shares))]
  }

  // A share loop part way: header and descriptors for the shares seen so far.
  ghost predicate SharesWritten(buf: seq<Byte>, fds: seq<int>, seen: seq<ShareSpec>, owned: Owned) {
    && |fds| == |seen| < |buf|
    && (forall k :: 0 <= k < |seen| ==> buf[1 + k] == Code(seen[k].kind))
    && (forall k :: 0 <= k < |seen| ==> seen[k].kind in owned && fds[k] == owned[seen[k].kind].fd)
  }

  lemma WriteShare(buf: seq<Byte>, fds: seq<int>, shares: seq<ShareSpec>, i: nat, owned: Owned)
    requires i < |shares| && 1 + i < |buf| && shares[i].kind in owned && SharesWritten(buf, fds, shares[..i], owned)
    ensures SharesWritten(
      buf[1 + i := Code(shares[i].kind)], fds + [owned[shares[i].kind].fd], shares[..i + 1], owned)
  {
    assert shares[..i + 1] == shares[..i] + [shares[i]];
  }

  // The counting half of a share loop part way: `owned` is `first` after `i` visits.
  ghost predicate Advanced(first: Owned, owned: Owned, shares: seq<ShareSpec>, i: nat)
    requires i <= |shares|
  {
    && owned.Keys == first.Keys
    && Visit(first, ShareList(shares)) == Visit(owned, ShareList(shares)[i..])
    && forall ns :: ns in first ==> owned[ns].fd == first[ns].fd
  }

  lemma AdvanceOne(first: Owned, owned: Owned, shares: seq<ShareSpec>, i: nat)
    requires i < |shares| && Advanced(first, owned, shares, i)
    ensures var ns := shares[i].kind;
      if ns in owned then Advanced(first, owned[ns := owned[ns].(refs := owned[ns].refs + 1)], shares, i + 1)
      else Visit(first, ShareList(shares)) == owned && !Sendable(first, shares)
  {
    var types := ShareList(shares);
    assert types[i..][0] == shares[i].kind;
    assert types[i..][1..] == types[i + 1..];
  }

  ghost predicate IsSharesMessage(msg: FdMessage, shares: seq<ShareSpec>, owned: Owned) {
    && |shares| == |msg.fds| < 256
    && msg == SharesMessage(ShareList(shares), msg.fds)
    && forall i :: 0 <= i < |shares| ==> shares[i].kind in owned && msg.fds[i] == owned[shares[i].kind].fd
  }

  predicate Sendable(owned: Owned, shares: seq<ShareSpec>) {
    forall i :: 0 <= i < |shares| ==> shares[i].kind in owned
  }

  lemma AdvancedAll(first: Owned, owned: Owned, shares: seq<ShareSpec>)
    requires Advanced(first, owned, shares, |shares|)
    ensures owned == Visit(first, ShareList(shares))
  {
    assert ShareList(shares)[|shares|..] == [];
  }

  lemma SharesWrittenAll(buf: seq<Byte>, fds: seq<int>, shares: seq<ShareSpec>, owned: Owned)
    requires SharesWritten(buf, fds, shares, owned) && |buf| == 1 + |shares| < 256 && buf[0] == |shares|
    ensures Sendable(owned, shares) && IsSharesMessage(FdMessage(buf, fds), shares, owned)
  {
    HeaderWritten(buf, ShareList(shares));
  }

  // The handles whose count drops to zero when their owner is reaped.
  function Closed(owned: Owned): map<NamespaceType, int> {
    map ns | ns in owned && owned[ns].refs == 1 :: owned[ns].fd
  }

  // Reaping drops one owner and keeps every other; a share loop touches one owner only.
  lemma OthersKept(table: Table, id: string, shares: seq<ShareSpec>, other: string)
    requires other != id && (shares != [] ==> shares[0].from == id)
    ensures OwnedOf(Reap(table, id), id) == map[] && OwnedOf(Reap(table, id), other) == OwnedOf(table, other)
    ensures OwnedOf(Share(table, shares), other) == OwnedOf(table, other)
  {
  }

  function Reap(table: Table, id: string): Table {
    table - {id}
  }

  class HandleRegistry {
    var handles: Table

    constructor ()
      ensures handles == map[]
    {
      handles := map[];
    }

    method RegisterNamespaceHandles(id: string, fds: map<NamespaceType, int>)
      modifies this
      ensures handles == Register(old(handles), id, fds)
    {
      if id !in handles {
        handles := handles[id := map[]];
      }
      ghost var before := OwnedOf(old(handles), id);
      assert Overlay(before, fds, {}) == before;
      var rest := fds.Keys;
      while rest != {}
        invariant rest <= fds.Keys
        invariant handles == old(handles)[id := Overlay(before, fds, fds.Keys - rest)]
        decreases rest
      {
        var ns :| ns in rest;
        OverlayOne(before, fds, fds.Keys - rest, ns);
        assert fds.Keys - (rest - {ns}) == (fds.Keys - rest) + {ns};
        handles := handles[id := handles[id][ns := NamespaceHandle(fds[ns], 1)]];
        rest := rest - {ns};
      }
      assert fds.Keys - rest == fds.Keys;
    }

    // None: nothing was sent, because there was nothing to share, the owner or a type is
    // missing, or the kernel refuses that many descriptors.  The references counted before
    // a missing type stay counted.
    method SendNamespaceFDs(shares: seq<ShareSpec>) returns (msg: Option<FdMessage>)
      modifies this
      ensures handles == Share(old(handles), shares)
      ensures msg.Some? <==>
        && 0 < |shares| <= SCM_MAX_FD
        && shares[0].from in old(handles)
        && Sendable(old(handles)[shares[0].from], shares)
      ensures msg.Some? ==> IsSharesMessage(msg.value, shares, old(handles)[shares[0].from])
    {
      var count := |shares|;
      if count == 0 {
        return None;
      }
      var from := shares[0].from;
      if from !in handles {
        return None;
      }
      var buf: seq<Byte> := seq(1 + count, _ => 0)[0 := count % 256];
      var fds: seq<int> := [];
      var owned := handles[from];
      ghost var first := owned;
      for i := 0 to count
        invariant handles == old(handles)[from := owned]
        invariant Advanced(first, owned, shares, i)
        invariant |buf| == 1 + count && buf[0] == count % 256 && SharesWritten(buf, fds, shares[..i], first)
      {
        var ns := shares[i].kind;
        AdvanceOne(first, owned, shares, i);
        if ns !in owned {
          return None;
        }
        WriteShare(buf, fds, shares, i, first);
        buf := buf[1 + i := Code(ns)];
        var h := owned[ns];
        fds := fds + [h.fd];
        owned := owned[ns := h.(refs := h.refs + 1)];
        handles := handles[from := owned];
      }
      assert shares[..count] == shares;
      AdvancedAll(first, owned, shares);
      if count > SCM_MAX_FD {
        return None;
      }
      SharesWrittenAll(buf, fds, shares, first);
      msg := Some(FdMessage(buf, fds));
    }

    // The reaper's release of everything a container owns; `closed` is what it closes.
    method ReleaseOwned(id: string) returns (closed: map<NamespaceType, int>)
      modifies this
      ensures handles == Reap(old(handles), id)
      ensures closed == Closed(OwnedOf(old(handles), id))
    {
      closed := map[];
      if id in handles {
        var owned := handles[id];
        var rest := owned.Keys;
        while rest != {}
          invariant rest <= handles[id].Keys && handles == old(handles) && rest <= owned.Keys
          invariant forall ns :: ns in rest ==> owned[ns] == handles[id][ns]
          invariant closed == map ns | ns in handles[id].Keys - rest && handles[id][ns].refs == 1 :: handles[id][ns].fd
          decreases rest
        {
          var ns :| ns in rest;
          var h := owned[ns];
          h := h.(refs := h.refs - 1);
          owned := owned[ns := h];
          if h.refs == 0 {
            closed := closed[ns := h.fd];
            owned := owned - {ns};
          }
          rest := rest - {ns};
        }
        handles := handles - {id};
      }
    }
  }

  // ---- whole histories -----------------------------------------------------

  datatype Event =
    | Registered(id: string, fds: map<NamespaceType, int>)
    | Shared(shares: seq<ShareSpec>)
    | Reaped(id: string)

  function Apply(table: Table, e: Event): Table {
    match e
    case Registered(id, fds) => Register(table, id, fds)
    case Shared(shares) => Share(table, shares)
    case Reaped(id) => Reap(table, id)
  }

  function Replay(history: seq<Event>): Table {
    if history == [] then map[]
    else Apply(Replay(history[..|history| - 1]), history[|history| - 1])
  }

  // How many entries of `types` a loop over `owned` reaches, and how often one type is among them.
  function Reached(keys: set<NamespaceType>, types: seq<NamespaceType>): nat {
    if types == [] || types[0] !in keys then 0 else 1 + Reached(keys, types[1..])
  }

  function Occurrences(types: seq<NamespaceType>, ns: NamespaceType): nat {
    if types == [] then 0 else (if types[0] == ns then 1 else 0) + Occurrences(types[1..], ns)
  }

  lemma {:induction false} ReachedBound(keys: set<NamespaceType>, types: seq<NamespaceType>)
    ensures Reached(keys, types) <= |types|
  {
    if types != [] && types[0] in keys { ReachedBound(keys, types[1..]); }
  }

  function VisitsBy(table: Table, shares: seq<ShareSpec>, id: string, ns: NamespaceType): nat {
    if shares == [] || shares[0].from != id || id !in table then 0
    else
      var types := ShareList(shares);
      ReachedBound(table[id].Keys, types);
      Occurrences(types[..Reached(table[id].Keys, types)], ns)
  }

  // Visits to (id, ns) since it was last registered.
  function Visits(history: seq<Event>, id: string, ns: NamespaceType): nat {
    if history == [] then 0
    else
      var past := history[..|history| - 1];
      match history[|history| - 1]
      case Registered(r, fds) => if r == id && ns in fds then 0 else Visits(past, id, ns)
      case Shared(shares) => Visits(past, id, ns) + VisitsBy(Replay(past), shares, id, ns)
      case Reaped(_) => Visits(past, id, ns)
  }

  // Which event registered the handle now held for (id, ns).
  function RegisteredAt(history: seq<Event>, id: string, ns: NamespaceType): int {
    if history == [] then -1
    else
      var n := |history| - 1;
      match history[n]
      case Registered(r, fds) => if r == id && ns in fds then n else RegisteredAt(history[..n], id, ns)
      case _ => RegisteredAt(history[..n], id, ns)
  }

  predicate Holds(table: Table, id: string, ns: NamespaceType) {
    id in table && ns in table[id]
  }

  lemma {:induction false} VisitCounts(owned: Owned, types: seq<NamespaceType>, ns: NamespaceType)
    requires ns in owned
    ensures Visit(owned, types).Keys == owned.Keys
    ensures Reached(owned.Keys, types) <= |types|
    ensures Visit(owned, types)[ns]
         == owned[ns].(refs := owned[ns].refs + Occurrences(types[..Reached(owned.Keys, types)], ns))
    decreases |types|
  {
    if types == [] || types[0] !in owned {
    } else {
      var t := types[0];
      var next := owned[t := owned[t].(refs := owned[t].refs + 1)];
      assert next.Keys == owned.Keys;
      VisitCounts(next, types[1..], ns);
      var reached := Reached(owned.Keys, types);
      assert types[..reached][1..] == types[1..][..reached - 1];
    }
  }

  // Main result: after any history, a held handle counts one for itself and one per visit.
  lemma {:induction false} RefsCountVisits(history: seq<Event>, id: string, ns: NamespaceType)
    requires Holds(Replay(history), id, ns)
    ensures Replay(history)[id][ns].refs == 1 + Visits(history, id, ns)
  {
    var past, last := history[..|history| - 1], history[|history| - 1];
    var before := Replay(past);
    match last {
      case Registered(r, fds) =>
        if !(r == id && ns in fds) { RefsCountVisits(past, id, ns); }
      case Reaped(_) =>
        RefsCountVisits(past, id, ns);
      case Shared(shares) =>
        if shares != [] && shares[0].from == id && id in before {
          if ns !in before[id] {
            VisitKeepsKeys(before[id], ShareList(shares));
          } else {
            VisitCounts(before[id], ShareList(shares), ns);
            RefsCountVisits(past, id, ns);
          }
        } else {
          RefsCountVisits(past, id, ns);
        }
    }
  }

  lemma {:induction false} VisitKeepsKeys(owned: Owned, types: seq<NamespaceType>)
    ensures Visit(owned, types).Keys == owned.Keys
    decreases |types|
  {
    if types != [] && types[0] in owned {
      var t := types[0];
      var next := owned[t := owned[t].(refs := owned[t].refs + 1)];
      assert next.Keys == owned.Keys;
      VisitKeepsKeys(next, types[1..]);
    }
  }

  // The reaper closes a handle exactly when no share loop ever visited it.
  lemma ReaperClosesUnvisited(history: seq<Event>, id: string, ns: NamespaceType)
    ensures ns in Closed(OwnedOf(Replay(history), id))
       <==> Holds(Replay(history), id, ns) && Visits(history, id, ns) == 0
  {
    if Holds(Replay(history), id, ns) {
      RefsCountVisits(history, id, ns);
    }
  }

  lemma {:induction false} HeldIsRegistered(history: seq<Event>, id: string, ns: NamespaceType)
    requires Holds(Replay(history), id, ns)
    ensures 0 <= RegisteredAt(history, id, ns) < |history|
    ensures forall i :: RegisteredAt(history, id, ns) < i < |history| ==> history[i] != Reaped(id)
  {
    var n := |history| - 1;
    var past, last := history[..n], history[n];
    match last {
      case Registered(r, fds) =>
        if !(r == id && ns in fds) { HeldIsRegistered(past, id, ns); }
      case Reaped(_) =>
        HeldIsRegistered(past, id, ns);
      case Shared(shares) =>
        if shares != [] && shares[0].from == id && id in Replay(past) {
          VisitKeepsKeys(Replay(past)[id], ShareList(shares));
        }
        HeldIsRegistered(past, id, ns);
    }
    forall i | RegisteredAt(history, id, ns) < i < |history| ensures history[i] != Reaped(id) {
      if i < n { assert past[i] == history[i]; }
    }
  }

  // At most one close per registration: two reaps that both find (id, ns) held find
  // handles of different registrations.
  lemma ClosedAtMostOnce(history: seq<Event>, i: nat, j: nat, id: string, ns: NamespaceType)
    requires i < j < |history| && history[i] == Reaped(id) && history[j] == Reaped(id)
    requires ns in Closed(OwnedOf(Replay(history[..i]), id))
    requires ns in Closed(OwnedOf(Replay(history[..j]), id))
    ensures RegisteredAt(history[..i], id, ns) < i < RegisteredAt(history[..j], id, ns)
  {
    HeldIsRegistered(history[..i], id, ns);
    HeldIsRegistered(history[..j], id, ns);
    RegisteredAtIsRegistration(history[..j], id, ns);
    assert history[..j][i] == history[i];
  }

  lemma {:induction false} RegisteredAtIsRegistration(history: seq<Event>, id: string, ns: NamespaceType)
    requires 0 <= RegisteredAt(history, id, ns)
    ensures RegisteredAt(history, id, ns) < |history|
    ensures history[RegisteredAt(history, id, ns)].Registered?
  {
    var n := |history| - 1;
    var registersHere := match history[n]
      case Registered(r, fds) => r == id && ns in fds
      case _ => false;
    if !registersHere {
      RegisteredAtIsRegistration(history[..n], id, ns);
      assert history[..n][RegisteredAt(history, id, ns)] == history[RegisteredAt(history, id, ns)];
    }
  }
}
