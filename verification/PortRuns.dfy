/** Ports over whole runs: daemon start-up from snapshots, serving, and refused snapshots. */
module PortRuns {
  import opened Common
  import opened Subnets
  import opened Ownership

  // ---- Rolling back a refused snapshot ------------------------------------------------

  /** What every run keeps of the free list, shared ports or not. */
  ghost predicate FreePortsOk(c: Config, k: Stock) {
    Distinct(k.ports) && forall p :: p in k.ports ==> InRange(c.portStart, c.portSize, p)
  }

  lemma ClaimKeepsFreePorts(c: Config, k: Stock, h: Holding)
    requires c.cidr.ones <= 32 && FreePortsOk(c, k)
    ensures FreePortsOk(c, Claim(c, k, h).0)
  {
    RemovePortsTakes(k.ports, h.ports);
    ReleasePortsAdds(c, ReleaseNet(c, ReleaseUid(c, TakenUpTo(k, h), h.uid), h.net), h.ports);
  }

  lemma BuildKeepsFreePorts(c: Config, k: Stock, h: Holding, r: Replay)
    requires FreePortsOk(c, k)
    ensures FreePortsOk(c, Build(k, h, r).0)
  {
    TakePrefix(k.ports, if r.acquired <= |k.ports| then r.acquired else |k.ports|);
  }

  lemma ApplyKeepsFreePorts(c: Config, l: Ledger, op: Op)
    requires c.cidr.ones <= 32 && FreePortsOk(c, l.stock)
    ensures FreePortsOk(c, Apply(c, l, op).stock)
  {
    match op
    case Create(_, _, _) =>
    case Destroy(handle, ok) =>
      if handle in l.live && ok { ReleasePortsAdds(c, l.stock, l.live[handle].ports); }
    case Restore(_, h, r) =>
      ClaimKeepsFreePorts(c, l.stock, h);
      BuildKeepsFreePorts(c, Claim(c, l.stock, h).0, h, r);
    case NetIn(_, _) =>
      if l.stock.ports != [] { TakePrefix(l.stock.ports, 1); }
  }

  lemma {:induction false} RunKeepsFreePorts(c: Config, l: Ledger, ops: seq<Op>)
    requires c.cidr.ones <= 32 && FreePortsOk(c, l.stock)
    ensures FreePortsOk(c, Run(c, l, ops).stock)
    decreases |ops|
  {
    if ops != [] {
      ApplyKeepsFreePorts(c, l, ops[0]);
      RunKeepsFreePorts(c, Apply(c, l, ops[0]), ops[1..]);
    }
  }

  /** The restore loses nothing and enters nothing, and leaves the uids and the ranges of
      the networks with the same elements. The networks with their addresses are the same
      exactly when the snapshot was refused before the port loop or its network is the
      pooled one; the ports, exactly when it was refused before the port loop or lists no
      in-range port in use. */
  ghost predicate RollsBack(c: Config, l: Ledger, handle: string, h: Holding, r: Replay)
    requires c.cidr.ones <= 32
  {
    var k, l' := l.stock, Apply(c, l, Restore(handle, h, r));
    && l'.live == l.live
    && multiset(l'.stock.uids) == multiset(k.uids) && multiset(Keys(l'.stock.nets)) == multiset(Keys(k.nets))
    && l'.stock.lostUids == k.lostUids && l'.stock.lostNets == k.lostNets && l'.stock.lostPorts == k.lostPorts
    && (multiset(l'.stock.nets) == multiset(k.nets) <==> !Reaches(k, h) || h.net in k.nets)
    && (multiset(l'.stock.ports) == multiset(k.ports) <==> !Reaches(k, h) || PortsFree(c, k, h))
  }

  lemma SwappedOne<T>(s: seq<T>, i: nat, x: T)
    requires i < |s|
    ensures multiset(s[..i] + s[i + 1..] + [x]) == multiset(s) <==> x == s[i]
  {
    var rest := s[..i] + s[i + 1..];
    assert s == s[..i] + [s[i]] + s[i + 1..];
    assert multiset(s) == multiset(rest) + multiset{s[i]};
    if x != s[i] {
      assert multiset(rest + [x])[x] == multiset(rest)[x] + 1;
      assert multiset(s)[x] == multiset(rest)[x];
    }
  }

  lemma FirstOfRange(ns: seq<Network>, key: IPNet) returns (i: nat)
    requires Distinct(Keys(ns)) && key in Keys(ns)
    ensures i < |ns| && ns[i].ipNet == key && WithoutKey(ns, key) == ns[..i] + ns[i + 1..]
    ensures forall n :: n in ns && n.ipNet == key ==> n == ns[i]
  {
    i :| 0 <= i < |ns| && Keys(ns)[i] == key;
    forall j | 0 <= j < |ns| && ns[j].ipNet == key ensures j == i { assert Keys(ns)[j] == Keys(ns)[i]; }
    WithoutKeyAt(ns, key, i);
  }

  /** Taking a network out by its range and putting back another of that range. */
  lemma SwappedNetwork(ns: seq<Network>, n: Network)
    requires Distinct(Keys(ns)) && n.ipNet in Keys(ns)
    ensures multiset(WithoutKey(ns, n.ipNet) + [n]) == multiset(ns) <==> n in ns
    ensures multiset(Keys(WithoutKey(ns, n.ipNet) + [n])) == multiset(Keys(ns))
  {
    var i := FirstOfRange(ns, n.ipNet);
    SwappedOne(ns, i, n);
    KeysSnoc(WithoutKey(ns, n.ipNet), n);
    KeysWithout(ns, n.ipNet);
    WithoutDistinct(Keys(ns), n.ipNet);
    SameElements(Keys(ns), Without(Keys(ns), n.ipNet) + [n.ipNet]);
  }

  /** What the error return of the port loop leaves. */
  lemma RefusedInLoop(c: Config, k: Stock, h: Holding)
    requires c.cidr.ones <= 32 && Reaches(k, h) && !Accepts(k, h)
    requires InRange(c.uidStart, c.uidSize, h.uid) && Contains(c.cidr, h.net.ipNet.ip)
    ensures var k' := Claim(c, k, h).0;
            k' == k.(uids := Without(k.uids, h.uid) + [h.uid],
                     nets := WithoutKey(k.nets, h.net.ipNet) + [h.net], ports := k'.ports)
  {
    ReleasePortsKeepsRest(c, ReleaseNet(c, ReleaseUid(c, TakenUpTo(k, h), h.uid), h.net), h.ports);
  }

  lemma RefusedInLoopRollsBack(c: Config, l: Ledger, handle: string, h: Holding, r: Replay)
    requires ValidConfig(c) && OwnInv(c, l) && FreePortsOk(c, l.stock) && Reaches(l.stock, h) && !Accepts(l.stock, h)
    ensures RollsBack(c, l, handle, h, r)
  {
    Pools(c);
    var k := l.stock;
    assert h.uid in Uids(c) && h.net.ipNet in Nets(c);
    RefusedInLoop(c, k, h);
    WithoutDistinct(k.uids, h.uid);
    SameElements(k.uids, Without(k.uids, h.uid) + [h.uid]);
    SwappedNetwork(k.nets, h.net);
    RolledBackPorts(c, l, handle, h, r);
    SameElements(k.ports, Apply(c, l, Restore(handle, h, r)).stock.ports);
  }

  lemma RefusalRollsBack(c: Config, l: Ledger, handle: string, h: Holding, r: Replay)
    requires ValidConfig(c) && OwnInv(c, l) && FreePortsOk(c, l.stock) && !Accepts(l.stock, h)
    ensures RollsBack(c, l, handle, h, r)
  {
    if Reaches(l.stock, h) {
      RefusedInLoopRollsBack(c, l, handle, h, r);
    } else if h.uid in l.stock.uids {
      Pools(c);
      assert h.uid in Uids(c);
      WithoutDistinct(l.stock.uids, h.uid);
      SameElements(l.stock.uids, Without(l.stock.uids, h.uid) + [h.uid]);
    }
  }

  /** After any run at all, a snapshot that is refused before its container is built is
      rolled back, to that exact extent. */
  lemma EveryRefusalRollsBack(c: Config, ops: seq<Op>, handle: string, h: Holding, r: Replay)
    requires ValidConfig(c) && !Accepts(Run(c, InitialLedger(c), ops).stock, h)
    ensures RollsBack(c, Run(c, InitialLedger(c), ops), handle, h, r)
  {
    Pools(c);
    StartBalanced(c);
    RunKeeps(c, InitialLedger(c), ops);
    RunKeepsFreePorts(c, InitialLedger(c), ops);
    RefusalRollsBack(c, Run(c, InitialLedger(c), ops), handle, h, r);
  }

  // ---- Start-up -------------------------------------------------------------------------

  /** Restores of snapshots with pairwise disjoint port lists. */
  ghost predicate IsStartUp(ops: seq<Op>) {
    && (forall i :: 0 <= i < |ops| ==> ops[i].Restore?)
    && (forall i, j, p :: 0 <= i < j < |ops| && p in ops[i].saved.ports ==> p !in ops[j].saved.ports)
  }

  /** The ports the replay of an accepted snapshot takes: the first ones that are free
      once the snapshot has its own. */
  ghost function Took(c: Config, l: Ledger, op: Op): set<nat>
    requires c.cidr.ones <= 32 && op.Restore?
  {
    var (k, ok) := Claim(c, l.stock, op.saved);
    var n := if op.replay.acquired <= |k.ports| then op.replay.acquired else |k.ports|;
    if ok then set p | p in k.ports[..n] else {}
  }

  /** The snapshot gets as far as the port loop and lists a port an earlier replay took. */
  ghost predicate Clashes(k: Stock, h: Holding, took: set<nat>) {
    Reaches(k, h) && exists p :: p in h.ports && p in took
  }

  ghost predicate NeverClashes(c: Config, l: Ledger, ops: seq<Op>, took: set<nat>)
    requires c.cidr.ones <= 32 && IsStartUp(ops)
    decreases |ops|
  {
    ops == [] ||
    (&& !Clashes(l.stock, ops[0].saved, took)
     && NeverClashes(c, Apply(c, l, ops[0]), ops[1..], took + Took(c, l, ops[0])))
  }

  /** The port invariant holds now and after every step. */
  ghost predicate PortsStay(c: Config, l: Ledger, ops: seq<Op>)
    requires c.cidr.ones <= 32
    decreases |ops|
  {
    PortInv(c, l) && (ops == [] || PortsStay(c, Apply(c, l, ops[0]), ops[1..]))
  }

  /** Where the ports are during start-up: free, listed by a snapshot, or taken by a replay. */
  ghost predicate Accounted(c: Config, k: Stock, listed: set<nat>, took: set<nat>) {
    && took <= Ports(c) && (forall p :: p in took ==> p !in k.ports)
    && forall p :: p in Ports(c) ==> p in k.ports || p in listed || p in took
  }

  lemma RestoreOnlyTakes(c: Config, l: Ledger, handle: string, h: Holding, r: Replay)
    requires ValidConfig(c) && PortInv(c, l)
    requires !Reaches(l.stock, h) || PortsFree(c, l.stock, h)
    ensures forall p :: p in Apply(c, l, Restore(handle, h, r)).stock.ports ==> p in l.stock.ports
  {
    Pools(c);
    RemovePortsTakes(l.stock.ports, h.ports);
    if Reaches(l.stock, h) && !Accepts(l.stock, h) {
      RolledBackPorts(c, l, handle, h, r);
    }
  }

  lemma TookRest(c: Config, l: Ledger, op: Op)
    requires ValidConfig(c) && PortInv(c, l) && op.Restore?
    ensures var free' := Apply(c, l, op).stock.ports;
            && (forall p :: p in Took(c, l, op) ==> p in l.stock.ports && p !in free')
            && forall p :: p in l.stock.ports ==> p in free' || p in op.saved.ports || p in Took(c, l, op)
  {
    Pools(c);
    var k := l.stock;
    RemovePortsTakes(k.ports, op.saved.ports);
    if Accepts(k, op.saved) {
      var left := RemovePorts(k.ports, op.saved.ports).0;
      TakePrefix(left, if op.replay.acquired <= |left| then op.replay.acquired else |left|);
    } else if Reaches(k, op.saved) {
      RolledBackPorts(c, l, op.handle, op.saved, op.replay);
    }
  }

  lemma RestoreAccounts(c: Config, l: Ledger, op: Op, listed: set<nat>, took: set<nat>)
    requires ValidConfig(c) && PortInv(c, l) && Accounted(c, l.stock, listed, took)
    requires op.Restore? && (forall p :: p in op.saved.ports ==> p !in listed) && !Clashes(l.stock, op.saved, took)
    ensures var l' := Apply(c, l, op);
            PortInv(c, l') && Accounted(c, l'.stock, listed + (set p | p in op.saved.ports), took + Took(c, l, op))
  {
    Pools(c);
    var h := op.saved;
    if Reaches(l.stock, h) {
      forall p | p in h.ports && InRange(c.portStart, c.portSize, p) ensures p in l.stock.ports {
        assert p in Ports(c) && p !in took;
      }
      assert PortsFree(c, l.stock, h);
    }
    RestoreKeepsPortsIff(c, l, op.handle, h, op.replay);
    RestoreOnlyTakes(c, l, op.handle, h, op.replay);
    TookRest(c, l, op);
  }

  lemma ClashBreaks(c: Config, l: Ledger, op: Op, took: set<nat>)
    requires ValidConfig(c) && PortInv(c, l) && op.Restore? && Clashes(l.stock, op.saved, took)
    requires took <= Ports(c) && forall p :: p in took ==> p !in l.stock.ports
    ensures !PortInv(c, Apply(c, l, op))
  {
    Pools(c);
    var p :| p in op.saved.ports && p in took;
    assert p in Ports(c);
    RestoreKeepsPortsIff(c, l, op.handle, op.saved, op.replay);
  }

  lemma {:induction false} StartUpFrom(c: Config, l: Ledger, ops: seq<Op>, listed: set<nat>, took: set<nat>)
    requires ValidConfig(c) && PortInv(c, l) && IsStartUp(ops) && Accounted(c, l.stock, listed, took)
    requires forall i, p :: 0 <= i < |ops| && p in ops[i].saved.ports ==> p !in listed
    ensures PortsStay(c, l, ops) <==> NeverClashes(c, l, ops, took)
    decreases |ops|
  {
    if ops != [] {
      var op := ops[0];
      var l', listed' := Apply(c, l, op), listed + set p | p in op.saved.ports;
      if Clashes(l.stock, op.saved, took) {
        ClashBreaks(c, l, op, took);
      } else {
        RestoreAccounts(c, l, op, listed, took);
        forall i, p | 0 <= i < |ops[1..]| && p in ops[1..][i].saved.ports ensures p !in listed' {
          assert ops[1..][i] == ops[i + 1];
        }
        StartUpFrom(c, l', ops[1..], listed', took + Took(c, l, op));
      }
    }
  }

  /** During a start-up with disjoint port lists, ports stay in one place at every step
      exactly when no snapshot that reaches the port loop lists a port that the replay of
      an earlier one took. */
  lemma StartUpPortsIff(c: Config, ops: seq<Op>)
    requires ValidConfig(c) && IsStartUp(ops)
    ensures PortsStay(c, InitialLedger(c), ops) <==> NeverClashes(c, InitialLedger(c), ops, {})
  {
    StartBalanced(c);
    Pools(c);
    StartUpFrom(c, InitialLedger(c), ops, {}, {});
  }

  /** Snapshots whose recorded mappings all name their host port never clash. */
  lemma {:induction false} NamedMappingsNeverClash(c: Config, l: Ledger, ops: seq<Op>)
    requires c.cidr.ones <= 32 && FreePortsOk(c, l.stock) && IsStartUp(ops)
    requires forall i :: 0 <= i < |ops| ==> ops[i].replay.acquired == 0
    ensures NeverClashes(c, l, ops, {})
    decreases |ops|
  {
    if ops != [] {
      assert Took(c, l, ops[0]) == {};
      ApplyKeepsFreePorts(c, l, ops[0]);
      NamedMappingsNeverClash(c, Apply(c, l, ops[0]), ops[1..]);
      assert {} + Took(c, l, ops[0]) == {};
    }
  }

  // ---- Serving ----------------------------------------------------------------------------

  ghost predicate IsServing(op: Op) { !op.Restore? }

  lemma {:induction false} ServingKeepsPorts(c: Config, l: Ledger, ops: seq<Op>)
    requires ValidConfig(c) && OwnInv(c, l) && PortInv(c, l)
    requires forall i :: 0 <= i < |ops| ==> IsServing(ops[i])
    ensures PortsStay(c, l, ops)
    decreases |ops|
  {
    if ops != [] {
      ApplyKeeps(c, l, ops[0]);
      match ops[0] {
        case Create(handle, o, starts) => CreateKeeps(c, l, handle, o, starts);
        case Destroy(handle, ok) => if handle in l.live && ok { DestroyKeeps(c, l, handle); }
        case NetIn(handle, hostPort) => NetInKeepsPorts(c, l, handle, hostPort);
      }
      ServingKeepsPorts(c, Apply(c, l, ops[0]), ops[1..]);
    }
  }

  lemma {:induction false} PortsStaySplits(c: Config, l: Ledger, first: seq<Op>, second: seq<Op>)
    requires c.cidr.ones <= 32
    ensures PortsStay(c, l, first + second) <==> PortsStay(c, l, first) && PortsStay(c, Run(c, l, first), second)
    decreases |first|
  {
    if first == [] {
      assert first + second == second;
    } else {
      assert (first + second)[1..] == first[1..] + second;
      PortsStaySplits(c, Apply(c, l, first[0]), first[1..], second);
    }
  }

  lemma {:induction false} StaysToTheEnd(c: Config, l: Ledger, ops: seq<Op>)
    requires c.cidr.ones <= 32 && PortsStay(c, l, ops)
    ensures PortInv(c, Run(c, l, ops))
    decreases |ops|
  {
    if ops != [] { StaysToTheEnd(c, Apply(c, l, ops[0]), ops[1..]); }
  }

  /** For every run that first restores snapshots with disjoint ports and then serves any
      requests: a pooled port is in one place at a time, at every step, exactly when no
      snapshot clashes with an earlier replay. */
  lemma PortsNeverShared(c: Config, restores: seq<Op>, requests: seq<Op>)
    requires ValidConfig(c) && IsStartUp(restores)
    requires forall i :: 0 <= i < |requests| ==> IsServing(requests[i])
    ensures PortsStay(c, InitialLedger(c), restores + requests) <==> NeverClashes(c, InitialLedger(c), restores, {})
  {
    StartUpPortsIff(c, restores);
    PortsStaySplits(c, InitialLedger(c), restores, requests);
    if PortsStay(c, InitialLedger(c), restores) {
      StartBalanced(c);
      StaysToTheEnd(c, InitialLedger(c), restores);
      RunKeeps(c, InitialLedger(c), restores);
      ServingKeepsPorts(c, Run(c, InitialLedger(c), restores), requests);
    }
  }

  // ---- Two runs that share a port -----------------------------------------------------------

  /** A refused snapshot frees every in-range port it lists, held by another or not. */
  lemma RefusedSnapshotFreesHeldPort(c: Config, l: Ledger, owner: string, p: nat, other: string, h: Holding, r: Replay)
    requires ValidConfig(c) && PortInv(c, l)
    requires owner in l.live && p in l.live[owner].ports && p in h.ports
    requires Reaches(l.stock, h)
    ensures var l' := Apply(c, l, Restore(other, h, r));
            l'.live == l.live && p in l'.stock.ports && !PortInv(c, l')
  {
    Pools(c);
    assert p in PortsOf(l.live)[owner];
    RemovePortsTakes(l.stock.ports, h.ports);
    RolledBackPorts(c, l, other, h, r);
  }

  /** No container yet, and at least two uids, two networks and a port. */
  ghost predicate Roomy(l: Ledger) {
    l.live == map[] && |l.stock.uids| >= 2 && |l.stock.nets| >= 2 && |l.stock.ports| >= 1
  }

  lemma FirstCreate(c: Config, l: Ledger, handle: string)
    requires c.cidr.ones <= 32 && Roomy(l)
    ensures var k, l' := l.stock, Apply(c, l, Create(handle, Created, true));
            && l'.live == map[handle := Holding(k.uids[0], k.nets[0], [])]
            && l'.stock == k.(uids := k.uids[1..], nets := k.nets[1..])
  {
  }

  lemma MapsFirstPort(c: Config, l: Ledger, handle: string, h: Holding)
    requires c.cidr.ones <= 32 && l.live == map[handle := h] && h.ports == [] && l.stock.ports != []
    ensures var l' := Apply(c, l, NetIn(handle, 0));
            && l'.live == map[handle := h.(ports := [l.stock.ports[0]])]
            && l'.stock == l.stock.(ports := l.stock.ports[1..])
  {
    assert [] + [l.stock.ports[0]] == [l.stock.ports[0]];
  }

  lemma SecondIsFree(k: Stock, k': Stock, ports: seq<nat>)
    requires |k.uids| >= 2 && |k.nets| >= 2 && k'.uids == k.uids[1..] && k'.nets == k.nets[1..]
    ensures Reaches(k', Holding(k.uids[1], k.nets[1], ports))
  {
    assert k'.uids[0] == k.uids[1] && Keys(k'.nets)[0] == k.nets[1].ipNet;
  }

  lemma RunTwo(c: Config, l: Ledger, a: Op, b: Op)
    requires c.cidr.ones <= 32
    ensures Run(c, l, [a, b]) == Apply(c, Apply(c, l, a), b)
  {
    assert [a, b][1..] == [b] && [b][1..] == [];
    assert Run(c, Apply(c, l, a), [b]) == Apply(c, Apply(c, l, a), b);
  }

  /** So with two uids, two networks and a port free, as in any start with pools of that
      size, a run can leave a port both on the free list and with the container that
      holds it. */
  lemma RefusedSnapshotSharesPort(c: Config, l0: Ledger, handle: string, other: string, r: Replay)
    requires ValidConfig(c) && OwnInv(c, l0) && PortInv(c, l0) && Roomy(l0)
    ensures var k := l0.stock;
            var served := Run(c, l0, [Create(handle, Created, true), NetIn(handle, 0)]);
            var l := Apply(c, served, Restore(other, Holding(k.uids[1], k.nets[1], [k.ports[0]]), r));
            && handle in l.live && k.ports[0] in l.live[handle].ports
            && k.ports[0] in l.stock.ports && !PortInv(c, l)
  {
    var k := l0.stock;
    RunTwo(c, l0, Create(handle, Created, true), NetIn(handle, 0));
    var l1 := Apply(c, l0, Create(handle, Created, true));
    FirstCreate(c, l0, handle);
    CreateKeeps(c, l0, handle, Created, true);
    MapsFirstPort(c, l1, handle, Holding(k.uids[0], k.nets[0], []));
    NetInKeepsPorts(c, l1, handle, 0);
    var served := Apply(c, l1, NetIn(handle, 0));
    SecondIsFree(k, served.stock, [k.ports[0]]);
    RefusedSnapshotFreesHeldPort(c, served, handle, k.ports[0], other, Holding(k.uids[1], k.nets[1], [k.ports[0]]), r);
  }

  lemma FirstRestore(c: Config, l: Ledger, handle: string, ok: bool)
    requires c.cidr.ones <= 32 && Roomy(l)
    ensures var k := l.stock;
            var op := Restore(handle, Holding(k.uids[0], k.nets[0], []), Replay(1, ok));
            var k' := Apply(c, l, op).stock;
            && k'.uids == k.uids[1..] && k'.nets == k.nets[1..] && k'.ports == k.ports[1..]
            && Took(c, l, op) == {k.ports[0]}
  {
    var k := l.stock;
    assert Without(k.uids, k.uids[0]) == k.uids[1..];
    assert WithoutKey(k.nets, k.nets[0].ipNet) == k.nets[1..];
    assert Keys(k.nets)[0] == k.nets[0].ipNet;
    assert k.ports[..1] == [k.ports[0]];
  }

  lemma SecondClashes(c: Config, l: Ledger, first: Op, second: Op)
    requires c.cidr.ones <= 32 && first.Restore? && second.Restore? && IsStartUp([first, second])
    requires Clashes(Apply(c, l, first).stock, second.saved, Took(c, l, first))
    ensures !NeverClashes(c, l, [first, second], {})
  {
    assert [first, second][1..] == [second];
    assert {} + Took(c, l, first) == Took(c, l, first);
  }

  /** Disjoint port lists are not enough: the replay of a mapping of host port 0 can take
      a port that the next snapshot lists. */
  lemma ReplayTakesListedPort(c: Config, handle: string, other: string, ok: bool, r: Replay)
    requires ValidConfig(c) && Roomy(InitialLedger(c))
    ensures var k := InitialLedger(c).stock;
            var first := Restore(handle, Holding(k.uids[0], k.nets[0], []), Replay(1, ok));
            var second := Restore(other, Holding(k.uids[1], k.nets[1], [k.ports[0]]), r);
            IsStartUp([first, second]) && !PortsStay(c, InitialLedger(c), [first, second])
  {
    var l := InitialLedger(c);
    var k := l.stock;
    var first := Restore(handle, Holding(k.uids[0], k.nets[0], []), Replay(1, ok));
    var second := Restore(other, Holding(k.uids[1], k.nets[1], [k.ports[0]]), r);
    FirstRestore(c, l, handle, ok);
    SecondIsFree(k, Apply(c, l, first).stock, [k.ports[0]]);
    assert k.ports[0] in second.saved.ports;
    SecondClashes(c, l, first, second);
    StartUpPortsIff(c, [first, second]);
  }
}
