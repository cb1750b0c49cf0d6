/** Host and container addresses over whole runs. The pool identifies networks by their
    range alone, and takes the addresses of a snapshot as they are. */
module Addresses {
  import opened Common
  import opened Subnets
  import opened Ownership

  /** The addresses are those the pool makes for the range. */
  predicate Genuine(n: Network) {
    n == NewNetwork(n.ipNet)
  }

  ghost predicate AllGenuine(l: Ledger) {
    (forall n :: n in l.stock.nets ==> Genuine(n)) && forall h :: h in l.live ==> Genuine(l.live[h].net)
  }

  /** A restore of a snapshot with other addresses that reaches the port loop, and whose
      network does not then go lost with a failing replay. */
  ghost predicate BringsForeign(c: Config, l: Ledger, op: Op)
    requires c.cidr.ones <= 32
  {
    && op.Restore? && !Genuine(op.saved.net) && Reaches(l.stock, op.saved)
    && (Accepts(l.stock, op.saved) ==> Build(Claim(c, l.stock, op.saved).0, op.saved, op.replay).1.Some?)
  }

  lemma RestoreKeepsGenuineIff(c: Config, l: Ledger, op: Op)
    requires ValidConfig(c) && OwnInv(c, l) && AllGenuine(l) && op.Restore?
    ensures AllGenuine(Apply(c, l, op)) <==> !BringsForeign(c, l, op)
  {
    var k, h := l.stock, op.saved;
    var l' := Apply(c, l, op);
    if Reaches(k, h) {
      WithoutKeyRest(k.nets, h.net.ipNet);
      if Accepts(k, h) {
        if Build(Claim(c, k, h).0, h, op.replay).1.Some? {
          assert l'.live[op.handle].net == h.net;
        }
      } else {
        Pools(c);
        assert h.net.ipNet in Nets(c);
        ReleasePortsKeepsRest(c, ReleaseNet(c, ReleaseUid(c, TakenUpTo(k, h), h.uid), h.net), h.ports);
        assert l'.stock.nets == WithoutKey(k.nets, h.net.ipNet) + [h.net];
        assert h.net in l'.stock.nets;
      }
    }
  }

  lemma CreateKeepsGenuine(c: Config, l: Ledger, handle: string, o: CreateOutcome, starts: bool)
    requires c.cidr.ones <= 32 && AllGenuine(l)
    ensures AllGenuine(Apply(c, l, Create(handle, o, starts)))
  {
    if l.stock.nets != [] { assert l.stock.nets[0] in l.stock.nets; }
  }

  lemma OtherKeepsGenuine(c: Config, l: Ledger, op: Op)
    requires c.cidr.ones <= 32 && AllGenuine(l) && !op.Restore?
    ensures AllGenuine(Apply(c, l, op))
  {
    match op
    case Create(handle, o, starts) => CreateKeepsGenuine(c, l, handle, o, starts);
    case Destroy(handle, _) =>
      if handle in l.live { ReleasePortsKeepsRest(c, l.stock, l.live[handle].ports); }
    case NetIn(_, _) =>
  }

  /** All addresses are genuine now and after every step. */
  ghost predicate StaysGenuine(c: Config, l: Ledger, ops: seq<Op>)
    requires c.cidr.ones <= 32
    decreases |ops|
  {
    AllGenuine(l) && (ops == [] || StaysGenuine(c, Apply(c, l, ops[0]), ops[1..]))
  }

  ghost predicate NoForeign(c: Config, l: Ledger, ops: seq<Op>)
    requires c.cidr.ones <= 32
    decreases |ops|
  {
    ops == [] || (!BringsForeign(c, l, ops[0]) && NoForeign(c, Apply(c, l, ops[0]), ops[1..]))
  }

  lemma {:induction false} GenuineFrom(c: Config, l: Ledger, ops: seq<Op>)
    requires ValidConfig(c) && OwnInv(c, l) && AllGenuine(l)
    ensures StaysGenuine(c, l, ops) <==> NoForeign(c, l, ops)
    ensures StaysGenuine(c, l, ops) ==> AllGenuine(Run(c, l, ops))
    decreases |ops|
  {
    if ops != [] {
      ApplyKeeps(c, l, ops[0]);
      if ops[0].Restore? {
        RestoreKeepsGenuineIff(c, l, ops[0]);
      } else {
        OtherKeepsGenuine(c, l, ops[0]);
      }
      if AllGenuine(Apply(c, l, ops[0])) { GenuineFrom(c, Apply(c, l, ops[0]), ops[1..]); }
    }
  }

  lemma StartsGenuine(c: Config)
    requires ValidConfig(c)
    ensures AllGenuine(InitialLedger(c))
  {
    forall n | n in Blocks(c.cidr) ensures Genuine(n) {
      var k :| 0 <= k < |Blocks(c.cidr)| && Blocks(c.cidr)[k] == n;
      BlocksAreNew(c.cidr, k);
    }
  }

  /** Over every run, the free networks and those of live containers have the addresses
      made for their ranges, at every step, exactly when no restore brings in others. */
  lemma AddressesGenuineIff(c: Config, ops: seq<Op>)
    requires ValidConfig(c)
    ensures StaysGenuine(c, InitialLedger(c), ops) <==> NoForeign(c, InitialLedger(c), ops)
  {
    StartBalanced(c);
    StartsGenuine(c);
    GenuineFrom(c, InitialLedger(c), ops);
  }

  /** Genuine networks of two pooled ranges share no address. */
  lemma GenuineApart(c: Config, a: Network, b: Network, host: bool, host': bool)
    requires ValidConfig(c) && Genuine(a) && Genuine(b) && a.ipNet != b.ipNet
    requires a.ipNet in Nets(c) && b.ipNet in Nets(c)
    ensures AddressOf(a, host) != AddressOf(b, host')
  {
    var i :| 0 <= i < |NetKeys(c)| && NetKeys(c)[i] == a.ipNet;
    var j :| 0 <= j < |NetKeys(c)| && NetKeys(c)[j] == b.ipNet;
    BlocksAreNew(c.cidr, i);
    BlocksAreNew(c.cidr, j);
    assert Blocks(c.cidr)[i] == a && Blocks(c.cidr)[j] == b && i != j;
    if c.cidr.ones <= 30 {
      PoolAddressesDistinct(c.cidr, i, j, host, host');
    }
  }

  /** Over every run without such a restore, no two live containers share a host or a
      container address. */
  lemma AddressesNeverShared(c: Config, ops: seq<Op>, g: string, h: string, host: bool, host': bool)
    requires ValidConfig(c) && NoForeign(c, InitialLedger(c), ops)
    requires var live := Run(c, InitialLedger(c), ops).live; g in live && h in live && g != h
    ensures var live := Run(c, InitialLedger(c), ops).live;
            AddressOf(live[g].net, host) != AddressOf(live[h].net, host')
  {
    var l := Run(c, InitialLedger(c), ops);
    StartBalanced(c);
    StartsGenuine(c);
    GenuineFrom(c, InitialLedger(c), ops);
    ResourcesConserved(c, ops);
    assert g in NetsOf(l.live) && h in NetsOf(l.live);
    GenuineApart(c, l.live[g].net, l.live[h].net, host, host');
  }

  // ---- A run in which two created containers share their addresses --------------------------

  /** The network of one range with the addresses of another. */
  function Crossed(a: Network, b: Network): Network {
    Network(a.ipNet, b.hostIP, b.containerIP)
  }

  /** Two networks and two uids, and nobody there yet. */
  ghost predicate TwoOfEach(l: Ledger) {
    l.live == map[] && |l.stock.uids| == 2 && |l.stock.nets| == 2
  }

  lemma RefusedCrossed(c: Config, l: Ledger, other: string, p: nat, r: Replay)
    requires ValidConfig(c) && OwnInv(c, l) && TwoOfEach(l) && p !in l.stock.ports
    ensures var k := l.stock;
            var l' := Apply(c, l, Restore(other, Holding(k.uids[0], Crossed(k.nets[0], k.nets[1]), [p]), r));
            && l'.live == map[] && l'.stock.uids == [k.uids[1], k.uids[0]]
            && l'.stock.nets == [k.nets[1], Crossed(k.nets[0], k.nets[1])]
  {
    var k := l.stock;
    var n := Crossed(k.nets[0], k.nets[1]);
    var h := Holding(k.uids[0], n, [p]);
    Pools(c);
    assert k.uids[0] in Uids(c) && Keys(k.nets)[0] in Nets(c);
    assert Without(k.uids, k.uids[0]) == [k.uids[1]] && WithoutKey(k.nets, n.ipNet) == [k.nets[1]];
    assert !Accepts(k, h);
    ReleasePortsKeepsRest(c, ReleaseNet(c, ReleaseUid(c, TakenUpTo(k, h), h.uid), n), h.ports);
  }

  lemma TwoCreates(c: Config, l: Ledger, g: string, h: string)
    requires c.cidr.ones <= 32 && TwoOfEach(l) && g != h
    ensures var l' := Apply(c, Apply(c, l, Create(g, Created, true)), Create(h, Created, true));
            && g in l'.live && h in l'.live
            && l'.live[g].net == l.stock.nets[0] && l'.live[h].net == l.stock.nets[1]
  {
    var l1 := Apply(c, l, Create(g, Created, true));
    assert l1.stock.uids == l.stock.uids[1..] && l1.stock.nets == l.stock.nets[1..];
  }

  /** After a snapshot with the addresses of another range was refused, even created containers can share
      their addresses. */
  lemma RefusedSnapshotSharesAddresses(c: Config, l: Ledger, other: string, p: nat, r: Replay, g: string, h: string)
    requires ValidConfig(c) && OwnInv(c, l) && TwoOfEach(l) && p !in l.stock.ports && g != h
    ensures var k := l.stock;
            var restore := Restore(other, Holding(k.uids[0], Crossed(k.nets[0], k.nets[1]), [p]), r);
            var l' := Run(c, l, [restore, Create(g, Created, true), Create(h, Created, true)]);
            && g in l'.live && h in l'.live && l'.live[g].net.ipNet != l'.live[h].net.ipNet
            && l'.live[g].net.hostIP == l'.live[h].net.hostIP
            && l'.live[g].net.containerIP == l'.live[h].net.containerIP
  {
    var k := l.stock;
    var restore := Restore(other, Holding(k.uids[0], Crossed(k.nets[0], k.nets[1]), [p]), r);
    RefusedCrossed(c, l, other, p, r);
    TwoCreates(c, Apply(c, l, restore), g, h);
    RunThree(c, l, restore, Create(g, Created, true), Create(h, Created, true));
    assert Keys(k.nets)[0] != Keys(k.nets)[1];
  }

  lemma RunThree(c: Config, l: Ledger, a: Op, b: Op, d: Op)
    requires c.cidr.ones <= 32
    ensures Run(c, l, [a, b, d]) == Apply(c, Apply(c, Apply(c, l, a), b), d)
  {
    assert [a, b, d][1..] == [b, d] && [b, d][1..] == [d] && [d][1..] == [];
    var l2 := Apply(c, Apply(c, l, a), b);
    assert Run(c, l2, [d]) == Apply(c, l2, d);
    assert Run(c, Apply(c, l, a), [b, d]) == Run(c, l2, [d]);
  }
}
