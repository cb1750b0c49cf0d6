/** Restarting the daemon: the snapshots of all live containers go back into full pools. */
module Restart {
  import opened Common
  import opened Subnets
  import opened Ownership
  import opened Containers

  /** Replaying the snapshot of a reachable container with succeeding commands takes no
      port and succeeds: what Restores below says of each. */
  lemma SnapshotReplays(c: Container, s: Snapshot, pool: seq<nat>, cmds: Commands)
    requires Reachable(c) && IsSnapshot(c, s) && AllSucceed(cmds)
    ensures var (c', pool', ok) := RestoreOf(Containers.NewContainer(s.who, s.ports), pool, s, cmds);
            ok && pool' == pool && c'.ports == s.ports
  {
    ReachableIsReplayable(c);
    RestoreRebuilds(c, s, pool, cmds);
  }

  /** The snapshots' mappings name their host ports and the replayed commands succeed. */
  function Restores(live: map<string, Holding>, hs: seq<string>): (ops: seq<Op>)
    requires forall h :: h in hs ==> h in live
  {
    seq(|hs|, i requires 0 <= i < |hs| => Restore(hs[i], live[hs[i]], Replay(0, true)))
  }

  /** m has some of l's containers, as they were, and nothing was lost on the way. */
  ghost predicate Partway(c: Config, l: Ledger, m: Ledger)
    requires c.cidr.ones <= 32
  {
    && OwnInv(c, m) && PortInv(c, m)
    && m.stock.lostUids == {} && m.stock.lostNets == {} && m.stock.lostPorts == {}
    && forall g :: g in m.live ==> g in l.live && m.live[g] == l.live[g]
  }

  lemma UidIsFree(c: Config, l: Ledger, m: Ledger, h: string)
    requires c.cidr.ones <= 32 && OwnInv(c, l) && Partway(c, l, m) && h in l.live && h !in m.live
    ensures l.live[h].uid in m.stock.uids
  {
    var u := l.live[h].uid;
    assert h in UidsOf(l.live) && u in UidsOf(l.live)[h];
    forall g | g in UidsOf(m.live) ensures u !in UidsOf(m.live)[g] {
      assert g in UidsOf(l.live) && UidsOf(m.live)[g] == UidsOf(l.live)[g];
    }
  }

  lemma NetIsFree(c: Config, l: Ledger, m: Ledger, h: string)
    requires c.cidr.ones <= 32 && OwnInv(c, l) && Partway(c, l, m) && h in l.live && h !in m.live
    ensures l.live[h].net.ipNet in Keys(m.stock.nets)
  {
    var n := l.live[h].net.ipNet;
    assert h in NetsOf(l.live) && n in NetsOf(l.live)[h];
    forall g | g in NetsOf(m.live) ensures n !in NetsOf(m.live)[g] {
      assert g in NetsOf(l.live) && NetsOf(m.live)[g] == NetsOf(l.live)[g];
    }
  }

  lemma PortsAreFree(c: Config, l: Ledger, m: Ledger, h: string)
    requires c.cidr.ones <= 32 && PortInv(c, l) && Partway(c, l, m) && h in l.live && h !in m.live
    ensures forall p :: p in l.live[h].ports ==> p in m.stock.ports
  {
    forall p | p in l.live[h].ports ensures p in m.stock.ports {
      assert h in PortsOf(l.live) && p in PortsOf(l.live)[h];
      forall g | g in PortsOf(m.live) ensures p !in PortsOf(m.live)[g] {
        assert g in PortsOf(l.live) && PortsOf(m.live)[g] == PortsOf(l.live)[g];
      }
    }
  }

  lemma RestoresOne(c: Config, l: Ledger, m: Ledger, h: string)
    requires ValidConfig(c) && OwnInv(c, l) && PortInv(c, l) && Partway(c, l, m) && h in l.live && h !in m.live
    ensures var m' := Apply(c, m, Restore(h, l.live[h], Replay(0, true)));
            Accepts(m.stock, l.live[h]) && Partway(c, l, m') && m'.live == m.live[h := l.live[h]]
  {
    UidIsFree(c, l, m, h);
    NetIsFree(c, l, m, h);
    PortsAreFree(c, l, m, h);
    RemovePortsTakes(m.stock.ports, l.live[h].ports);
    assert l.live[h].ports + [] == l.live[h].ports;
    RestoreKeeps(c, m, h, l.live[h], Replay(0, true));
    AcceptedRestoreKeepsPorts(c, m, h, l.live[h], Replay(0, true));
  }

  ghost predicate AllIn(hs: seq<string>, live: map<string, Holding>) {
    forall h :: h in hs ==> h in live
  }

  /** Where the restores of hs lead from m. */
  ghost function After(c: Config, l: Ledger, m: Ledger, hs: seq<string>): Ledger
    requires c.cidr.ones <= 32 && AllIn(hs, l.live)
  {
    Run(c, m, Restores(l.live, hs))
  }

  lemma AfterFirst(c: Config, l: Ledger, m: Ledger, hs: seq<string>)
    requires c.cidr.ones <= 32 && AllIn(hs, l.live) && hs != []
    ensures AllIn(hs[1..], l.live)
    ensures After(c, l, m, hs) == After(c, l, Apply(c, m, Restore(hs[0], l.live[hs[0]], Replay(0, true))), hs[1..])
  {
    assert Restores(l.live, hs)[1..] == Restores(l.live, hs[1..]);
  }

  ghost predicate Adds(live: map<string, Holding>, hs: seq<string>, live': map<string, Holding>) {
    forall h :: h in live' <==> h in live || h in hs
  }

  lemma AddsOne(live: map<string, Holding>, hs: seq<string>, x: Holding, live': map<string, Holding>)
    requires hs != [] && Adds(live[hs[0] := x], hs[1..], live')
    ensures Adds(live, hs, live')
  {
    assert hs == [hs[0]] + hs[1..];
  }

  ghost predicate NoneIn(hs: seq<string>, live: map<string, Holding>) {
    forall h :: h in hs ==> h !in live
  }

  lemma NoneLeftIn(hs: seq<string>, live: map<string, Holding>, x: Holding)
    requires hs != [] && Distinct(hs) && NoneIn(hs, live)
    ensures Distinct(hs[1..]) && NoneIn(hs[1..], live[hs[0] := x])
  {
    forall h | h in hs[1..] ensures h !in live[hs[0] := x] {
      var i :| 0 <= i < |hs[1..]| && hs[1..][i] == h;
      assert hs[i + 1] == h;
    }
  }

  lemma {:induction false} RestartFrom(c: Config, l: Ledger, m: Ledger, hs: seq<string>)
    requires ValidConfig(c) && OwnInv(c, l) && PortInv(c, l) && Partway(c, l, m)
    requires Distinct(hs) && AllIn(hs, l.live) && NoneIn(hs, m.live)
    ensures Partway(c, l, After(c, l, m, hs)) && Adds(m.live, hs, After(c, l, m, hs).live)
    decreases |hs|
  {
    if hs != [] {
      var m1 := Apply(c, m, Restore(hs[0], l.live[hs[0]], Replay(0, true)));
      RestoresOne(c, l, m, hs[0]);
      AfterFirst(c, l, m, hs);
      NoneLeftIn(hs, m.live, l.live[hs[0]]);
      RestartFrom(c, l, m1, hs[1..]);
      AddsOne(m.live, hs, l.live[hs[0]], After(c, l, m, hs).live);
    }
  }

  lemma RestoredAll(c: Config, l: Ledger, m: Ledger, hs: seq<string>)
    requires ValidConfig(c) && Partway(c, l, m) && Adds(map[], hs, m.live)
    requires AllIn(hs, l.live) && forall h :: h in l.live ==> h in hs
    ensures m.live == l.live
    ensures |m.stock.uids| + |l.live| == |Range(c.uidStart, c.uidSize)|
    ensures |m.stock.nets| + |l.live| == |NetKeys(c)|
  {
    assert m.live.Keys == l.live.Keys;
    UidsCount(c, m);
    NetsCount(c, m);
  }

  /** From any state a run can reach with its ports in order: restoring the snapshots of
      all its containers, in any order, into full pools brings back the same containers
      with the same uids, networks and ports, loses nothing, and leaves the rest free. */
  lemma RestartRestoresAll(c: Config, ops: seq<Op>, hs: seq<string>)
    requires ValidConfig(c) && PortInv(c, Run(c, InitialLedger(c), ops))
    requires Distinct(hs) && forall h :: h in hs <==> h in Run(c, InitialLedger(c), ops).live
    ensures var l := Run(c, InitialLedger(c), ops);
            var m := Run(c, InitialLedger(c), Restores(l.live, hs));
            && m.live == l.live && OwnInv(c, m) && PortInv(c, m)
            && m.stock.lostUids == {} && m.stock.lostNets == {} && m.stock.lostPorts == {}
            && |m.stock.uids| + |l.live| == |Range(c.uidStart, c.uidSize)|
            && |m.stock.nets| + |l.live| == |NetKeys(c)|
  {
    var l := Run(c, InitialLedger(c), ops);
    StartBalanced(c);
    RunKeeps(c, InitialLedger(c), ops);
    RestartFrom(c, l, InitialLedger(c), hs);
    RestoredAll(c, l, After(c, l, InitialLedger(c), hs), hs);
  }
}
