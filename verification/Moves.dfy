/** Where each operation moves uids, networks and ports: what leaves the free lists is what
    the container gets, and the other way round. */
module Moves {
  import opened Common
  import opened Subnets
  import opened Ownership

  /** What entering a container under this handle loses: what the one there held. */
  ghost function Displaced(l: Ledger, handle: string): set<Holding> {
    if handle in l.live then {l.live[handle]} else {}
  }

  ghost predicate Loses(k: Stock, k': Stock, gone: set<Holding>) {
    && k'.lostUids == k.lostUids + (set h | h in gone :: h.uid)
    && k'.lostNets == k.lostNets + (set h | h in gone :: h.net.ipNet)
    && k'.lostPorts == k.lostPorts + set h, p | h in gone && p in h.ports :: p
  }

  ghost predicate SameLost(k: Stock, k': Stock) {
    k'.lostUids == k.lostUids && k'.lostNets == k.lostNets && k'.lostPorts == k.lostPorts
  }

  lemma LoseIsLoses(k: Stock, h: Holding)
    ensures Loses(k, Lose(k, h), {h})
  {
  }

  /** The free list is what is left and what was taken. */
  lemma HeadTaken<T>(s: seq<T>)
    requires s != []
    ensures multiset(s) == multiset(s[1..]) + multiset{s[0]}
  {
    assert s == [s[0]] + s[1..];
  }

  /** A create that succeeds takes one uid and one network off the free lists and gives them,
      without ports, to the container under its handle; nothing else changes but that a
      container already there is lost. */
  lemma CreateGives(c: Config, l: Ledger, handle: string)
    requires c.cidr.ones <= 32 && l.stock.uids != [] && l.stock.nets != []
    ensures var k, l' := l.stock, Apply(c, l, Create(handle, Created, true));
            && handle in l'.live && l'.live[handle].ports == []
            && l'.live == l.live[handle := l'.live[handle]]
            && multiset(k.uids) == multiset(l'.stock.uids) + multiset{l'.live[handle].uid}
            && multiset(k.nets) == multiset(l'.stock.nets) + multiset{l'.live[handle].net}
            && l'.stock.ports == k.ports && Loses(k, l'.stock, Displaced(l, handle))
  {
    HeadTaken(l.stock.uids);
    HeadTaken(l.stock.nets);
    if handle in l.live { LoseIsLoses(l.stock, l.live[handle]); }
  }

  lemma DestroyStep(c: Config, l: Ledger, handle: string)
    requires ValidConfig(c) && OwnInv(c, l) && PortInv(c, l) && handle in l.live
    ensures var k, h, l' := l.stock, l.live[handle], Apply(c, l, Destroy(handle, true));
            l' == Ledger(k.(uids := k.uids + [h.uid], nets := k.nets + [h.net], ports := l'.stock.ports),
                         l.live - {handle})
            && multiset(l'.stock.ports) == multiset(k.ports) + multiset(h.ports)
  {
    Pools(c);
    var k, h := l.stock, l.live[handle];
    assert h.uid in UidsOf(l.live)[handle] && h.uid in Uids(c);
    assert h.net.ipNet in NetsOf(l.live)[handle] && h.net.ipNet in Nets(c);
    assert forall p :: p in h.ports ==> p in PortsOf(l.live)[handle] && p in Ports(c);
    ReleasePortsAdds(c, k, h.ports);
    DistinctConcat(k.ports, h.ports);
    SameElements(k.ports + h.ports, ReleasePorts(c, k, h.ports).ports);
  }

  /** A destroy that succeeds removes the handle and leaves every other container as it was;
      the free lists are the old ones and the container's uid, network and ports; nothing is
      lost. One that fails, or of an unknown handle, changes nothing. */
  lemma DestroyGivesBack(c: Config, l: Ledger, handle: string, ok: bool)
    requires ValidConfig(c) && OwnInv(c, l) && PortInv(c, l)
    ensures var k, l' := l.stock, Apply(c, l, Destroy(handle, ok));
            if handle in l.live && ok then
              && handle !in l'.live && (forall g :: g != handle ==> (g in l'.live <==> g in l.live))
              && (forall g :: g in l'.live ==> l'.live[g] == l.live[g])
              && multiset(l'.stock.uids) == multiset(k.uids) + multiset{l.live[handle].uid}
              && multiset(l'.stock.nets) == multiset(k.nets) + multiset{l.live[handle].net}
              && multiset(l'.stock.ports) == multiset(k.ports) + multiset(l.live[handle].ports)
              && SameLost(k, l'.stock)
            else l' == l
  {
    if handle in l.live && ok { DestroyStep(c, l, handle); }
  }

  lemma {:induction false} RemovedPortsRest(free: seq<nat>, ports: seq<nat>)
    requires RemovePorts(free, ports).1
    ensures multiset(free) == multiset(RemovePorts(free, ports).0) + multiset(ports)
    decreases |ports|
  {
    if ports != [] {
      var i :| 0 <= i < |free| && free[i] == ports[0];
      WithoutRest(free, ports[0]);
      RemovedPortsRest(Without(free, ports[0]), ports[1..]);
      assert ports == [ports[0]] + ports[1..];
    }
  }

  lemma {:induction false} WithoutRest<T>(s: seq<T>, x: T)
    requires x in s
    ensures multiset(s) == multiset(Without(s, x)) + multiset{x}
  {
    assert s == [s[0]] + s[1..];
    if s[0] != x { WithoutRest(s[1..], x); }
  }

  lemma PrefixTaken(s: seq<nat>, n: nat)
    requires n <= |s|
    ensures multiset(s) == multiset(s[n..]) + multiset(s[..n])
  {
    assert s == s[..n] + s[n..];
  }

  /** The ports of an accepted snapshot, and those its replay takes. */
  lemma PortsTaken(k: Stock, h: Holding, n: nat)
    requires Accepts(k, h) && n <= |RemovePorts(k.ports, h.ports).0|
    ensures var left := RemovePorts(k.ports, h.ports).0;
            multiset(k.ports) == multiset(left[n..]) + multiset(h.ports + left[..n])
  {
    var left := RemovePorts(k.ports, h.ports).0;
    RemovedPortsRest(k.ports, h.ports);
    PrefixTaken(left, n);
  }

  /** A snapshot that is accepted and replayed goes to its handle with its own uid, network
      and ports and those the replay took; the free lists are the old ones without these. */
  lemma RestoreGives(c: Config, l: Ledger, handle: string, h: Holding, acquired: nat)
    requires c.cidr.ones <= 32 && Accepts(l.stock, h)
    requires acquired <= |RemovePorts(l.stock.ports, h.ports).0|
    ensures var k, l' := l.stock, Apply(c, l, Restore(handle, h, Replay(acquired, true)));
            && handle in l'.live && l'.live == l.live[handle := l'.live[handle]]
            && l'.live[handle].uid == h.uid && l'.live[handle].net == h.net
            && h.ports <= l'.live[handle].ports && |l'.live[handle].ports| == |h.ports| + acquired
            && multiset(k.uids) == multiset(l'.stock.uids) + multiset{h.uid}
            && multiset(Keys(k.nets)) == multiset(Keys(l'.stock.nets)) + multiset{h.net.ipNet}
            && multiset(k.ports) == multiset(l'.stock.ports) + multiset(l'.live[handle].ports)
            && Loses(k, l'.stock, Displaced(l, handle))
  {
    var k := l.stock;
    WithoutRest(k.uids, h.uid);
    WithoutRest(Keys(k.nets), h.net.ipNet);
    KeysWithout(k.nets, h.net.ipNet);
    PortsTaken(k, h, acquired);
    if handle in l.live { LoseIsLoses(k, l.live[handle]); }
  }

  /** A mapping of host port 0 gives the container one free port; any other request, and one
      of an unknown container or with no port free, changes no holding. */
  lemma NetInGives(c: Config, l: Ledger, handle: string, hostPort: nat)
    requires c.cidr.ones <= 32
    ensures var k, l' := l.stock, Apply(c, l, NetIn(handle, hostPort));
            if handle in l.live && hostPort == 0 && k.ports != [] then
              && l'.live == l.live[handle := l.live[handle].(ports := l.live[handle].ports + [k.ports[0]])]
              && multiset(k.ports) == multiset(l'.stock.ports) + multiset{k.ports[0]}
              && l'.stock == k.(ports := l'.stock.ports)
            else l' == l
  {
    if l.stock.ports != [] { HeadTaken(l.stock.ports); }
  }

  // ---- The bound on containers is tight -------------------------------------------------------

  function Creates(hs: seq<string>): seq<Op> {
    if hs == [] then [] else [Create(hs[0], Created, true)] + Creates(hs[1..])
  }

  lemma {:induction false} CreatesFill(c: Config, l: Ledger, hs: seq<string>)
    requires c.cidr.ones <= 32 && Distinct(hs) && forall h :: h in hs ==> h !in l.live
    requires |hs| <= |l.stock.uids| && |hs| <= |l.stock.nets|
    ensures |Run(c, l, Creates(hs)).live| == |l.live| + |hs|
    decreases |hs|
  {
    if hs != [] {
      var l1 := Apply(c, l, Create(hs[0], Created, true));
      var h := Holding(l.stock.uids[0], l.stock.nets[0], []);
      assert l1 == Ledger(l.stock.(uids := l.stock.uids[1..], nets := l.stock.nets[1..]), l.live[hs[0] := h]);
      forall g | g in hs[1..] ensures g !in l1.live {
        var i :| 0 <= i < |hs[1..]| && hs[1..][i] == g;
        assert hs[i + 1] == g;
      }
      assert Creates(hs)[1..] == Creates(hs[1..]);
      CreatesFill(c, l1, hs[1..]);
    }
  }

  /** MaxContainers creates from start-up, under different handles, all succeed. */
  lemma MaxContainersReached(c: Config, hs: seq<string>)
    requires ValidConfig(c) && Distinct(hs) && |hs| == MaxContainers(c)
    ensures |Run(c, InitialLedger(c), Creates(hs)).live| == MaxContainers(c)
  {
    CreatesFill(c, InitialLedger(c), hs);
  }
}
