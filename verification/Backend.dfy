/** The container pool and the backend as objects: every method is proved to do to
    the free lists, the handle table and the lost resources what Ownership says. */
module Backend {
  import opened Common
  import opened Subnets
  import opened Ownership
  import opened Pools
  import opened Containers

  ghost function HoldingOf(c: LinuxContainer): Holding
    reads c
  {
    Holding(c.who.uid, c.who.network, c.ports)
  }

  ghost function Built(c: LinuxContainer?): Option<Holding>
    reads c
  {
    if c == null then None else Some(HoldingOf(c))
  }

  function SavedHolding(s: Snapshot): Holding {
    Holding(s.who.uid, s.who.network, s.ports)
  }

  class LinuxContainerPool {
    const config: Config
    const uidPool: UidPool
    const networkPool: NetworkPool
    const portPool: PortPool
    ghost var lostUids: set<nat>
    ghost var lostNets: set<IPNet>
    ghost var lostPorts: set<nat>

    ghost predicate Valid() {
      && ValidConfig(config) && networkPool.ipNet == config.cidr
      && uidPool.start == config.uidStart && uidPool.size == config.uidSize
      && portPool.start == config.portStart && portPool.size == config.portSize
      && uidPool.initialPoolSize == |Range(config.uidStart, config.uidSize)|
      && networkPool.initialPoolSize == |NetKeys(config)|
    }

    ghost function View(): Stock
      reads this, uidPool, networkPool, portPool
    {
      Stock(uidPool.pool, networkPool.pool, portPool.pool, lostUids, lostNets, lostPorts)
    }

    constructor (config: Config)
      requires ValidConfig(config)
      requires config.uidStart < UINT32 && config.uidSize < UINT32
               && config.portStart < UINT32 && config.portSize < UINT32
      ensures Valid() && this.config == config && fresh(uidPool) && fresh(networkPool) && fresh(portPool)
      ensures View() == InitialLedger(config).stock
    {
      this.config := config;
      var uids := new UidPool(config.uidStart, config.uidSize);
      var nets := new NetworkPool(config.cidr);
      var ports := new PortPool(config.portStart, config.portSize);
      uidPool, networkPool, portPool := uids, nets, ports;
      lostUids, lostNets, lostPorts := {}, {}, {};
    }

    method MaxContainers() returns (n: nat)
      requires Valid()
      ensures n == Ownership.MaxContainers(config)
      ensures n <= uidPool.initialPoolSize && n <= networkPool.initialPoolSize
      ensures n == uidPool.initialPoolSize || n == networkPool.initialPoolSize
    {
      if networkPool.initialPoolSize < uidPool.initialPoolSize {
        return networkPool.initialPoolSize;
      }
      return uidPool.initialPoolSize;
    }

    ghost method Record(h: Holding)
      modifies this
      ensures View() == Lose(old(View()), h)
    {
      lostUids, lostNets, lostPorts := lostUids + {h.uid}, lostNets + {h.net.ipNet}, lostPorts + set p | p in h.ports;
    }

    /** The handle is the requested one, or the id if none was. */
    method Create(id: string, requested: string, graceTime: int, properties: map<string, string>, o: CreateOutcome)
      returns (c: LinuxContainer?)
      requires Valid()
      modifies this, uidPool, networkPool
      ensures (View(), Built(c)) == PoolCreate(config, old(View()), o)
      ensures c != null <==> o == Created && old(uidPool.pool) != [] && old(networkPool.pool) != []
      ensures c != null ==> fresh(c) && c.View().state == "born" && c.ports == []
      ensures c != null ==>
                c.who == Identity(id, if requested != "" then requested else id, graceTime, properties,
                                  old(uidPool.pool)[0], old(networkPool.pool)[0])
    {
      var handle := id;
      if requested != "" { handle := requested; }
      var uid := uidPool.Acquire();
      if uid.None? { return null; }
      var network := networkPool.Acquire();
      if network.None? {
        uidPool.Release(uid.value);
        return null;
      }
      if o == RootFSFails {
        Record(Holding(uid.value, network.value, []));
        return null;
      }
      c := new LinuxContainer(Identity(id, handle, graceTime, properties, uid.value, network.value), []);
      if o == ScriptFails {
        uidPool.Release(uid.value);
        networkPool.Release(network.value);
        return null;
      }
      if o == FilesFail {
        Record(HoldingOf(c));
        return null;
      }
    }

    method RemoveAll(ports: seq<nat>) returns (ok: bool)
      modifies portPool
      ensures (portPool.pool, ok) == RemovePorts(old(portPool.pool), ports)
    {
      for i := 0 to |ports|
        invariant RemovePorts(portPool.pool, ports[i..]) == RemovePorts(old(portPool.pool), ports)
      {
        assert ports[i..][1..] == ports[i + 1..];
        var found := portPool.Remove(ports[i]);
        if !found { return false; }
      }
      ok := true;
    }

    method ReleaseAll(ports: seq<nat>)
      requires Valid()
      modifies portPool
      ensures View() == ReleasePorts(config, old(View()), ports)
    {
      for i := 0 to |ports|
        invariant View() == old(View()).(ports := portPool.pool)
        invariant ReleasePorts(config, View(), ports[i..]) == ReleasePorts(config, old(View()), ports)
      {
        assert ports[i..][1..] == ports[i + 1..];
        portPool.Release(ports[i]);
      }
    }

    method Claim(s: Snapshot) returns (ok: bool)
      requires Valid()
      modifies uidPool, networkPool, portPool
      ensures (View(), ok) == Ownership.Claim(config, old(View()), SavedHolding(s))
      ensures ok <==> Accepts(old(View()), SavedHolding(s))
      ensures ok ==> portPool.pool == RemovePorts(old(portPool.pool), s.ports).0
    {
      var found := uidPool.Remove(s.who.uid);
      if !found { return false; }
      found := networkPool.Remove(s.who.network);
      if !found {
        uidPool.Release(s.who.uid);
        return false;
      }
      ok := RemoveAll(s.ports);
      if !ok {
        uidPool.Release(s.who.uid);
        networkPool.Release(s.who.network);
        ReleaseAll(s.ports);
      }
    }

    /** `replay` reports what the replay into the new container took and how it ended. */
    method Build(s: Snapshot, cmds: Commands) returns (c: LinuxContainer?, ghost replay: Replay)
      modifies this, portPool
      ensures (View(), Built(c)) == Ownership.Build(old(View()), SavedHolding(s), replay)
      ensures c != null <==> Succeeds(NewContainer(s.who, s.ports), old(portPool.pool), s, cmds)
      ensures (forall j :: 0 <= j < |s.netIns| ==> s.netIns[j].hostPort != 0) ==> replay.acquired == 0
      ensures c != null ==> fresh(c) && c.who == s.who
    {
      ghost var k := View();
      var container, done := Replayed(s, cmds);
      replay := Replay(|k.ports| - |portPool.pool|, done);
      BuildStep(k, SavedHolding(s), replay, portPool.pool, HoldingOf(container));
      if done {
        c := container;
      } else {
        Record(HoldingOf(container));
        c := null;
      }
    }

    /** A new container with the snapshot replayed into it, as far as that went. */
    method Replayed(s: Snapshot, cmds: Commands) returns (c: LinuxContainer, done: bool)
      modifies portPool
      ensures fresh(c) && c.who == s.who && |portPool.pool| <= old(|portPool.pool|)
      ensures var n := old(|portPool.pool|) - |portPool.pool|;
              portPool.pool == old(portPool.pool)[n..] && c.ports == s.ports + old(portPool.pool)[..n]
      ensures done <==> Succeeds(NewContainer(s.who, s.ports), old(portPool.pool), s, cmds)
      ensures (forall j :: 0 <= j < |s.netIns| ==> s.netIns[j].hostPort != 0) ==> portPool.pool == old(portPool.pool)
    {
      ghost var free := portPool.pool;
      c := new LinuxContainer(s.who, s.ports);
      RestoreTookPorts(NewContainer(s.who, s.ports), free, s, cmds);
      done := c.Restore(s, portPool, cmds);
    }

    method Restore(s: Snapshot, cmds: Commands) returns (c: LinuxContainer?, ghost replay: Replay)
      requires Valid()
      modifies this, uidPool, networkPool, portPool
      ensures (View(), Built(c)) == PoolRestore(config, old(View()), SavedHolding(s), replay)
      ensures c != null <==>
                Accepts(old(View()), SavedHolding(s)) &&
                Succeeds(NewContainer(s.who, s.ports), RemovePorts(old(portPool.pool), s.ports).0, s, cmds)
      ensures (forall j :: 0 <= j < |s.netIns| ==> s.netIns[j].hostPort != 0) ==> replay.acquired == 0
      ensures c != null ==> fresh(c) && c.who == s.who
    {
      var claimed := Claim(s);
      if claimed {
        c, replay := Build(s, cmds);
      } else {
        c, replay := null, Replay(0, false);
      }
    }

    method Destroy(c: LinuxContainer)
      requires Valid()
      modifies uidPool, networkPool, portPool
      ensures View() == PoolDestroy(config, old(View()), HoldingOf(c))
      ensures InRange(config.uidStart, config.uidSize, c.who.uid) ==> uidPool.pool == old(uidPool.pool) + [c.who.uid]
      ensures Contains(config.cidr, c.who.network.ipNet.ip) ==>
                networkPool.pool == old(networkPool.pool) + [c.who.network]
      ensures forall p: nat :: p in portPool.pool <==>
                p in old(portPool.pool) || (p in c.ports && InRange(config.portStart, config.portSize, p))
    {
      ReleasePortsMembers(config, View(), c.ports);
      ReleaseAll(c.ports);
      uidPool.Release(c.who.uid);
      networkPool.Release(c.who.network);
    }
  }

  class LinuxBackend {
    const containerPool: LinuxContainerPool
    var containers: map<string, LinuxContainer>

    /** Containers are distinct objects, filed under their own handles. */
    ghost predicate Valid()
      reads this
    {
      && containerPool.Valid()
      && (forall h :: h in containers ==> containers[h].who.handle == h)
    }

    ghost function Live(): map<string, Holding>
      reads this, containers.Values
    {
      map h | h in containers :: HoldingOf(containers[h])
    }

    ghost function View(): Ledger
      reads this, containers.Values, containerPool,
            containerPool.uidPool, containerPool.networkPool, containerPool.portPool
    {
      Ledger(containerPool.View(), Live())
    }

    constructor (containerPool: LinuxContainerPool)
      requires containerPool.Valid()
      ensures Valid() && this.containerPool == containerPool && containers == map[]
      ensures View() == Ledger(containerPool.View(), map[])
    {
      this.containerPool := containerPool;
      containers := map[];
    }

    /** The container is entered only once it has started. */
    method Create(id: string, requested: string, graceTime: int, properties: map<string, string>,
                  o: CreateOutcome, starts: bool)
      returns (c: LinuxContainer?)
      requires Valid()
      modifies this, containerPool, containerPool.uidPool, containerPool.networkPool
      ensures Valid()
      ensures View() == Apply(containerPool.config, old(View()),
                              Op.Create(if requested != "" then requested else id, o, starts))
      ensures c != null <==>
                o == Created && starts
                && old(containerPool.uidPool.pool) != [] && old(containerPool.networkPool.pool) != []
      ensures c != null ==> c.state == "active" && c.who.id == id
      ensures containers == if c == null then old(containers)
                            else old(containers)[if requested != "" then requested else id := c]
    {
      c := containerPool.Create(id, requested, graceTime, properties, o);
      assert Live() == old(Live());
      if c == null { return null; }
      if !starts {
        containerPool.Record(HoldingOf(c));
        return null;
      }
      c.state := "active";
      assert Live() == old(Live());
      Enter(c);
    }

    method Enter(c: LinuxContainer)
      requires Valid() && forall h :: h in containers ==> containers[h] != c
      modifies this, containerPool
      ensures Valid() && containers == old(containers)[c.who.handle := c]
      ensures View() == Install(old(View()), c.who.handle, HoldingOf(c))
    {
      if c.who.handle in containers {
        containerPool.Record(HoldingOf(containers[c.who.handle]));
      }
      containers := containers[c.who.handle := c];
      assert Live() == old(Live())[c.who.handle := HoldingOf(c)];
    }

    method Destroy(handle: string, ok: bool) returns (done: bool)
      requires Valid()
      modifies this, containerPool.uidPool, containerPool.networkPool, containerPool.portPool
      ensures Valid() && done == (handle in old(containers) && ok)
      ensures View() == Apply(containerPool.config, old(View()), Op.Destroy(handle, ok))
      ensures containers == if done then old(containers) - {handle} else old(containers)
      ensures done ==>
                var c, k := old(containers)[handle], containerPool.config;
                && (InRange(k.uidStart, k.uidSize, c.who.uid) ==>
                      containerPool.uidPool.pool == old(containerPool.uidPool.pool) + [c.who.uid])
                && (Contains(k.cidr, c.who.network.ipNet.ip) ==>
                      containerPool.networkPool.pool == old(containerPool.networkPool.pool) + [c.who.network])
                && forall p: nat :: p in containerPool.portPool.pool <==>
                     p in old(containerPool.portPool.pool) || (p in c.ports && InRange(k.portStart, k.portSize, p))
      ensures !done ==> containerPool.View() == old(containerPool.View())
    {
      if handle !in containers || !ok { return false; }
      var c := containers[handle];
      containerPool.Destroy(c);
      containers := containers - {c.who.handle};
      assert Live() == old(Live()) - {handle};
      done := true;
    }

    method Restore(s: Snapshot, cmds: Commands) returns (done: bool, ghost replay: Replay)
      requires Valid()
      modifies this, containerPool, containerPool.uidPool, containerPool.networkPool, containerPool.portPool
      ensures Valid()
      ensures View() == Apply(containerPool.config, old(View()), Op.Restore(s.who.handle, SavedHolding(s), replay))
      ensures (forall j :: 0 <= j < |s.netIns| ==> s.netIns[j].hostPort != 0) ==> replay.acquired == 0
      ensures done <==>
                Accepts(old(containerPool.View()), SavedHolding(s)) &&
                var left := RemovePorts(old(containerPool.portPool.pool), s.ports).0;
                Succeeds(NewContainer(s.who, s.ports), left, s, cmds)
      ensures done ==> s.who.handle in containers && containers[s.who.handle].who == s.who
      ensures containers == if done then old(containers)[s.who.handle := containers[s.who.handle]]
                            else old(containers)
    {
      var c;
      c, replay := containerPool.Restore(s, cmds);
      assert Live() == old(Live());
      if c == null { return false, replay; }
      Enter(c);
      done := true;
    }

    method NetIn(handle: string, hostPort: nat, containerPort: nat, ok: bool) returns (r: Option<(nat, nat)>)
      requires Valid()
      modifies containers.Values, containerPool.portPool
      ensures Valid() && View() == Apply(containerPool.config, old(View()), Op.NetIn(handle, hostPort))
      ensures r.Some? <==> handle in containers && ok && (hostPort != 0 || old(containerPool.portPool.pool) != [])
      ensures r.Some? ==>
                && containers[handle].netIns == old(containers[handle].netIns) + [NetInSpec(r.value.0, r.value.1)]
                && r.value.0 == (if hostPort != 0 then hostPort else old(containerPool.portPool.pool)[0])
                && r.value.1 == if containerPort != 0 then containerPort else r.value.0
      ensures forall g :: g in containers && g != handle ==> unchanged(containers[g])
    {
      if handle !in containers { return None; }
      var c := containers[handle];
      ghost var l := View();
      r := c.NetIn(containerPool.portPool, hostPort, containerPort, ok);
      assert Live() == l.live[handle := HoldingOf(c)];
      NetInStep(containerPool.config, l, handle, hostPort, HoldingOf(c), containerPool.portPool.pool);
    }
  }

  /** A mapping's effect on the ledger, from its effect on the container and the pool. */
  lemma NetInStep(config: Config, l: Ledger, handle: string, hostPort: nat, h: Holding, pool: seq<nat>)
    requires config.cidr.ones <= 32 && handle in l.live
    requires if hostPort != 0 || l.stock.ports == [] then h == l.live[handle] && pool == l.stock.ports
             else h == l.live[handle].(ports := l.live[handle].ports + [l.stock.ports[0]]) && pool == l.stock.ports[1..]
    ensures Ledger(l.stock.(ports := pool), l.live[handle := h]) == Apply(config, l, Op.NetIn(handle, hostPort))
  {
    assert h == l.live[handle] ==> l.live[handle := h] == l.live;
  }

  /** A replay's effect on the stock, from the ports it took off the pool. */
  lemma BuildStep(k: Stock, saved: Holding, replay: Replay, pool: seq<nat>, h: Holding)
    requires replay.acquired <= |k.ports| && pool == k.ports[replay.acquired..]
    requires h == saved.(ports := saved.ports + k.ports[..replay.acquired])
    ensures var k' := k.(ports := pool);
            Ownership.Build(k, saved, replay) == if replay.ok then (k', Some(h)) else (Lose(k', h), None)
  {
  }
}
