/** A container's recorded state, its snapshot, and the replay of a snapshot into a
    new container. Whether a script, a cgroup write or the oom notifier succeeds is
    an input of each operation. */
module Containers {
  import opened Common
  import opened Subnets
  import opened Pools
  import opened Ownership

  datatype Limits = Limits(memory: Option<nat>, disk: Option<seq<nat>>, bandwidth: Option<(nat, nat)>, cpu: Option<nat>)

  datatype NetInSpec = NetInSpec(hostPort: nat, containerPort: nat)

  datatype NetOutSpec = NetOutSpec(network: string, port: nat)

  datatype ProcessSnapshot = ProcessSnapshot(id: nat, tty: bool)

  /** What a container is created with and keeps. */
  datatype Identity = Identity(
    id: string, handle: string, graceTime: int, properties: map<string, string>, uid: nat, network: Network)

  datatype Container = Container(
    who: Identity, ports: seq<nat>, state: string, events: seq<string>, limits: Limits,
    netIns: seq<NetInSpec>, netOuts: seq<NetOutSpec>, processes: map<nat, bool>, oomNotifier: bool)

  datatype Snapshot = Snapshot(
    who: Identity, ports: seq<nat>, state: string, events: seq<string>, limits: Limits,
    netIns: seq<NetInSpec>, netOuts: seq<NetOutSpec>, processes: seq<ProcessSnapshot>)

  const NO_LIMITS := Limits(None, None, None, None)

  function NewContainer(who: Identity, ports: seq<nat>): Container {
    Container(who, ports, "born", [], NO_LIMITS, [], [], map[], false)
  }

  // ---- The operations, on values -----------------------------------------------------

  /** NetIn: host port 0 asks the pool, and the port is recorded before the script runs. */
  function NetInOf(c: Container, pool: seq<nat>, hostPort: nat, containerPort: nat, ok: bool)
    : (Container, seq<nat>, Option<(nat, nat)>)
  {
    if hostPort == 0 && pool == [] then (c, pool, None) else
    var c1 := if hostPort == 0 then c.(ports := c.ports + [pool[0]]) else c;
    var pool' := if hostPort == 0 then pool[1..] else pool;
    var h := if hostPort == 0 then pool[0] else hostPort;
    var p := if containerPort == 0 then h else containerPort;
    if ok then (c1.(netIns := c1.netIns + [NetInSpec(h, p)]), pool', Some((h, p))) else (c1, pool', None)
  }

  function NetOutOf(c: Container, network: string, port: nat, ok: bool): (Container, bool) {
    if (port == 0 && network == "") || !ok then (c, false)
    else (c.(netOuts := c.netOuts + [NetOutSpec(network, port)]), true)
  }

  /** LimitMemory: the notifier counts as started even if starting it failed. */
  function LimitMemoryOf(c: Container, limit: nat, oomOk: bool, setOk: bool): (Container, bool) {
    var c1 := c.(oomNotifier := true);
    if (!c.oomNotifier && !oomOk) || !setOk then (c1, false)
    else (c1.(limits := c1.limits.(memory := Some(limit))), true)
  }

  /** The outcomes of the commands a restore runs. */
  datatype Commands = Commands(oom: bool, memory: bool, setup: bool, netIn: nat -> bool, netOut: nat -> bool)

  function RestoreProcesses(m: map<nat, bool>, ps: seq<ProcessSnapshot>): map<nat, bool>
    decreases |ps|
  {
    if ps == [] then m else RestoreProcesses(m[ps[0].id := ps[0].tty], ps[1..])
  }

  function ReplayIns(c: Container, pool: seq<nat>, ins: seq<NetInSpec>, i: nat, ok: nat -> bool)
    : (Container, seq<nat>, bool)
    requires i <= |ins|
    decreases |ins| - i
  {
    if i == |ins| then (c, pool, true) else
    var (c1, pool1, r) := NetInOf(c, pool, ins[i].hostPort, ins[i].containerPort, ok(i));
    if r.None? then (c1, pool1, false) else ReplayIns(c1, pool1, ins, i + 1, ok)
  }

  function ReplayOuts(c: Container, outs: seq<NetOutSpec>, i: nat, ok: nat -> bool): (Container, bool)
    requires i <= |outs|
    decreases |outs| - i
  {
    if i == |outs| then (c, true) else
    var (c1, r) := NetOutOf(c, outs[i].network, outs[i].port, ok(i));
    if !r then (c1, false) else ReplayOuts(c1, outs, i + 1, ok)
  }

  /** The part of a restore before the recorded mappings are replayed. */
  function Prepared(c: Container, s: Snapshot, cmds: Commands): (Container, bool) {
    var c1 := c.(state := s.state, events := c.events + s.events);
    var (c2, limited) := match s.limits.memory
                         case None => (c1, true)
                         case Some(limit) => LimitMemoryOf(c1, limit, cmds.oom, cmds.memory);
    if !limited then (c2, false)
    else (c2.(processes := RestoreProcesses(c2.processes, s.processes)), cmds.setup)
  }

  function RestoreOf(c: Container, pool: seq<nat>, s: Snapshot, cmds: Commands): (Container, seq<nat>, bool) {
    var (c1, ready) := Prepared(c, s, cmds);
    if !ready then (c1, pool, false) else
    var (c2, pool2, mapped) := ReplayIns(c1, pool, s.netIns, 0, cmds.netIn);
    if !mapped then (c2, pool2, false) else
    var (c3, permitted) := ReplayOuts(c2, s.netOuts, 0, cmds.netOut);
    (c3, pool2, permitted)
  }

  // ---- When a restore succeeds ---------------------------------------------------------

  /** How many of the mappings from i on ask for a port of the pool. */
  function Asks(ins: seq<NetInSpec>, i: nat): nat
    requires i <= |ins|
    decreases |ins| - i
  {
    if i == |ins| then 0 else (if ins[i].hostPort == 0 then 1 else 0) + Asks(ins, i + 1)
  }

  /** Every command succeeds, no rule is empty, and the pool has a port for every mapping
      that asks for one. */
  ghost predicate Succeeds(c: Container, pool: seq<nat>, s: Snapshot, cmds: Commands) {
    && (s.limits.memory.Some? ==> (c.oomNotifier || cmds.oom) && cmds.memory)
    && cmds.setup
    && Asks(s.netIns, 0) <= |pool| && (forall i: nat :: i < |s.netIns| ==> cmds.netIn(i))
    && forall i: nat :: i < |s.netOuts| ==> cmds.netOut(i) && (s.netOuts[i].port != 0 || s.netOuts[i].network != "")
  }

  lemma {:induction false} ReplayInsSucceedsIff(
      c: Container, pool: seq<nat>, ins: seq<NetInSpec>, i: nat, ok: nat -> bool)
    requires i <= |ins|
    ensures ReplayIns(c, pool, ins, i, ok).2 <==>
              Asks(ins, i) <= |pool| && forall j: nat :: i <= j < |ins| ==> ok(j)
    decreases |ins| - i
  {
    if i < |ins| {
      var (c1, pool1, r) := NetInOf(c, pool, ins[i].hostPort, ins[i].containerPort, ok(i));
      if r.Some? { ReplayInsSucceedsIff(c1, pool1, ins, i + 1, ok); }
    }
  }

  lemma {:induction false} ReplayOutsSucceedsIff(c: Container, outs: seq<NetOutSpec>, i: nat, ok: nat -> bool)
    requires i <= |outs|
    ensures ReplayOuts(c, outs, i, ok).1 <==>
              forall j: nat :: i <= j < |outs| ==> ok(j) && (outs[j].port != 0 || outs[j].network != "")
    decreases |outs| - i
  {
    if i < |outs| {
      var (c1, r) := NetOutOf(c, outs[i].network, outs[i].port, ok(i));
      if r { ReplayOutsSucceedsIff(c1, outs, i + 1, ok); }
    }
  }

  /** A replay stops at its first failure: with the mappings before it recorded, and no other. */
  lemma {:induction false} ReplayInsStops(
      c: Container, pool: seq<nat>, ins: seq<NetInSpec>, i: nat, k: nat, ok: nat -> bool)
    requires i <= k < |ins| && !ok(k) && (forall j :: i <= j < k ==> ok(j)) && Asks(ins, i) <= |pool|
    ensures var r := ReplayIns(c, pool, ins, i, ok);
            !r.2 && |r.0.netIns| == |c.netIns| + k - i && c.netIns <= r.0.netIns
    decreases k - i
  {
    if i < k {
      var (c1, pool1, _) := NetInOf(c, pool, ins[i].hostPort, ins[i].containerPort, ok(i));
      ReplayInsStops(c1, pool1, ins, i + 1, k, ok);
    }
  }

  lemma {:induction false} ReplayOutsStops(c: Container, outs: seq<NetOutSpec>, i: nat, k: nat, ok: nat -> bool)
    requires i <= k < |outs| && !ok(k)
    requires forall j :: i <= j < k ==> ok(j) && (outs[j].port != 0 || outs[j].network != "")
    ensures var r := ReplayOuts(c, outs, i, ok);
            !r.1 && r.0 == c.(netOuts := c.netOuts + outs[i..k])
    decreases k - i
  {
    if i < k {
      ReplayOutsStops(NetOutOf(c, outs[i].network, outs[i].port, ok(i)).0, outs, i + 1, k, ok);
      assert c.netOuts + [outs[i]] + outs[i + 1..k] == c.netOuts + outs[i..k];
    } else {
      assert c.netOuts + outs[i..k] == c.netOuts;
    }
  }

  lemma RestoreSucceedsIff(c: Container, pool: seq<nat>, s: Snapshot, cmds: Commands)
    ensures RestoreOf(c, pool, s, cmds).2 <==> Succeeds(c, pool, s, cmds)
  {
    var (c1, ready) := Prepared(c, s, cmds);
    ReplayInsSucceedsIff(c1, pool, s.netIns, 0, cmds.netIn);
    ReplayOutsSucceedsIff(ReplayIns(c1, pool, s.netIns, 0, cmds.netIn).0, s.netOuts, 0, cmds.netOut);
  }

  /** The process list shows each tracked process once, in any order. */
  ghost predicate Lists(ps: seq<ProcessSnapshot>, m: map<nat, bool>) {
    && (forall i, j :: 0 <= i < j < |ps| ==> ps[i].id != ps[j].id)
    && (forall id :: id in m ==> ProcessSnapshot(id, m[id]) in ps)
    && (forall p :: p in ps ==> p.id in m && m[p.id] == p.tty)
  }

  ghost predicate IsSnapshot(c: Container, s: Snapshot) {
    s == Snapshot(c.who, c.ports, c.state, c.events, c.limits, c.netIns, c.netOuts, s.processes)
    && Lists(s.processes, c.processes)
  }

  // ---- The object -----------------------------------------------------------------------

  class LinuxContainer {
    const who: Identity
    var ports: seq<nat>
    var state: string
    var events: seq<string>
    var currentMemoryLimits: Option<nat>
    var currentDiskLimits: Option<seq<nat>>
    var currentBandwidthLimits: Option<(nat, nat)>
    var currentCPULimits: Option<nat>
    var netIns: seq<NetInSpec>
    var netOuts: seq<NetOutSpec>
    var processes: map<nat, bool>
    var oomNotifier: bool

    ghost function View(): Container
      reads this
    {
      Container(who, ports, state, events,
                Limits(currentMemoryLimits, currentDiskLimits, currentBandwidthLimits, currentCPULimits),
                netIns, netOuts, processes, oomNotifier)
    }

    constructor (who: Identity, ports: seq<nat>)
      ensures View() == NewContainer(who, ports)
    {
      this.who, this.ports := who, ports;
      state, events := "born", [];
      currentMemoryLimits, currentDiskLimits, currentBandwidthLimits, currentCPULimits := None, None, None, None;
      netIns, netOuts, processes, oomNotifier := [], [], map[], false;
    }

    /** A request of host port 0 takes the head of the pool, script or no script; a container
        port of 0 becomes the host port. */
    method NetIn(portPool: PortPool, hostPort: nat, containerPort: nat, ok: bool) returns (r: Option<(nat, nat)>)
      modifies this, portPool`pool
      ensures r.Some? <==> ok && (hostPort != 0 || old(portPool.pool) != [])
      ensures r.Some? ==> r.value.0 == if hostPort != 0 then hostPort else old(portPool.pool)[0]
      ensures r.Some? ==> r.value.1 == if containerPort != 0 then containerPort else r.value.0
      ensures netIns == old(netIns) + if r.Some? then [NetInSpec(r.value.0, r.value.1)] else []
      ensures if hostPort == 0 && old(portPool.pool) != [] then
                ports == old(ports) + [old(portPool.pool)[0]] && portPool.pool == old(portPool.pool)[1..]
              else ports == old(ports) && portPool.pool == old(portPool.pool)
      ensures View() == old(View()).(ports := ports, netIns := netIns)
      ensures (View(), portPool.pool, r) == NetInOf(old(View()), old(portPool.pool), hostPort, containerPort, ok)
    {
      var h, p := hostPort, containerPort;
      if h == 0 {
        var randomPort := portPool.Acquire();
        if randomPort.None? { return None; }
        ports := ports + [randomPort.value];
        h := randomPort.value;
      }
      if p == 0 { p := h; }
      if !ok { return None; }
      netIns := netIns + [NetInSpec(h, p)];
      r := Some((h, p));
    }

    method NetOut(network: string, port: nat, ok: bool) returns (done: bool)
      modifies this
      ensures done <==> ok && (port != 0 || network != "")
      ensures netOuts == old(netOuts) + if done then [NetOutSpec(network, port)] else []
      ensures View() == old(View()).(netOuts := netOuts)
      ensures (View(), done) == NetOutOf(old(View()), network, port, ok)
    {
      if port == 0 && network == "" { return false; }
      if !ok { return false; }
      netOuts := netOuts + [NetOutSpec(network, port)];
      done := true;
    }

    method LimitMemory(limit: nat, oomOk: bool, setOk: bool) returns (done: bool)
      modifies this
      ensures done <==> (old(oomNotifier) || oomOk) && setOk
      ensures currentMemoryLimits == if done then Some(limit) else old(currentMemoryLimits)
      ensures View() == old(View()).(limits := old(View()).limits.(memory := currentMemoryLimits), oomNotifier := true)
      ensures (View(), done) == LimitMemoryOf(old(View()), limit, oomOk, setOk)
    {
      var started := oomNotifier || oomOk;
      oomNotifier := true;
      if !started || !setOk { return false; }
      currentMemoryLimits := Some(limit);
      done := true;
    }

    method Prepare(s: Snapshot, cmds: Commands) returns (ready: bool)
      modifies this
      ensures ready <==> cmds.setup && (s.limits.memory.None? || ((old(oomNotifier) || cmds.oom) && cmds.memory))
      ensures state == s.state && events == old(events) + s.events
      ensures processes == if s.limits.memory.Some? && !((old(oomNotifier) || cmds.oom) && cmds.memory)
                           then old(processes) else RestoreProcesses(old(processes), s.processes)
      ensures (View(), ready) == Prepared(old(View()), s, cmds)
    {
      state := s.state;
      for i := 0 to |s.events|
        modifies this`events
        invariant events == old(events) + s.events[..i]
      {
        events := events + [s.events[i]];
      }
      assert s.events[..|s.events|] == s.events;
      if s.limits.memory.Some? {
        var limited := LimitMemory(s.limits.memory.value, cmds.oom, cmds.memory);
        if !limited { return false; }
      }
      ghost var was := processes;
      for i := 0 to |s.processes|
        modifies this`processes
        invariant RestoreProcesses(processes, s.processes[i..]) == RestoreProcesses(was, s.processes)
      {
        processes := processes[s.processes[i].id := s.processes[i].tty];
        assert s.processes[i..][1..] == s.processes[i + 1..];
      }
      ready := cmds.setup;
    }

    method Restore(s: Snapshot, portPool: PortPool, cmds: Commands) returns (done: bool)
      modifies this, portPool`pool
      ensures done <==> Succeeds(old(View()), old(portPool.pool), s, cmds)
      ensures (View(), portPool.pool, done) == RestoreOf(old(View()), old(portPool.pool), s, cmds)
    {
      RestoreSucceedsIff(View(), portPool.pool, s, cmds);
      done := Prepare(s, cmds);
      if done {
        done := ReplayNetIns(s.netIns, portPool, cmds);
      }
      if done {
        done := ReplayNetOuts(s.netOuts, cmds);
      }
    }

    method ReplayNetIns(ins: seq<NetInSpec>, portPool: PortPool, cmds: Commands) returns (done: bool)
      modifies this, portPool`pool
      ensures (View(), portPool.pool, done) == ReplayIns(old(View()), old(portPool.pool), ins, 0, cmds.netIn)
    {
      for i := 0 to |ins|
        invariant ReplayIns(View(), portPool.pool, ins, i, cmds.netIn)
                  == ReplayIns(old(View()), old(portPool.pool), ins, 0, cmds.netIn)
      {
        var r := NetIn(portPool, ins[i].hostPort, ins[i].containerPort, cmds.netIn(i));
        if r.None? { return false; }
      }
      done := true;
    }

    method ReplayNetOuts(outs: seq<NetOutSpec>, cmds: Commands) returns (done: bool)
      modifies this
      ensures (View(), done) == ReplayOuts(old(View()), outs, 0, cmds.netOut)
    {
      for i := 0 to |outs|
        invariant ReplayOuts(View(), outs, i, cmds.netOut) == ReplayOuts(old(View()), outs, 0, cmds.netOut)
      {
        var r := NetOut(outs[i].network, outs[i].port, cmds.netOut(i));
        if !r { return false; }
      }
      done := true;
    }

    /** The tracker's map is walked in an order of its own. */
    method TakeSnapshot() returns (s: Snapshot)
      ensures IsSnapshot(View(), s)
    {
      var ps: seq<ProcessSnapshot>, left := [], processes.Keys;
      while left != {}
        invariant left <= processes.Keys
        invariant forall i, j :: 0 <= i < j < |ps| ==> ps[i].id != ps[j].id
        invariant forall id :: id in processes && id !in left ==> ProcessSnapshot(id, processes[id]) in ps
        invariant forall p :: p in ps ==> p.id in processes && p.id !in left && processes[p.id] == p.tty
        decreases left
      {
        var id :| id in left;
        left := left - {id};
        ps := ps + [ProcessSnapshot(id, processes[id])];
      }
      s := Snapshot(who, ports, state, events,
                    Limits(currentMemoryLimits, currentDiskLimits, currentBandwidthLimits, currentCPULimits),
                    netIns, netOuts, ps);
    }
  }

  // ---- What a restore takes from the port pool ---------------------------------------------

  /** c', pool' come from c, pool by taking ports off the head of the pool. */
  ghost predicate TookPorts(c: Container, pool: seq<nat>, c': Container, pool': seq<nat>) {
    |pool'| <= |pool| && c'.who == c.who
    && var n := |pool| - |pool'|; pool' == pool[n..] && c'.ports == c.ports + pool[..n]
  }

  lemma TookPortsTwice(c: Container, p: seq<nat>, c1: Container, p1: seq<nat>, c2: Container, p2: seq<nat>)
    requires TookPorts(c, p, c1, p1) && TookPorts(c1, p1, c2, p2)
    ensures TookPorts(c, p, c2, p2)
  {
    var n, m := |p| - |p1|, |p1| - |p2|;
    assert p[..n] + p[n..][..m] == p[..n + m] && p[n..][m..] == p[n + m..];
    assert c.ports + p[..n] + p1[..m] == c.ports + (p[..n] + p1[..m]);
  }

  lemma NetInTookPorts(c: Container, pool: seq<nat>, h: nat, p: nat, ok: bool)
    ensures TookPorts(c, pool, NetInOf(c, pool, h, p, ok).0, NetInOf(c, pool, h, p, ok).1)
  {
    TookNone(c, pool);
    if h == 0 && pool != [] {
      assert pool[..1] == [pool[0]];
    }
  }

  lemma TookNone(c: Container, pool: seq<nat>)
    ensures TookPorts(c, pool, c, pool)
  {
    assert pool[0..] == pool && c.ports + pool[..0] == c.ports;
  }

  lemma {:induction false} ReplayInsTookPorts(
      c: Container, pool: seq<nat>, ins: seq<NetInSpec>, i: nat, ok: nat -> bool)
    requires i <= |ins|
    ensures TookPorts(c, pool, ReplayIns(c, pool, ins, i, ok).0, ReplayIns(c, pool, ins, i, ok).1)
    decreases |ins| - i
  {
    if i == |ins| {
      TookNone(c, pool);
    } else {
      var (c1, pool1, r) := NetInOf(c, pool, ins[i].hostPort, ins[i].containerPort, ok(i));
      NetInTookPorts(c, pool, ins[i].hostPort, ins[i].containerPort, ok(i));
      if r.Some? {
        ReplayInsTookPorts(c1, pool1, ins, i + 1, ok);
        var (c2, pool2, _) := ReplayIns(c1, pool1, ins, i + 1, ok);
        TookPortsTwice(c, pool, c1, pool1, c2, pool2);
      }
    }
  }

  lemma {:induction false} NamedInsTakeNone(c: Container, pool: seq<nat>, ins: seq<NetInSpec>, i: nat, ok: nat -> bool)
    requires i <= |ins| && forall j :: i <= j < |ins| ==> ins[j].hostPort != 0
    ensures ReplayIns(c, pool, ins, i, ok).1 == pool
    decreases |ins| - i
  {
    if i < |ins| {
      NamedInsTakeNone(NetInOf(c, pool, ins[i].hostPort, ins[i].containerPort, ok(i)).0, pool, ins, i + 1, ok);
    }
  }

  lemma {:induction false} ReplayOutsKeepsPorts(c: Container, outs: seq<NetOutSpec>, i: nat, ok: nat -> bool)
    requires i <= |outs|
    ensures var c' := ReplayOuts(c, outs, i, ok).0; c'.who == c.who && c'.ports == c.ports
    decreases |outs| - i
  {
    if i < |outs| {
      ReplayOutsKeepsPorts(NetOutOf(c, outs[i].network, outs[i].port, ok(i)).0, outs, i + 1, ok);
    }
  }

  lemma PreparedKeepsPorts(c: Container, s: Snapshot, cmds: Commands)
    ensures Prepared(c, s, cmds).0.who == c.who && Prepared(c, s, cmds).0.ports == c.ports
  {
  }

  /** Succeed or fail, a restore only moves ports from the head of the pool to the
      container, and none at all when every recorded mapping names its host port. */
  lemma RestoreTookPorts(c: Container, pool: seq<nat>, s: Snapshot, cmds: Commands)
    ensures TookPorts(c, pool, RestoreOf(c, pool, s, cmds).0, RestoreOf(c, pool, s, cmds).1)
    ensures (forall j :: 0 <= j < |s.netIns| ==> s.netIns[j].hostPort != 0) ==> RestoreOf(c, pool, s, cmds).1 == pool
  {
    PreparedKeepsPorts(c, s, cmds);
    var (c1, ready) := Prepared(c, s, cmds);
    TookNone(c, pool);
    if ready {
      ReplayInsTookPorts(c1, pool, s.netIns, 0, cmds.netIn);
      if forall j :: 0 <= j < |s.netIns| ==> s.netIns[j].hostPort != 0 {
        NamedInsTakeNone(c1, pool, s.netIns, 0, cmds.netIn);
      }
      var (c2, pool2, mapped) := ReplayIns(c1, pool, s.netIns, 0, cmds.netIn);
      if mapped {
        ReplayOutsKeepsPorts(c2, s.netOuts, 0, cmds.netOut);
      }
    }
  }

  // ---- Reachable containers can be replayed -------------------------------------------------

  datatype Action =
    | Start(ok: bool) | Stop(ok: bool) | OutOfMemory(ok: bool)
    | NetIn(pool: seq<nat>, hostPort: nat, containerPort: nat, ok: bool)
    | NetOut(network: string, port: nat, ok: bool)
    | LimitMemory(memory: nat, oomOk: bool, ok: bool)
    | LimitDisk(disk: seq<nat>, ok: bool) | LimitBandwidth(bandwidth: (nat, nat), ok: bool)
    | LimitCPU(cpu: nat, ok: bool)
    | Track(process: nat, tty: bool) | Untrack(process: nat)

  function Act(c: Container, op: Action): Container {
    match op
    case Start(ok) => if ok then c.(state := "active") else c
    case Stop(ok) => if ok then c.(state := "stopped") else c
    case OutOfMemory(ok) =>
      var c1 := c.(events := c.events + ["out of memory"]);
      if ok then c1.(state := "stopped") else c1
    case NetIn(pool, h, p, ok) => NetInOf(c, pool, h, p, ok).0
    case NetOut(network, port, ok) => NetOutOf(c, network, port, ok).0
    case LimitMemory(m, oomOk, ok) => LimitMemoryOf(c, m, oomOk, ok).0
    case LimitDisk(d, ok) => if ok then c.(limits := c.limits.(disk := Some(d))) else c
    case LimitBandwidth(b, ok) => if ok then c.(limits := c.limits.(bandwidth := Some(b))) else c
    case LimitCPU(n, ok) => if ok then c.(limits := c.limits.(cpu := Some(n))) else c
    case Track(id, tty) => c.(processes := c.processes[id := tty])
    case Untrack(id) => c.(processes := c.processes - {id})
  }

  function Acts(c: Container, ops: seq<Action>): Container
    decreases |ops|
  {
    if ops == [] then c else Acts(Act(c, ops[0]), ops[1..])
  }

  ghost predicate PositivePool(pool: seq<nat>) { forall p :: p in pool ==> p > 0 }

  ghost predicate PositivePools(ops: seq<Action>) {
    forall i :: 0 <= i < |ops| && ops[i].NetIn? ==> PositivePool(ops[i].pool)
  }

  /** A container's life: created, or restored from any snapshot, then operated on. */
  ghost predicate Reachable(c: Container) {
    || (exists who, ports, ops :: PositivePools(ops) && c == Acts(NewContainer(who, ports), ops))
    || (exists s: Snapshot, pool, cmds, ops :: PositivePools(ops) && PositivePool(pool)
          && RestoreOf(NewContainer(s.who, s.ports), pool, s, cmds).2
          && c == Acts(RestoreOf(NewContainer(s.who, s.ports), pool, s, cmds).0, ops))
  }

  ghost predicate Replayable(c: Container) {
    && (forall n :: n in c.netIns ==> n.hostPort != 0 && n.containerPort != 0)
    && (forall o :: o in c.netOuts ==> o.port != 0 || o.network != "")
  }

  lemma NetInKeepsReplayable(c: Container, pool: seq<nat>, h: nat, p: nat, ok: bool)
    requires Replayable(c) && PositivePool(pool)
    ensures Replayable(NetInOf(c, pool, h, p, ok).0) && PositivePool(NetInOf(c, pool, h, p, ok).1)
  {
    if pool != [] {
      assert pool[0] in pool;
      assert forall q :: q in pool[1..] ==> q in pool;
    }
  }

  lemma {:induction false} ActsKeepReplayable(c: Container, ops: seq<Action>)
    requires Replayable(c) && PositivePools(ops)
    ensures Replayable(Acts(c, ops))
    decreases |ops|
  {
    if ops != [] {
      if ops[0].NetIn? {
        NetInKeepsReplayable(c, ops[0].pool, ops[0].hostPort, ops[0].containerPort, ops[0].ok);
      }
      ActsKeepReplayable(Act(c, ops[0]), ops[1..]);
    }
  }

  lemma {:induction false} ReplayInsKeepsReplayable(
      c: Container, pool: seq<nat>, ins: seq<NetInSpec>, i: nat, ok: nat -> bool)
    requires i <= |ins| && Replayable(c) && PositivePool(pool)
    ensures Replayable(ReplayIns(c, pool, ins, i, ok).0)
    decreases |ins| - i
  {
    if i < |ins| {
      var (c1, pool1, _) := NetInOf(c, pool, ins[i].hostPort, ins[i].containerPort, ok(i));
      NetInKeepsReplayable(c, pool, ins[i].hostPort, ins[i].containerPort, ok(i));
      ReplayInsKeepsReplayable(c1, pool1, ins, i + 1, ok);
    }
  }

  lemma {:induction false} ReplayOutsKeepsReplayable(c: Container, outs: seq<NetOutSpec>, i: nat, ok: nat -> bool)
    requires i <= |outs| && Replayable(c)
    ensures Replayable(ReplayOuts(c, outs, i, ok).0)
    decreases |outs| - i
  {
    if i < |outs| {
      ReplayOutsKeepsReplayable(NetOutOf(c, outs[i].network, outs[i].port, ok(i)).0, outs, i + 1, ok);
    }
  }

  lemma ReachableIsReplayable(c: Container)
    requires Reachable(c)
    ensures Replayable(c)
  {
    if who, ports, ops :| PositivePools(ops) && c == Acts(NewContainer(who, ports), ops) {
      ActsKeepReplayable(NewContainer(who, ports), ops);
    } else {
      var s: Snapshot, pool, cmds, ops :| PositivePools(ops) && PositivePool(pool)
        && RestoreOf(NewContainer(s.who, s.ports), pool, s, cmds).2
        && c == Acts(RestoreOf(NewContainer(s.who, s.ports), pool, s, cmds).0, ops);
      RestoreKeepsReplayable(NewContainer(s.who, s.ports), pool, s, cmds);
      ActsKeepReplayable(RestoreOf(NewContainer(s.who, s.ports), pool, s, cmds).0, ops);
    }
  }

  lemma RestoreKeepsReplayable(c: Container, pool: seq<nat>, s: Snapshot, cmds: Commands)
    requires Replayable(c) && PositivePool(pool)
    ensures Replayable(RestoreOf(c, pool, s, cmds).0)
  {
    var c1 := Prepared(c, s, cmds).0;
    ReplayInsKeepsReplayable(c1, pool, s.netIns, 0, cmds.netIn);
    ReplayOutsKeepsReplayable(ReplayIns(c1, pool, s.netIns, 0, cmds.netIn).0, s.netOuts, 0, cmds.netOut);
  }

  // ---- Snapshot, restore, snapshot --------------------------------------------------------------

  ghost predicate AllSucceed(cmds: Commands) {
    cmds.oom && cmds.memory && cmds.setup && (forall i: nat :: cmds.netIn(i)) && (forall i: nat :: cmds.netOut(i))
  }

  lemma {:induction false} ReplayInsAppends(c: Container, pool: seq<nat>, ins: seq<NetInSpec>, i: nat, ok: nat -> bool)
    requires i <= |ins| && (forall k: nat :: ok(k))
    requires forall n :: n in ins ==> n.hostPort != 0 && n.containerPort != 0
    ensures ReplayIns(c, pool, ins, i, ok) == (c.(netIns := c.netIns + ins[i..]), pool, true)
    decreases |ins| - i
  {
    if i < |ins| {
      assert ins[i] in ins;
      ReplayInsAppends(c.(netIns := c.netIns + [ins[i]]), pool, ins, i + 1, ok);
      assert ins[i..] == [ins[i]] + ins[i + 1..];
      assert c.netIns + [ins[i]] + ins[i + 1..] == c.netIns + ins[i..];
    } else {
      assert c.netIns + ins[i..] == c.netIns;
    }
  }

  lemma {:induction false} ReplayOutsAppends(c: Container, outs: seq<NetOutSpec>, i: nat, ok: nat -> bool)
    requires i <= |outs| && (forall k: nat :: ok(k))
    requires forall o :: o in outs ==> o.port != 0 || o.network != ""
    ensures ReplayOuts(c, outs, i, ok) == (c.(netOuts := c.netOuts + outs[i..]), true)
    decreases |outs| - i
  {
    if i < |outs| {
      assert outs[i] in outs;
      ReplayOutsAppends(c.(netOuts := c.netOuts + [outs[i]]), outs, i + 1, ok);
      assert outs[i..] == [outs[i]] + outs[i + 1..];
      assert c.netOuts + [outs[i]] + outs[i + 1..] == c.netOuts + outs[i..];
    } else {
      assert c.netOuts + outs[i..] == c.netOuts;
    }
  }

  lemma {:induction false} RestoreProcessesAdds(m: map<nat, bool>, ps: seq<ProcessSnapshot>)
    requires forall i, j :: 0 <= i < j < |ps| ==> ps[i].id != ps[j].id
    ensures var m' := RestoreProcesses(m, ps);
            && (forall p :: p in ps ==> p.id in m' && m'[p.id] == p.tty)
            && (forall id :: id in m' ==> id in m || exists p :: p in ps && p.id == id)
            && (forall id :: id in m && (forall p :: p in ps ==> p.id != id) ==> id in m' && m'[id] == m[id])
    decreases |ps|
  {
    if ps != [] {
      var m1 := m[ps[0].id := ps[0].tty];
      RestoreProcessesAdds(m1, ps[1..]);
      assert ps == [ps[0]] + ps[1..];
      var m' := RestoreProcesses(m1, ps[1..]);
      assert forall p :: p in ps[1..] ==> p.id != ps[0].id;
      forall id | id in m' ensures id in m || exists p :: p in ps && p.id == id {
        if id in m1 {
          assert id == ps[0].id ==> ps[0] in ps;
        } else {
          var p :| p in ps[1..] && p.id == id;
          assert p in ps;
        }
      }
    }
  }

  /** The replay of a reachable container's snapshot into a new container succeeds,
      leaves the port pool alone and gives back the container, except for its CPU,
      disk and bandwidth limits. */
  lemma RestoreRebuilds(c: Container, s: Snapshot, pool: seq<nat>, cmds: Commands)
    requires Replayable(c) && IsSnapshot(c, s) && AllSucceed(cmds)
    ensures RestoreOf(NewContainer(s.who, s.ports), pool, s, cmds) ==
              (c.(limits := NO_LIMITS.(memory := c.limits.memory), oomNotifier := c.limits.memory.Some?), pool, true)
  {
    var c1 := NewContainer(s.who, s.ports).(state := s.state, events := s.events);
    assert [] + s.events == s.events;
    var c2 := c1.(limits := NO_LIMITS.(memory := c.limits.memory), oomNotifier := c.limits.memory.Some?);
    RestoreProcessesAdds(map[], s.processes);
    assert RestoreProcesses(map[], s.processes) == c.processes;
    var c3 := c2.(processes := c.processes);
    assert Prepared(NewContainer(s.who, s.ports), s, cmds) == (c3, true);
    ReplayInsAppends(c3, pool, s.netIns, 0, cmds.netIn);
    assert s.netIns[0..] == s.netIns && c3.netIns + s.netIns == s.netIns;
    var c4 := c3.(netIns := s.netIns);
    ReplayOutsAppends(c4, s.netOuts, 0, cmds.netOut);
    assert s.netOuts[0..] == s.netOuts && c4.netOuts + s.netOuts == s.netOuts;
  }

  lemma ListsTheSame(ps: seq<ProcessSnapshot>, qs: seq<ProcessSnapshot>, m: map<nat, bool>)
    requires Lists(ps, m) && Lists(qs, m)
    ensures multiset(ps) == multiset(qs)
  {
    SameElements(ps, qs);
    forall p ensures p in ps <==> p in qs {
      assert p in ps ==> p == ProcessSnapshot(p.id, m[p.id]);
      assert p in qs ==> p == ProcessSnapshot(p.id, m[p.id]);
    }
  }

  /** Snapshot, restore, snapshot gives the same snapshot up to the order of the
      processes and the CPU, disk and bandwidth limits; and these too exactly when
      none of the three was set. */
  lemma SnapshotRoundTrip(c: Container, s: Snapshot, pool: seq<nat>, cmds: Commands, s': Snapshot)
    requires Reachable(c) && IsSnapshot(c, s) && AllSucceed(cmds)
    requires IsSnapshot(RestoreOf(NewContainer(s.who, s.ports), pool, s, cmds).0, s')
    ensures RestoreOf(NewContainer(s.who, s.ports), pool, s, cmds).2
    ensures RestoreOf(NewContainer(s.who, s.ports), pool, s, cmds).1 == pool
    ensures s' == s.(limits := NO_LIMITS.(memory := s.limits.memory), processes := s'.processes)
    ensures multiset(s'.processes) == multiset(s.processes)
    ensures s'.limits == s.limits <==> s.limits.cpu.None? && s.limits.disk.None? && s.limits.bandwidth.None?
  {
    ReachableIsReplayable(c);
    RestoreRebuilds(c, s, pool, cmds);
    ListsTheSame(s'.processes, s.processes, c.processes);
  }
}
