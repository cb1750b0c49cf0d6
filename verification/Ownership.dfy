/** Who owns the uids, networks and ports: the free lists of the three pools, the
    live containers of the backend, and what error returns dropped. Each operation
    of the backend is one atomic step; the outcomes of scripts and files are part
    of the operation. */
module Ownership {
  import opened Common
  import opened Subnets

  /** The numbers from start up to start+size in uint32 arithmetic: none if it wraps. */
  function Range(start: nat, size: nat): seq<nat> {
    var end := (start + size) % UINT32;
    if start < end then seq(end - start, i requires 0 <= i => start + i) else []
  }

  predicate InRange(start: nat, size: nat, x: nat) {
    start <= x < (start + size) % UINT32
  }

  /** The list without the first occurrence of x. */
  function Without<T(==)>(s: seq<T>, x: T): seq<T> {
    if s == [] then [] else if s[0] == x then s[1..] else [s[0]] + Without(s[1..], x)
  }

  lemma {:induction false} WithoutAt<T>(s: seq<T>, i: nat, x: T)
    requires i < |s| && s[i] == x && forall j :: 0 <= j < i ==> s[j] != x
    ensures Without(s, x) == s[..i] + s[i + 1..]
  {
    if i > 0 {
      WithoutAt(s[1..], i - 1, x);
      assert s[..i] == [s[0]] + s[1..][..i - 1];
    }
  }

  /** On a duplicate-free list that holds x, exactly x goes. */
  lemma WithoutDistinct<T>(s: seq<T>, x: T)
    requires Distinct(s) && x in s
    ensures Distinct(Without(s, x)) && x !in Without(s, x) && |Without(s, x)| == |s| - 1
    ensures forall y :: y in Without(s, x) <==> y in s && y != x
  {
    var i :| 0 <= i < |s| && s[i] == x;
    WithoutAt(s, i, x);
    var r := s[..i] + s[i + 1..];
    forall y | y in s && y != x ensures y in r {
      var j :| 0 <= j < |s| && s[j] == y;
      assert y == if j < i then r[j] else r[j - 1];
    }
  }

  datatype Config = Config(uidStart: nat, uidSize: nat, cidr: IPNet, portStart: nat, portSize: nat)

  ghost predicate ValidConfig(c: Config) { IsCidr(c.cidr) }

  datatype Holding = Holding(uid: nat, net: Network, ports: seq<nat>)

  /** The free lists, and what was acquired and then dropped without a release. */
  datatype Stock = Stock(
    uids: seq<nat>, nets: seq<Network>, ports: seq<nat>,
    lostUids: set<nat>, lostNets: set<IPNet>, lostPorts: set<nat>)

  // ---- Networks by range ------------------------------------------------------------

  /** The identity of a network: what its String method shows. */
  function Keys(ns: seq<Network>): (r: seq<IPNet>)
    ensures |r| == |ns|
  {
    seq(|ns|, i requires 0 <= i < |ns| => ns[i].ipNet)
  }

  /** The list without its first network of that range. */
  function WithoutKey(ns: seq<Network>, key: IPNet): seq<Network> {
    if ns == [] then [] else if ns[0].ipNet == key then ns[1..] else [ns[0]] + WithoutKey(ns[1..], key)
  }

  lemma {:induction false} KeysWithout(ns: seq<Network>, key: IPNet)
    ensures Keys(WithoutKey(ns, key)) == Without(Keys(ns), key)
  {
    if ns != [] {
      KeysWithout(ns[1..], key);
      assert Keys(ns)[1..] == Keys(ns[1..]);
      if ns[0].ipNet != key {
        KeysConcat([ns[0]], WithoutKey(ns[1..], key));
        assert Keys([ns[0]]) == [ns[0].ipNet];
      }
    }
  }

  lemma KeysConcat(ms: seq<Network>, ns: seq<Network>)
    ensures Keys(ms + ns) == Keys(ms) + Keys(ns)
  {
  }

  lemma KeysSnoc(ns: seq<Network>, n: Network)
    ensures Keys(ns + [n]) == Keys(ns) + [n.ipNet]
  {
    KeysConcat(ns, [n]);
  }

  lemma {:induction false} WithoutKeyAt(ns: seq<Network>, key: IPNet, i: nat)
    requires i < |ns| && ns[i].ipNet == key && forall j :: 0 <= j < i ==> ns[j].ipNet != key
    ensures WithoutKey(ns, key) == ns[..i] + ns[i + 1..]
  {
    if i > 0 {
      WithoutKeyAt(ns[1..], key, i - 1);
      assert ns[..i] + ns[i + 1..] == [ns[0]] + (ns[1..][..i - 1] + ns[1..][i..]);
    }
  }

  lemma {:induction false} WithoutKeyRest(ns: seq<Network>, key: IPNet)
    ensures forall n :: n in WithoutKey(ns, key) ==> n in ns
  {
    if ns != [] { WithoutKeyRest(ns[1..], key); }
  }

  // ---- The pools ------------------------------------------------------------------

  function ReleaseUid(c: Config, k: Stock, uid: nat): Stock {
    if InRange(c.uidStart, c.uidSize, uid) then k.(uids := k.uids + [uid]) else k
  }

  function ReleaseNet(c: Config, k: Stock, net: Network): Stock
    requires c.cidr.ones <= 32
  {
    if Contains(c.cidr, net.ipNet.ip) then k.(nets := k.nets + [net]) else k
  }

  function ReleasePort(c: Config, k: Stock, port: nat): Stock {
    if !InRange(c.portStart, c.portSize, port) || port in k.ports then k else k.(ports := k.ports + [port])
  }

  function ReleasePorts(c: Config, k: Stock, ports: seq<nat>): Stock
    decreases |ports|
  {
    if ports == [] then k else ReleasePorts(c, ReleasePort(c, k, ports[0]), ports[1..])
  }

  function Lose(k: Stock, h: Holding): Stock {
    k.(lostUids := k.lostUids + {h.uid}, lostNets := k.lostNets + {h.net.ipNet},
       lostPorts := k.lostPorts + set p | p in h.ports)
  }

  // ---- The container pool ------------------------------------------------------------

  /** Where the creation of a container stops: before its script ran, at the script,
      at the files written after it, or not at all. */
  datatype CreateOutcome = RootFSFails | ScriptFails | FilesFail | Created

  function PoolCreate(c: Config, k: Stock, o: CreateOutcome): (Stock, Option<Holding>)
    requires c.cidr.ones <= 32
  {
    if k.uids == [] then (k, None) else
    var k1 := k.(uids := k.uids[1..]);
    if k.nets == [] then (ReleaseUid(c, k1, k.uids[0]), None) else
    var k2 := k1.(nets := k.nets[1..]);
    var h := Holding(k.uids[0], k.nets[0], []);
    match o
    case RootFSFails => (Lose(k2, h), None)
    case ScriptFails => (ReleaseNet(c, ReleaseUid(c, k2, h.uid), h.net), None)
    case FilesFail => (Lose(k2, h), None)
    case Created => (k2, Some(h))
  }

  /** Replaying a snapshot into the new container takes `acquired` further ports
      from the pool (one for each recorded mapping of host port 0), then succeeds or not. */
  datatype Replay = Replay(acquired: nat, ok: bool)

  /** Takes the ports out of the free list one by one, stopping at a missing one. */
  function RemovePorts(free: seq<nat>, ports: seq<nat>): (seq<nat>, bool)
    decreases |ports|
  {
    if ports == [] then (free, true)
    else if ports[0] in free then RemovePorts(Without(free, ports[0]), ports[1..])
    else (free, false)
  }

  /** Taking a snapshot's uid, network and ports off the free lists, with the error
      returns of each. The network is found by its range; what an error return puts back
      is the snapshot's own, with the snapshot's addresses. */
  function Claim(c: Config, k: Stock, h: Holding): (Stock, bool)
    requires c.cidr.ones <= 32
  {
    if h.uid !in k.uids then (k, false) else
    var k1 := k.(uids := Without(k.uids, h.uid));
    if h.net.ipNet !in Keys(k1.nets) then (ReleaseUid(c, k1, h.uid), false) else
    var k2 := k1.(nets := WithoutKey(k1.nets, h.net.ipNet));
    var (left, ok) := RemovePorts(k.ports, h.ports);
    var k3 := k2.(ports := left);
    if ok then (k3, true)
    else (ReleasePorts(c, ReleaseNet(c, ReleaseUid(c, k3, h.uid), h.net), h.ports), false)
  }

  /** The replay takes its ports from the head of the list. */
  function Build(k: Stock, h: Holding, r: Replay): (Stock, Option<Holding>) {
    var n := if r.acquired <= |k.ports| then r.acquired else |k.ports|;
    var h' := h.(ports := h.ports + k.ports[..n]);
    var k' := k.(ports := k.ports[n..]);
    if r.ok && n == r.acquired then (k', Some(h')) else (Lose(k', h'), None)
  }

  function PoolRestore(c: Config, k: Stock, h: Holding, r: Replay): (Stock, Option<Holding>)
    requires c.cidr.ones <= 32
  {
    var (k', ok) := Claim(c, k, h);
    if ok then Build(k', h, r) else (k', None)
  }

  function PoolDestroy(c: Config, k: Stock, h: Holding): Stock
    requires c.cidr.ones <= 32
  {
    ReleaseNet(c, ReleaseUid(c, ReleasePorts(c, k, h.ports), h.uid), h.net)
  }

  // ---- The backend ---------------------------------------------------------------------

  datatype Ledger = Ledger(stock: Stock, live: map<string, Holding>)

  datatype Op =
    | Create(handle: string, outcome: CreateOutcome, starts: bool)
    | Destroy(handle: string, ok: bool)
    | Restore(handle: string, saved: Holding, replay: Replay)
    | NetIn(handle: string, hostPort: nat)

  /** Enters a container under its handle; a container already there is dropped. */
  function Install(l: Ledger, handle: string, h: Holding): Ledger {
    Ledger(if handle in l.live then Lose(l.stock, l.live[handle]) else l.stock, l.live[handle := h])
  }

  function Apply(c: Config, l: Ledger, op: Op): Ledger
    requires c.cidr.ones <= 32
  {
    match op
    case Create(handle, outcome, starts) =>
      (match PoolCreate(c, l.stock, outcome)
       case (k, None) => l.(stock := k)
       case (k, Some(h)) => if starts then Install(l.(stock := k), handle, h) else l.(stock := Lose(k, h)))
    case Destroy(handle, ok) =>
      if handle !in l.live || !ok then l
      else Ledger(PoolDestroy(c, l.stock, l.live[handle]), l.live - {handle})
    case Restore(handle, saved, replay) =>
      (match PoolRestore(c, l.stock, saved, replay)
       case (k, None) => l.(stock := k)
       case (k, Some(h)) => Install(l.(stock := k), handle, h))
    case NetIn(handle, hostPort) =>
      if handle !in l.live || hostPort != 0 || l.stock.ports == [] then l else
      var h := l.live[handle];
      Ledger(l.stock.(ports := l.stock.ports[1..]), l.live[handle := h.(ports := h.ports + [l.stock.ports[0]])])
  }

  function Run(c: Config, l: Ledger, ops: seq<Op>): Ledger
    requires c.cidr.ones <= 32
    decreases |ops|
  {
    if ops == [] then l else Run(c, Apply(c, l, ops[0]), ops[1..])
  }

  ghost function NetKeys(c: Config): seq<IPNet>
    requires c.cidr.ones <= 32
  {
    Keys(Blocks(c.cidr))
  }

  ghost function InitialLedger(c: Config): Ledger
    requires c.cidr.ones <= 32
  {
    Ledger(Stock(Range(c.uidStart, c.uidSize), Blocks(c.cidr), Range(c.portStart, c.portSize), {}, {}, {}), map[])
  }

  // ---- The partition --------------------------------------------------------------------

  /** Every element of `all` is in exactly one place: once in the free list, with
      exactly one holder, or lost; and nothing else is anywhere. */
  ghost predicate Partition<T(!new)>(all: set<T>, free: seq<T>, held: map<string, set<T>>, lost: set<T>) {
    && Distinct(free)
    && (forall x :: x in free ==> x in all && x !in lost)
    && lost <= all
    && (forall h, x :: h in held && x in held[h] ==> x in all && x !in free && x !in lost)
    && (forall g, h, x :: g in held && h in held && x in held[g] && x in held[h] ==> g == h)
    && (forall x :: x in all ==> x in free || x in lost || exists h :: h in held && x in held[h])
  }

  ghost function Uids(c: Config): set<nat> { set u | u in Range(c.uidStart, c.uidSize) }

  ghost function Nets(c: Config): set<IPNet>
    requires c.cidr.ones <= 32
  {
    set n | n in NetKeys(c)
  }

  ghost function Ports(c: Config): set<nat> { set p | p in Range(c.portStart, c.portSize) }

  ghost function UidsOf(live: map<string, Holding>): map<string, set<nat>> { map h | h in live :: {live[h].uid} }

  ghost function NetsOf(live: map<string, Holding>): map<string, set<IPNet>> {
    map h | h in live :: {live[h].net.ipNet}
  }

  ghost function PortsOf(live: map<string, Holding>): map<string, set<nat>> {
    map h | h in live :: set p | p in live[h].ports
  }

  ghost predicate UidInv(c: Config, l: Ledger) {
    Partition(Uids(c), l.stock.uids, UidsOf(l.live), l.stock.lostUids)
  }

  ghost predicate NetInv(c: Config, l: Ledger)
    requires c.cidr.ones <= 32
  {
    Partition(Nets(c), Keys(l.stock.nets), NetsOf(l.live), l.stock.lostNets)
  }

  ghost predicate PortInv(c: Config, l: Ledger) {
    && Partition(Ports(c), l.stock.ports, PortsOf(l.live), l.stock.lostPorts)
    && forall h :: h in l.live ==> Distinct(l.live[h].ports)
  }

  // The elementary moves. An element in transit counts as lost.

  lemma FreeToLost<T(!new)>(
      all: set<T>, free: seq<T>, held: map<string, set<T>>, lost: set<T>, xs: set<T>, rest: seq<T>)
    requires Partition(all, free, held, lost) && Distinct(rest)
    requires forall x :: x in xs ==> x in free
    requires forall y :: y in rest <==> y in free && y !in xs
    ensures Partition(all, rest, held, lost + xs)
  {
  }

  lemma LostToFree<T(!new)>(
      all: set<T>, free: seq<T>, held: map<string, set<T>>, lost: set<T>, xs: set<T>, more: seq<T>)
    requires Partition(all, free, held, lost + xs) && lost !! xs && Distinct(more)
    requires forall y :: y in more <==> y in free || y in xs
    ensures Partition(all, more, held, lost)
  {
  }

  lemma HolderToLost<T(!new)>(all: set<T>, free: seq<T>, held: map<string, set<T>>, lost: set<T>, h: string)
    requires Partition(all, free, held, lost) && h in held
    ensures Partition(all, free, held - {h}, lost + held[h])
  {
    forall x | x in all && x !in free && x !in lost + held[h]
      ensures exists g :: g in held - {h} && x in (held - {h})[g]
    {
      var g :| g in held && x in held[g];
      assert g in held - {h} && x in (held - {h})[g];
    }
  }

  lemma LostToHolder<T(!new)>(all: set<T>, free: seq<T>, held: map<string, set<T>>, lost: set<T>, h: string, xs: set<T>)
    requires Partition(all, free, held, lost + xs) && lost !! xs && h !in held
    ensures Partition(all, free, held[h := xs], lost)
  {
    var held' := held[h := xs];
    forall x | x in all && x !in free && x !in lost ensures exists g :: g in held' && x in held'[g] {
      if x in xs {
        assert h in held' && x in held'[h];
      } else {
        var g :| g in held && x in held[g];
        assert g in held' && x in held'[g];
      }
    }
  }

  /** Dropping a container loses what it holds. */
  lemma DropKeeps(c: Config, l: Ledger, handle: string)
    requires c.cidr.ones <= 32 && handle in l.live
    ensures var l' := Ledger(Lose(l.stock, l.live[handle]), l.live - {handle});
            (UidInv(c, l) ==> UidInv(c, l')) && (NetInv(c, l) ==> NetInv(c, l')) && (PortInv(c, l) ==> PortInv(c, l'))
  {
    var rest := l.live - {handle};
    assert UidsOf(rest) == UidsOf(l.live) - {handle};
    assert NetsOf(rest) == NetsOf(l.live) - {handle};
    assert PortsOf(rest) == PortsOf(l.live) - {handle};
    if UidInv(c, l) { HolderToLost(Uids(c), l.stock.uids, UidsOf(l.live), l.stock.lostUids, handle); }
    if NetInv(c, l) { HolderToLost(Nets(c), Keys(l.stock.nets), NetsOf(l.live), l.stock.lostNets, handle); }
    if PortInv(c, l) { HolderToLost(Ports(c), l.stock.ports, PortsOf(l.live), l.stock.lostPorts, handle); }
  }

  /** What is in transit, counted as lost, can be given to a container. */
  lemma ClaimKeeps(c: Config, k: Stock, live: map<string, Holding>, handle: string, h: Holding)
    requires c.cidr.ones <= 32 && handle !in live
    ensures var l, l' := Ledger(Lose(k, h), live), Ledger(k, live[handle := h]);
            (UidInv(c, l) && h.uid !in k.lostUids ==> UidInv(c, l'))
            && (NetInv(c, l) && h.net.ipNet !in k.lostNets ==> NetInv(c, l'))
            && (PortInv(c, l) && Distinct(h.ports) && (forall p :: p in h.ports ==> p !in k.lostPorts) ==>
                  PortInv(c, l'))
  {
    var l, live' := Ledger(Lose(k, h), live), live[handle := h];
    var ps := set p | p in h.ports;
    assert UidsOf(live') == UidsOf(live)[handle := {h.uid}];
    assert NetsOf(live') == NetsOf(live)[handle := {h.net.ipNet}];
    assert PortsOf(live') == PortsOf(live)[handle := ps];
    if UidInv(c, l) && h.uid !in k.lostUids {
      LostToHolder(Uids(c), k.uids, UidsOf(live), k.lostUids, handle, {h.uid});
    }
    if NetInv(c, l) && h.net.ipNet !in k.lostNets {
      LostToHolder(Nets(c), Keys(k.nets), NetsOf(live), k.lostNets, handle, {h.net.ipNet});
    }
    if PortInv(c, l) && forall p :: p in h.ports ==> p !in k.lostPorts {
      LostToHolder(Ports(c), k.ports, PortsOf(live), k.lostPorts, handle, ps);
    }
  }

  lemma InstallKeeps(c: Config, k: Stock, live: map<string, Holding>, handle: string, h: Holding)
    requires c.cidr.ones <= 32
    ensures var l, l' := Ledger(Lose(k, h), live), Install(Ledger(k, live), handle, h);
            (UidInv(c, l) && h.uid !in k.lostUids ==> UidInv(c, l'))
            && (NetInv(c, l) && h.net.ipNet !in k.lostNets ==> NetInv(c, l'))
            && (PortInv(c, l) && Distinct(h.ports) && (forall p :: p in h.ports ==> p !in k.lostPorts) ==>
                  PortInv(c, l'))
  {
    var l := Ledger(Lose(k, h), live);
    if handle in live {
      var gone, rest := live[handle], live - {handle};
      DropKeeps(c, l, handle);
      assert Lose(Lose(k, h), gone) == Lose(Lose(k, gone), h);
      assert handle in UidsOf(live) && handle in NetsOf(live) && handle in PortsOf(live);
      ClaimKeeps(c, Lose(k, gone), rest, handle, h);
      assert rest[handle := h] == live[handle := h];
    } else {
      ClaimKeeps(c, k, live, handle, h);
    }
  }

  lemma Pools(c: Config)
    requires ValidConfig(c)
    ensures forall u: nat :: u in Uids(c) <==> InRange(c.uidStart, c.uidSize, u)
    ensures forall p: nat :: p in Ports(c) <==> InRange(c.portStart, c.portSize, p)
    ensures forall n :: n in Nets(c) ==> Contains(c.cidr, n.ip)
    ensures Distinct(Range(c.uidStart, c.uidSize)) && Distinct(Range(c.portStart, c.portSize)) && Distinct(NetKeys(c))
  {
    RangeMembers(c.uidStart, c.uidSize);
    RangeMembers(c.portStart, c.portSize);
    forall n | n in Nets(c) ensures Contains(c.cidr, n.ip) {
      var i :| 0 <= i < |NetKeys(c)| && NetKeys(c)[i] == n;
      PoolInsideCidr(c.cidr, i);
    }
    forall i, j | 0 <= i < j < |NetKeys(c)| ensures NetKeys(c)[i] != NetKeys(c)[j] {
      PoolAddressesDistinct(c.cidr, i, j, true, true);
    }
  }

  lemma RangeMembers(start: nat, size: nat)
    ensures Distinct(Range(start, size))
    ensures forall x: nat :: x in Range(start, size) <==> InRange(start, size, x)
  {
    var r := Range(start, size);
    forall x: nat | InRange(start, size, x) ensures x in r {
      assert r[x - start] == x;
    }
  }

  lemma StartBalanced(c: Config)
    requires ValidConfig(c)
    ensures UidInv(c, InitialLedger(c)) && NetInv(c, InitialLedger(c)) && PortInv(c, InitialLedger(c))
  {
    Pools(c);
  }

  // ---- Every operation keeps the uids and networks ------------------------------------------

  /** Taking x off a free list puts it in transit; releasing it then appends it. */
  lemma TakeAndReturn<T(!new)>(all: set<T>, free: seq<T>, held: map<string, set<T>>, lost: set<T>, x: T)
    requires Partition(all, free, held, lost) && x in free
    ensures x in all && x !in lost
    ensures Partition(all, Without(free, x), held, lost + {x})
    ensures Partition(all, Without(free, x) + [x], held, lost)
  {
    var rest := Without(free, x);
    WithoutDistinct(free, x);
    FreeToLost(all, free, held, lost, {x}, rest);
    LostToFree(all, rest, held, lost, {x}, rest + [x]);
  }

  ghost predicate OwnInv(c: Config, l: Ledger)
    requires c.cidr.ones <= 32
  {
    UidInv(c, l) && NetInv(c, l)
  }

  /** A uid and a network taken off their lists, in transit. */
  lemma TakeBoth(c: Config, l: Ledger, uid: nat, key: IPNet)
    requires c.cidr.ones <= 32 && OwnInv(c, l) && uid in l.stock.uids && key in Keys(l.stock.nets)
    ensures var k := l.stock; var k2 := k.(uids := Without(k.uids, uid), nets := WithoutKey(k.nets, key));
            uid !in k.lostUids && key !in k.lostNets
            && OwnInv(c, Ledger(k2.(lostUids := k.lostUids + {uid}, lostNets := k.lostNets + {key}), l.live))
  {
    var k := l.stock;
    TakeAndReturn(Uids(c), k.uids, UidsOf(l.live), k.lostUids, uid);
    TakeAndReturn(Nets(c), Keys(k.nets), NetsOf(l.live), k.lostNets, key);
    KeysWithout(k.nets, key);
  }

  /** An error return that puts back the uid, and a network of the range if one was taken. */
  lemma PutBack(c: Config, l: Ledger, uid: nat, net: Network)
    requires ValidConfig(c) && OwnInv(c, l) && uid in l.stock.uids
    ensures var k := l.stock; var k1 := k.(uids := Without(k.uids, uid));
            var k2 := k1.(nets := WithoutKey(k.nets, net.ipNet));
            OwnInv(c, Ledger(ReleaseUid(c, k1, uid), l.live))
            && (net.ipNet in Keys(k.nets) ==> OwnInv(c, Ledger(ReleaseNet(c, ReleaseUid(c, k2, uid), net), l.live)))
  {
    Pools(c);
    var k := l.stock;
    TakeAndReturn(Uids(c), k.uids, UidsOf(l.live), k.lostUids, uid);
    if net.ipNet in Keys(k.nets) {
      TakeAndReturn(Nets(c), Keys(k.nets), NetsOf(l.live), k.lostNets, net.ipNet);
      KeysWithout(k.nets, net.ipNet);
      KeysSnoc(WithoutKey(k.nets, net.ipNet), net);
    }
  }

  lemma CreateKeeps(c: Config, l: Ledger, handle: string, o: CreateOutcome, starts: bool)
    requires ValidConfig(c) && OwnInv(c, l)
    ensures var l' := Apply(c, l, Create(handle, o, starts)); OwnInv(c, l') && (PortInv(c, l) ==> PortInv(c, l'))
  {
    var k := l.stock;
    if k.uids != [] {
      assert Without(k.uids, k.uids[0]) == k.uids[1..];
      if k.nets == [] {
        PutBack(c, l, k.uids[0], NewNetwork(c.cidr));
      } else {
        assert WithoutKey(k.nets, k.nets[0].ipNet) == k.nets[1..];
        assert Keys(k.nets)[0] == k.nets[0].ipNet;
        var h := Holding(k.uids[0], k.nets[0], []);
        var k2 := k.(uids := k.uids[1..], nets := k.nets[1..]);
        if o == ScriptFails {
          PutBack(c, l, h.uid, h.net);
        } else {
          TakeBoth(c, l, h.uid, h.net.ipNet);
          assert Lose(k2, h).lostPorts == k.lostPorts;
          InstallKeeps(c, k2, l.live, handle, h);
        }
      }
    }
  }

  lemma HeadToTail<T>(s: seq<T>)
    requires s != []
    ensures multiset(s[1..] + [s[0]]) == multiset(s) && multiset(s[1..]) != multiset(s)
  {
    assert s == [s[0]] + s[1..];
    assert |multiset(s[1..])| < |multiset(s)|;
  }

  ghost predicate SameFree(k: Stock, k': Stock) {
    multiset(k'.uids) == multiset(k.uids) && multiset(k'.nets) == multiset(k.nets)
  }

  lemma PoolCreateGivesBackIff(c: Config, k: Stock, o: CreateOutcome)
    requires c.cidr.ones <= 32
    requires k.uids != [] ==> InRange(c.uidStart, c.uidSize, k.uids[0])
    requires k.nets != [] ==> Contains(c.cidr, k.nets[0].ipNet.ip)
    ensures SameFree(k, PoolCreate(c, k, o).0) <==> k.uids == [] || k.nets == [] || o == ScriptFails
  {
    if k.uids != [] {
      HeadToTail(k.uids);
      if k.nets != [] { HeadToTail(k.nets); }
    }
  }

  /** A create that yields no container leaves the free lists with the same elements
      exactly when a pool was empty or the creation script is what failed: a root file
      system or a file that fails, or a container that does not start, keeps its uid and
      network out of the pools. */
  lemma FailedCreateGivesBackIff(c: Config, l: Ledger, handle: string, o: CreateOutcome, starts: bool)
    requires ValidConfig(c) && OwnInv(c, l) && (o != Created || !starts)
    ensures var k, l' := l.stock, Apply(c, l, Create(handle, o, starts));
            l'.live == l.live && (SameFree(k, l'.stock) <==> k.uids == [] || k.nets == [] || o == ScriptFails)
  {
    Pools(c);
    var k := l.stock;
    assert k.uids != [] ==> k.uids[0] in Uids(c);
    assert k.nets != [] ==> Keys(k.nets)[0] in Nets(c);
    PoolCreateGivesBackIff(c, k, o);
  }

  lemma {:induction false} ReleasePortsMembers(c: Config, k: Stock, ports: seq<nat>)
    ensures forall p: nat :: p in ReleasePorts(c, k, ports).ports <==>
              p in k.ports || (p in ports && InRange(c.portStart, c.portSize, p))
    decreases |ports|
  {
    if ports != [] {
      ReleasePortsMembers(c, ReleasePort(c, k, ports[0]), ports[1..]);
      assert forall p :: p in ports <==> p == ports[0] || p in ports[1..];
    }
  }

  lemma {:induction false} ReleasePortsAdds(c: Config, k: Stock, ports: seq<nat>)
    requires Distinct(k.ports)
    ensures var k' := ReleasePorts(c, k, ports);
            k' == k.(ports := k'.ports) && Distinct(k'.ports)
            && forall p: nat :: p in k'.ports <==> p in k.ports || (p in ports && InRange(c.portStart, c.portSize, p))
    decreases |ports|
  {
    if ports != [] {
      ReleasePortsAdds(c, ReleasePort(c, k, ports[0]), ports[1..]);
      assert forall p :: p in ports <==> p == ports[0] || p in ports[1..];
    }
  }

  lemma DestroyKeeps(c: Config, l: Ledger, handle: string)
    requires ValidConfig(c) && handle in l.live && OwnInv(c, l)
    ensures var l' := Apply(c, l, Destroy(handle, true)); OwnInv(c, l') && (PortInv(c, l) ==> PortInv(c, l'))
  {
    Pools(c);
    var k, h, rest := l.stock, l.live[handle], l.live - {handle};
    assert handle in UidsOf(l.live) && handle in NetsOf(l.live) && handle in PortsOf(l.live);
    DropKeeps(c, l, handle);
    LostToFree(Uids(c), k.uids, UidsOf(rest), k.lostUids, {h.uid}, k.uids + [h.uid]);
    LostToFree(Nets(c), Keys(k.nets), NetsOf(rest), k.lostNets, {h.net.ipNet}, Keys(k.nets) + [h.net.ipNet]);
    KeysSnoc(k.nets, h.net);
    ReleasePortsKeepsRest(c, k, h.ports);
    if PortInv(c, l) {
      ReleasePortsAdds(c, k, h.ports);
      LostToFree(Ports(c), k.ports, PortsOf(rest), k.lostPorts, (set p | p in h.ports),
                 ReleasePorts(c, k, h.ports).ports);
    }
  }

  lemma {:induction false} ReleasePortsKeepsRest(c: Config, k: Stock, ports: seq<nat>)
    ensures var k' := ReleasePorts(c, k, ports); k' == k.(ports := k'.ports)
    decreases |ports|
  {
    if ports != [] { ReleasePortsKeepsRest(c, ReleasePort(c, k, ports[0]), ports[1..]); }
  }

  lemma DistinctConcat<T>(s: seq<T>, t: seq<T>)
    ensures Distinct(s + t) <==> Distinct(s) && Distinct(t) && forall x :: x in s ==> x !in t
  {
    var u := s + t;
    if Distinct(u) {
      assert forall i :: 0 <= i < |s| ==> s[i] == u[i];
      assert forall j :: 0 <= j < |t| ==> t[j] == u[|s| + j];
      forall x | x in s ensures x !in t {
        var i :| 0 <= i < |s| && s[i] == x;
      }
    }
    if Distinct(s) && Distinct(t) && forall x :: x in s ==> x !in t {
      forall i, j | 0 <= i < j < |u| ensures u[i] != u[j] {
        if i < |s| <= j {
          assert u[i] in s && u[j] == t[j - |s|];
        }
      }
    }
  }

  lemma {:induction false} RemovePortsTakes(free: seq<nat>, ports: seq<nat>)
    requires Distinct(free)
    ensures var (left, ok) := RemovePorts(free, ports);
            && Distinct(left)
            && (ok <==> Distinct(ports) && forall p :: p in ports ==> p in free)
            && (ok ==> forall p :: p in left <==> p in free && p !in ports)
            && (forall p :: p in left ==> p in free)
            && (forall p :: p in free ==> p in left || p in ports)
    decreases |ports|
  {
    if ports != [] {
      var x, more := ports[0], ports[1..];
      assert ports == [x] + more;
      DistinctConcat([x], more);
      if x in free {
        WithoutDistinct(free, x);
        RemovePortsTakes(Without(free, x), more);
      }
    }
  }

  /** The snapshot's uid and range are free, so its ports are looked at. */
  ghost predicate Reaches(k: Stock, h: Holding) {
    h.uid in k.uids && h.net.ipNet in Keys(k.nets)
  }

  /** The pool accepts a snapshot: its uid, its network and all its ports are free. */
  ghost predicate Accepts(k: Stock, h: Holding) {
    Reaches(k, h) && RemovePorts(k.ports, h.ports).1
  }

  /** Uids and networks survive any restore, whatever the snapshot holds. */
  lemma RestoreKeeps(c: Config, l: Ledger, handle: string, h: Holding, r: Replay)
    requires ValidConfig(c) && OwnInv(c, l)
    ensures OwnInv(c, Apply(c, l, Restore(handle, h, r)))
  {
    var k := l.stock;
    if h.uid in k.uids && h.net.ipNet !in Keys(k.nets) {
      PutBack(c, l, h.uid, h.net);
    } else if Reaches(k, h) {
      var k2 := k.(uids := Without(k.uids, h.uid), nets := WithoutKey(k.nets, h.net.ipNet));
      var left := RemovePorts(k.ports, h.ports).0;
      if Accepts(k, h) {
        var n := if r.acquired <= |left| then r.acquired else |left|;
        TakeBoth(c, l, h.uid, h.net.ipNet);
        InstallKeeps(c, k2.(ports := left[n..]), l.live, handle, h.(ports := h.ports + left[..n]));
      } else {
        PutBack(c, l, h.uid, h.net);
        ReleasePortsKeepsRest(c, ReleaseNet(c, ReleaseUid(c, k2.(ports := left), h.uid), h.net), h.ports);
      }
    }
  }

  lemma TakePrefix(free: seq<nat>, n: nat)
    requires Distinct(free) && n <= |free|
    ensures Distinct(free[..n]) && Distinct(free[n..])
    ensures forall p :: p in free[n..] <==> p in free && p !in free[..n]
    ensures forall p :: p in free[..n] ==> p in free
  {
    assert free == free[..n] + free[n..];
    forall p | p in free[n..] ensures p !in free[..n] {
      var i :| n <= i < |free| && free[i] == p;
    }
  }

  lemma AcceptedRestoreKeepsPorts(c: Config, l: Ledger, handle: string, h: Holding, r: Replay)
    requires ValidConfig(c) && PortInv(c, l) && Accepts(l.stock, h)
    ensures PortInv(c, Apply(c, l, Restore(handle, h, r)))
  {
    var k := l.stock;
    var left := RemovePorts(k.ports, h.ports).0;
    RemovePortsTakes(k.ports, h.ports);
    var n := if r.acquired <= |left| then r.acquired else |left|;
    TakePrefix(left, n);
    var h' := h.(ports := h.ports + left[..n]);
    var taken := set p | p in h'.ports;
    DistinctConcat(h.ports, left[..n]);
    var k4 := k.(uids := Without(k.uids, h.uid), nets := WithoutKey(k.nets, h.net.ipNet), ports := left[n..]);
    FreeToLost(Ports(c), k.ports, PortsOf(l.live), k.lostPorts, taken, left[n..]);
    InstallKeeps(c, k4, l.live, handle, h');
  }

  /** What the port loop leaves when it fails, before anything is put back. */
  ghost function TakenUpTo(k: Stock, h: Holding): Stock {
    k.(uids := Without(k.uids, h.uid), nets := WithoutKey(k.nets, h.net.ipNet),
       ports := RemovePorts(k.ports, h.ports).0)
  }

  /** The port list after the error return of the port loop: what it was, and every
      in-range port of the snapshot. */
  lemma RolledBackPorts(c: Config, l: Ledger, handle: string, h: Holding, r: Replay)
    requires c.cidr.ones <= 32 && Distinct(l.stock.ports)
    requires (forall p :: p in l.stock.ports ==> InRange(c.portStart, c.portSize, p))
    requires Reaches(l.stock, h) && !Accepts(l.stock, h)
    ensures var k, l' := l.stock, Apply(c, l, Restore(handle, h, r));
            && l'.live == l.live && l'.stock.lostPorts == k.lostPorts && Distinct(l'.stock.ports)
            && forall p: nat ::
                 p in l'.stock.ports <==> p in k.ports || (p in h.ports && InRange(c.portStart, c.portSize, p))
  {
    var k := l.stock;
    RemovePortsTakes(k.ports, h.ports);
    var k3 := TakenUpTo(k, h);
    ReleasePortsAdds(c, ReleaseNet(c, ReleaseUid(c, k3, h.uid), h.net), h.ports);
  }

  /** Ports survive a restore exactly when the snapshot is turned away before its ports
      are looked at, or lists no in-range port that is not free: the error return of the
      port loop releases every port of the snapshot. */
  lemma RestoreKeepsPortsIff(c: Config, l: Ledger, handle: string, h: Holding, r: Replay)
    requires ValidConfig(c) && PortInv(c, l)
    ensures PortInv(c, Apply(c, l, Restore(handle, h, r))) <==>
              !Reaches(l.stock, h) || PortsFree(c, l.stock, h)
  {
    if Accepts(l.stock, h) {
      RemovePortsTakes(l.stock.ports, h.ports);
      AcceptedRestoreKeepsPorts(c, l, handle, h, r);
    } else if Reaches(l.stock, h) {
      Pools(c);
      RolledBackPorts(c, l, handle, h, r);
      var l' := Apply(c, l, Restore(handle, h, r));
      if !PortsFree(c, l.stock, h) {
        var p :| p in h.ports && InRange(c.portStart, c.portSize, p) && p !in l.stock.ports;
        assert p in Ports(c) && p in l'.stock.ports;
      }
    }
  }

  ghost predicate PortsFree(c: Config, k: Stock, h: Holding) {
    forall p :: p in h.ports && InRange(c.portStart, c.portSize, p) ==> p in k.ports
  }

  /** NetIn moves one port from the head of the free list to the container, whether
      or not its script then succeeds. */
  lemma NetInKeepsPorts(c: Config, l: Ledger, handle: string, hostPort: nat)
    requires ValidConfig(c) && PortInv(c, l)
    ensures PortInv(c, Apply(c, l, NetIn(handle, hostPort)))
  {
    var k := l.stock;
    if handle in l.live && hostPort == 0 && k.ports != [] {
      var h, x := l.live[handle], k.ports[0];
      var h' := h.(ports := h.ports + [x]);
      var k' := k.(ports := k.ports[1..]);
      assert Without(k.ports, x) == k.ports[1..];
      assert handle in PortsOf(l.live);
      TakeAndReturn(Ports(c), k.ports, PortsOf(l.live), k.lostPorts, x);
      var l1 := Ledger(k'.(lostPorts := k.lostPorts + {x}), l.live);
      DropKeeps(c, l1, handle);
      assert Lose(l1.stock, h) == Lose(k', h');
      ClaimKeeps(c, k', l.live - {handle}, handle, h');
      assert (l.live - {handle})[handle := h'] == l.live[handle := h'];
    }
  }

  lemma NetInKeeps(c: Config, l: Ledger, handle: string, hostPort: nat)
    requires ValidConfig(c) && OwnInv(c, l)
    ensures OwnInv(c, Apply(c, l, NetIn(handle, hostPort)))
  {
    var l' := Apply(c, l, NetIn(handle, hostPort));
    assert UidsOf(l'.live) == UidsOf(l.live);
    assert NetsOf(l'.live) == NetsOf(l.live);
  }

  lemma ApplyKeeps(c: Config, l: Ledger, op: Op)
    requires ValidConfig(c) && OwnInv(c, l)
    ensures OwnInv(c, Apply(c, l, op))
  {
    match op
    case Create(handle, o, starts) => CreateKeeps(c, l, handle, o, starts);
    case Destroy(handle, ok) => if handle in l.live && ok { DestroyKeeps(c, l, handle); }
    case Restore(handle, h, r) => RestoreKeeps(c, l, handle, h, r);
    case NetIn(handle, hostPort) => NetInKeeps(c, l, handle, hostPort);
  }

  lemma {:induction false} RunKeeps(c: Config, l: Ledger, ops: seq<Op>)
    requires ValidConfig(c) && OwnInv(c, l)
    ensures OwnInv(c, Run(c, l, ops))
    decreases |ops|
  {
    if ops != [] {
      ApplyKeeps(c, l, ops[0]);
      RunKeeps(c, Apply(c, l, ops[0]), ops[1..]);
    }
  }

  // ---- Counting -------------------------------------------------------------------------------

  lemma {:induction false} DistinctSize<T>(s: seq<T>)
    requires Distinct(s)
    ensures |set x | x in s| == |s|
  {
    if s != [] {
      DistinctSize(s[1..]);
      assert s == [s[0]] + s[1..];
      assert (set x | x in s) == {s[0]} + (set x | x in s[1..]);
    }
  }

  lemma {:induction false} InjectiveSize<T>(m: map<string, T>)
    requires forall g, h :: g in m && h in m && m[g] == m[h] ==> g == h
    ensures |m.Values| == |m|
    decreases |m|
  {
    if m.Keys != {} {
      var g :| g in m;
      var m' := m - {g};
      InjectiveSize(m');
      assert m'.Keys == m.Keys - {g};
      assert m == m'[g := m[g]];
      assert m.Values == m'.Values + {m[g]};
      assert m[g] !in m'.Values;
    }
  }

  /** One element a container: free, live and lost add up to the whole pool. */
  lemma PartitionCounts<T(!new)>(
      all: set<T>, free: seq<T>, held: map<string, set<T>>, owner: map<string, T>, lost: set<T>)
    requires Partition(all, free, held, lost)
    requires held.Keys == owner.Keys && forall h :: h in held ==> held[h] == {owner[h]}
    ensures |free| + |owner| + |lost| == |all|
    ensures forall g, h :: g in owner && h in owner && owner[g] == owner[h] ==> g == h
  {
    var f := set x | x in free;
    assert forall h :: h in owner ==> owner[h] in held[h];
    DistinctSize(free);
    InjectiveSize(owner);
    forall x | x in all && x !in free && x !in lost ensures x in owner.Values {
      var h :| h in held && x in held[h];
      assert x == owner[h];
    }
    forall x | x in owner.Values ensures x in all && x !in free && x !in lost {
      var h :| h in owner && owner[h] == x;
      assert h in held && x in held[h];
    }
    assert all == f + owner.Values + lost;
  }

  ghost function MaxContainers(c: Config): nat
    requires c.cidr.ones <= 32
  {
    var maxNet, maxUid := |NetKeys(c)|, |Range(c.uidStart, c.uidSize)|;
    if maxNet < maxUid then maxNet else maxUid
  }

  /** After any sequence of creates, destroys, restores and port mappings with any
      failures: uids and networks are each partitioned into free, held and lost, no
      two live containers share either, the counts add up to the initial pools, and
      MaxContainers bounds the live containers. */
  lemma ResourcesConserved(c: Config, ops: seq<Op>)
    requires ValidConfig(c)
    ensures var l := Run(c, InitialLedger(c), ops);
            && OwnInv(c, l)
            && |l.stock.uids| + |l.live| + |l.stock.lostUids| == |Range(c.uidStart, c.uidSize)|
            && |l.stock.nets| + |l.live| + |l.stock.lostNets| == |NetKeys(c)|
            && |l.live| <= MaxContainers(c)
            && (forall g, h :: g in l.live && h in l.live && g != h ==>
                  l.live[g].uid != l.live[h].uid && l.live[g].net.ipNet != l.live[h].net.ipNet)
  {
    Pools(c);
    StartBalanced(c);
    RunKeeps(c, InitialLedger(c), ops);
    UidsCount(c, Run(c, InitialLedger(c), ops));
    NetsCount(c, Run(c, InitialLedger(c), ops));
  }

  lemma UidsCount(c: Config, l: Ledger)
    requires ValidConfig(c) && UidInv(c, l)
    ensures |l.stock.uids| + |l.live| + |l.stock.lostUids| == |Range(c.uidStart, c.uidSize)|
    ensures forall g, h :: g in l.live && h in l.live && g != h ==> l.live[g].uid != l.live[h].uid
  {
    Pools(c);
    var uidOf := map h | h in l.live :: l.live[h].uid;
    assert uidOf.Keys == l.live.Keys;
    PartitionCounts(Uids(c), l.stock.uids, UidsOf(l.live), uidOf, l.stock.lostUids);
    DistinctSize(Range(c.uidStart, c.uidSize));
    forall g, h | g in l.live && h in l.live && g != h ensures l.live[g].uid != l.live[h].uid {
      assert uidOf[g] != uidOf[h];
    }
  }

  lemma NetsCount(c: Config, l: Ledger)
    requires ValidConfig(c) && NetInv(c, l)
    ensures |l.stock.nets| + |l.live| + |l.stock.lostNets| == |NetKeys(c)|
    ensures forall g, h :: g in l.live && h in l.live && g != h ==> l.live[g].net.ipNet != l.live[h].net.ipNet
  {
    Pools(c);
    var netOf := map h | h in l.live :: l.live[h].net.ipNet;
    assert netOf.Keys == l.live.Keys;
    PartitionCounts(Nets(c), Keys(l.stock.nets), NetsOf(l.live), netOf, l.stock.lostNets);
    DistinctSize(NetKeys(c));
    forall g, h | g in l.live && h in l.live && g != h ensures l.live[g].net.ipNet != l.live[h].net.ipNet {
      assert netOf[g] != netOf[h];
    }
  }
}
