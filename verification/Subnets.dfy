/** IPv4 CIDR carving into /30 networks by byte-wise address increment. An address
    is the 16-byte form net.ParseIP returns: an IPv4 address a.b.c.d is
    ::ffff:a.b.c.d. Text conversions (String, ParseIP, ParseCIDR) are taken to be
    inverse to each other, with ParseCIDR clearing the bits below the prefix. */
module Subnets {
  import opened Common

  type IP = s: seq<byte> | |s| == 16 witness [0, 0, 0, 0, 0, 0, 0, 0, 0, 0, 0, 0, 0, 0, 0, 0]

  /** The first twelve bytes of every IPv4 address. */
  const V4_IN_V6: seq<byte> := [0, 0, 0, 0, 0, 0, 0, 0, 0, 0, 255, 255]

  const V4_SPACE: nat := 0x1_0000_0000

  // ---- The carrying increment ---------------------------------------------------

  function Incremented(s: seq<byte>): (r: seq<byte>)
    ensures |r| == |s|
  {
    if s == [] then []
    else if s[|s| - 1] < 255 then s[..|s| - 1] + [s[|s| - 1] + 1]
    else Incremented(s[..|s| - 1]) + [0]
  }

  lemma {:induction false} CarryForm(s: seq<byte>, j: int, r: seq<byte>)
    requires |r| == |s| && -1 <= j < |s|
    requires forall i :: 0 <= i < j ==> r[i] == s[i]
    requires forall i :: j < i < |s| ==> s[i] == 255 && r[i] == 0
    requires j >= 0 ==> s[j] < 255 && r[j] == s[j] + 1
    ensures r == Incremented(s)
  {
    if s != [] {
      var n := |s| - 1;
      assert r == r[..n] + [r[n]];
      if j == n {
        assert r[..n] == s[..n];
      } else {
        CarryForm(s[..n], j, r[..n]);
      }
    }
  }

  method Inc(ip: array<byte>)
    modifies ip
    ensures ip[..] == Incremented(old(ip[..]))
  {
    var j := ip.Length - 1;
    while j >= 0
      invariant -1 <= j < ip.Length
      invariant forall i :: 0 <= i <= j ==> ip[i] == old(ip[i])
      invariant forall i :: j < i < ip.Length ==> old(ip[i]) == 255 && ip[i] == 0
    {
      if ip[j] < 255 {
        ip[j] := ip[j] + 1;
        CarryForm(old(ip[..]), j, ip[..]);
        return;
      }
      ip[j] := 0;
      j := j - 1;
    }
    CarryForm(old(ip[..]), -1, ip[..]);
  }

  /** The number a big-endian byte string denotes. */
  function Value(s: seq<byte>): nat {
    if s == [] then 0 else 256 * Value(s[..|s| - 1]) + s[|s| - 1]
  }

  lemma {:induction false} ValueBound(s: seq<byte>)
    ensures Value(s) < Pow(256, |s|)
  {
    if s != [] { ValueBound(s[..|s| - 1]); }
  }

  /** inc adds one, wrapping at the end of the address space. */
  lemma {:induction false} IncAddsOne(s: seq<byte>)
    ensures Value(Incremented(s)) == if Value(s) + 1 == Pow(256, |s|) then 0 else Value(s) + 1
  {
    if s != [] {
      var t, b := s[..|s| - 1], s[|s| - 1];
      ValueBound(t);
      if b < 255 {
        assert Incremented(s)[..|s| - 1] == t;
      } else {
        IncAddsOne(t);
        assert Incremented(s)[..|s| - 1] == Incremented(t);
      }
    }
  }

  lemma {:induction false} ValueInjective(s: seq<byte>, t: seq<byte>)
    requires |s| == |t| && Value(s) == Value(t)
    ensures s == t
  {
    if s != [] {
      var n := |s| - 1;
      assert s[n] == t[n] && Value(s[..n]) == Value(t[..n]);
      ValueInjective(s[..n], t[..n]);
      assert s == s[..n] + [s[n]] && t == t[..n] + [t[n]];
    }
  }

  // ---- IPv4 addresses -------------------------------------------------------------

  predicate IsV4(ip: IP) { ip[..12] == V4_IN_V6 }

  /** The 32-bit number of an IPv4 address. */
  function V4(ip: IP): nat { Value(ip[12..]) }

  function Bytes(v: nat, n: nat): (r: seq<byte>)
    ensures |r| == n
  {
    if n == 0 then [] else Bytes(v / 256, n - 1) + [v % 256]
  }

  function Address(v: nat): IP { V4_IN_V6 + Bytes(v, 4) }

  lemma {:induction false} ValueOfBytes(v: nat, n: nat)
    requires v < Pow(256, n)
    ensures Value(Bytes(v, n)) == v
  {
    if n > 0 {
      ValueOfBytes(v / 256, n - 1);
      assert Bytes(v, n)[..n - 1] == Bytes(v / 256, n - 1);
    }
  }

  lemma AddressOfV4(v: nat)
    requires v < V4_SPACE
    ensures IsV4(Address(v)) && V4(Address(v)) == v
  {
    assert Pow(256, 4) == V4_SPACE;
    ValueOfBytes(v, 4);
    assert Address(v)[..12] == V4_IN_V6 && Address(v)[12..] == Bytes(v, 4);
  }

  lemma V4OfAddress(ip: IP)
    requires IsV4(ip)
    ensures V4(ip) < V4_SPACE && Address(V4(ip)) == ip
  {
    assert Pow(256, 4) == V4_SPACE;
    ValueBound(ip[12..]);
    ValueOfBytes(V4(ip), 4);
    ValueInjective(Bytes(V4(ip), 4), ip[12..]);
    assert ip == ip[..12] + ip[12..];
  }

  lemma {:induction false} IncSplits(p: seq<byte>, q: seq<byte>)
    ensures Incremented(p + q) == (if Value(q) + 1 == Pow(256, |q|) then Incremented(p) else p) + Incremented(q)
  {
    if q == [] {
      assert p + q == p;
    } else {
      var t, b := q[..|q| - 1], q[|q| - 1];
      ValueBound(t);
      assert (p + q)[..|p + q| - 1] == p + t;
      IncSplits(p, t);
    }
  }

  /** Stepping past 255.255.255.255 leaves the IPv4 addresses. */
  lemma NextAddress(v: nat)
    requires v < V4_SPACE
    ensures v + 1 < V4_SPACE ==> Incremented(Address(v)) == Address(v + 1)
    ensures v + 1 == V4_SPACE ==> !IsV4(Incremented(Address(v)))
  {
    assert Pow(256, 4) == V4_SPACE;
    var q := Bytes(v, 4);
    ValueOfBytes(v, 4);
    IncSplits(V4_IN_V6, q);
    IncAddsOne(q);
    if v + 1 < V4_SPACE {
      ValueOfBytes(v + 1, 4);
      ValueInjective(Incremented(q), Bytes(v + 1, 4));
    } else {
      IncAddsOne(V4_IN_V6);
      assert Value(V4_IN_V6) > 0;
      assert Incremented(Address(v))[..12] == Incremented(V4_IN_V6);
    }
  }

  // ---- Networks and the pool ----------------------------------------------------------

  datatype IPNet = IPNet(ip: IP, ones: nat)

  datatype Network = Network(ipNet: IPNet, hostIP: IP, containerIP: IP)

  function NewNetwork(ipNet: IPNet): Network {
    Network(ipNet, Incremented(ipNet.ip), Incremented(Incremented(ipNet.ip)))
  }

  /** v with its low bits cleared: masking by a prefix. */
  function Clear(v: nat, bits: nat): nat {
    if bits == 0 then v else 2 * Clear(v / 2, bits - 1)
  }

  /** An IPv4 network as ParseCIDR returns it: no bits set below the prefix. */
  ghost predicate IsCidr(n: IPNet) {
    IsV4(n.ip) && n.ones <= 32 && Clear(V4(n.ip), 32 - n.ones) == V4(n.ip)
  }

  /** IPNet.Contains: both sides masked, and an address of another family is outside. */
  predicate Contains(n: IPNet, ip: IP)
    requires n.ones <= 32
  {
    IsV4(ip) && Clear(V4(ip), 32 - n.ones) == Clear(V4(n.ip), 32 - n.ones)
  }

  const LOW_ZEROS: seq<byte> := [0, 0, 0, 0, 0, 0, 0, 0, 0, 0, 0, 0]

  /** An address with all but its first 30 bits cleared. */
  function Prefix30(ip: IP): IP {
    ip[..3] + [ip[3] - ip[3] % 4] + LOW_ZEROS
  }

  /** The network of ParseCIDR(ip + "/30"): 30 of 32 bits kept, or 30 of 128. */
  function Slash30(ip: IP): IPNet {
    if IsV4(ip) then IPNet(Address(Clear(V4(ip), 2)), 30)
    else IPNet(Prefix30(ip), 30)
  }

  function NextSubnetOf(n: IPNet): IPNet {
    Slash30(Incremented(Incremented(Incremented(Incremented(n.ip)))))
  }

  /** For an aligned IPv4 network, the one four addresses on, or a step out of IPv4. */
  method NextSubnet(n: IPNet) returns (r: IPNet)
    ensures r == NextSubnetOf(n)
    ensures IsV4(n.ip) && V4(n.ip) % 4 == 0 ==>
              if V4(n.ip) + 4 < V4_SPACE then r == IPNet(Address(V4(n.ip) + 4), 30) else !IsV4(r.ip)
  {
    if IsV4(n.ip) && V4(n.ip) % 4 == 0 {
      V4OfAddress(n.ip);
      NextBlock(V4(n.ip));
    }
    var next := new byte[16](i requires 0 <= i < 16 => n.ip[i]);
    assert next[..] == n.ip;
    Inc(next);
    Inc(next);
    Inc(next);
    Inc(next);
    r := Slash30(next[..]);
  }

  lemma ClearTwo(v: nat)
    ensures Clear(v, 2) == v - v % 4
  {
    assert Clear(v, 2) == 2 * Clear(v / 2, 1) == 4 * (v / 2 / 2);
  }

  lemma FoursAlign(a: nat, k: nat)
    requires a % 4 == 0
    ensures (a + 4 * k) % 4 == 0
  {
  }

  lemma FourIncs(v: nat)
    requires v % 4 == 0 && v < V4_SPACE
    ensures var ip := Incremented(Incremented(Incremented(Incremented(Address(v)))));
            if v + 4 < V4_SPACE then ip == Address(v + 4) else !IsV4(ip)
  {
    NextAddress(v);
    NextAddress(v + 1);
    NextAddress(v + 2);
    NextAddress(v + 3);
  }

  lemma Slash30Of(ip: IP)
    ensures IsV4(Slash30(ip).ip) ==> IsV4(ip)
    ensures forall v: nat :: v < V4_SPACE && v % 4 == 0 && ip == Address(v) ==> Slash30(ip) == IPNet(ip, 30)
  {
    if !IsV4(ip) {
      assert Slash30(ip).ip[..12][10] == 0;
    }
    forall v: nat | v < V4_SPACE && v % 4 == 0 && ip == Address(v) ensures Slash30(ip) == IPNet(ip, 30) {
      AddressOfV4(v);
      ClearTwo(v);
    }
  }

  lemma NextBlock(v: nat)
    requires v % 4 == 0 && v < V4_SPACE
    ensures var n := NextSubnetOf(IPNet(Address(v), 30));
            if v + 4 < V4_SPACE then n == IPNet(Address(v + 4), 30) else !IsV4(n.ip)
  {
    FourIncs(v);
    FoursAlign(v, 1);
    Slash30Of(Incremented(Incremented(Incremented(Incremented(Address(v))))));
  }

  /** How many /30 networks fit; a longer prefix still gets the one it starts, if any. */
  ghost function Count(n: IPNet): nat
    requires n.ones <= 32
  {
    if n.ones <= 30 then Pow(2, 30 - n.ones) else if V4(n.ip) % 4 == 0 then 1 else 0
  }

  /** The k-th network: its own address, then the host's, then the container's. */
  ghost function Block(n: IPNet, k: nat): Network {
    var v := V4(n.ip) + 4 * k;
    Network(IPNet(Address(v), 30), Address(v + 1), Address(v + 2))
  }

  ghost function Blocks(n: IPNet): seq<Network>
    requires n.ones <= 32
  {
    seq(Count(n), k requires 0 <= k => Block(n, k))
  }

  lemma {:induction false} ClearIsRange(b: nat, v: nat, bits: nat)
    requires Clear(b, bits) == b
    ensures Clear(v, bits) == b <==> b <= v < b + Pow(2, bits)
  {
    if bits > 0 {
      ClearIsRange(b / 2, v / 2, bits - 1);
    }
  }

  lemma {:induction false} ClearedFits(b: nat, bits: nat, width: nat)
    requires Clear(b, bits) == b && b < Pow(2, width) && bits <= width
    ensures b + Pow(2, bits) <= Pow(2, width)
  {
    if bits > 0 {
      ClearedFits(b / 2, bits - 1, width - 1);
    }
  }

  lemma SpaceAsPower()
    ensures Pow(2, 32) == V4_SPACE
  {
    assert Pow(2, 8) == 256;
    assert Pow(2, 16) == 0x1_0000;
    assert Pow(2, 24) == 0x100_0000;
  }

  lemma ClearHalves(v: nat, bits: nat)
    requires Clear(v, bits) == v && bits >= 1
    ensures v % 2 == 0 && Clear(v / 2, bits - 1) == v / 2
  {
    var x := Clear(v / 2, bits - 1);
    assert v == 2 * x;
  }

  lemma EvenTwice(v: nat)
    requires v % 2 == 0 && v / 2 % 2 == 0
    ensures v % 4 == 0
  {
  }

  lemma ClearAligns(v: nat, bits: nat)
    requires Clear(v, bits) == v && bits >= 2
    ensures v % 4 == 0
  {
    ClearHalves(v, bits);
    ClearHalves(v / 2, bits - 1);
    EvenTwice(v);
  }

  lemma CidrSize(n: IPNet)
    requires IsCidr(n)
    ensures V4(n.ip) + Pow(2, 32 - n.ones) <= V4_SPACE
    ensures n.ones <= 30 ==> V4(n.ip) % 4 == 0 && Pow(2, 32 - n.ones) == 4 * Count(n)
  {
    V4OfAddress(n.ip);
    SpaceAsPower();
    ClearedFits(V4(n.ip), 32 - n.ones, 32);
    if n.ones <= 30 { ClearAligns(V4(n.ip), 32 - n.ones); }
  }

  lemma ContainsRange(n: IPNet, v: nat)
    requires IsCidr(n) && v < V4_SPACE
    ensures Contains(n, Address(v)) <==> V4(n.ip) <= v < V4(n.ip) + Pow(2, 32 - n.ones)
  {
    AddressOfV4(v);
    ClearIsRange(V4(n.ip), v, 32 - n.ones);
  }

  /** Where the carving loop stands after k networks. */
  ghost predicate AtBlock(n: IPNet, k: nat, subnet: IPNet)
    requires n.ones <= 32
  {
    if k < Count(n) then subnet == IPNet(Address(V4(n.ip) + 4 * k), 30) else !Contains(n, subnet.ip)
  }

  method StartNet(n: IPNet) returns (subnet: IPNet)
    requires IsCidr(n)
    ensures AtBlock(n, 0, subnet)
  {
    subnet := Slash30(n.ip);
    CidrSize(n);
    V4OfAddress(n.ip);
    ClearTwo(V4(n.ip));
    if n.ones > 30 {
      assert Pow(2, 0) == 1 && Pow(2, 1) == 2;
      ContainsRange(n, Clear(V4(n.ip), 2));
    }
  }

  lemma CarveEnd(n: IPNet, v: nat)
    requires IsCidr(n) && Count(n) > 0 && v + 4 == V4(n.ip) + 4 * Count(n) && v % 4 == 0
    ensures v < V4_SPACE && !Contains(n, NextSubnetOf(IPNet(Address(v), 30)).ip)
  {
    CidrSize(n);
    assert Pow(2, 32 - n.ones) <= 4 * Count(n);
    assert v < V4_SPACE by { V4OfAddress(n.ip); }
    var next := NextSubnetOf(IPNet(Address(v), 30));
    NextBlock(v);
    if v + 4 < V4_SPACE {
      ContainsRange(n, v + 4);
      assert next.ip == Address(v + 4);
    } else {
      assert !IsV4(next.ip);
    }
  }

  lemma CarveStep(n: IPNet, k: nat, subnet: IPNet)
    requires IsCidr(n) && k < Count(n) && AtBlock(n, k, subnet)
    ensures var next := NextSubnetOf(subnet); AtBlock(n, k + 1, next)
  {
    CidrSize(n);
    FoursAlign(V4(n.ip), k);
    var v := V4(n.ip) + 4 * k;
    assert subnet == IPNet(Address(v), 30);
    if k + 1 == Count(n) {
      CarveEnd(n, v);
    } else {
      NextBlock(v);
      assert V4(n.ip) + 4 * (k + 1) == v + 4;
    }
  }

  lemma NetworkAt(v: nat)
    requires v % 4 == 0 && v < V4_SPACE
    ensures NewNetwork(IPNet(Address(v), 30)) == Network(IPNet(Address(v), 30), Address(v + 1), Address(v + 2))
  {
    NextAddress(v);
    NextAddress(v + 1);
  }

  lemma CarvedNetwork(n: IPNet, k: nat, subnet: IPNet)
    requires IsCidr(n) && k < Count(n) && AtBlock(n, k, subnet)
    ensures NewNetwork(subnet) == Block(n, k)
  {
    BlockStart(n, k);
    NetworkAt(V4(n.ip) + 4 * k);
  }

  lemma BlockStart(n: IPNet, k: nat)
    requires IsCidr(n) && k < Count(n)
    ensures V4(n.ip) + 4 * k < V4_SPACE && (V4(n.ip) + 4 * k) % 4 == 0
  {
    CidrSize(n);
    V4OfAddress(n.ip);
    FoursAlign(V4(n.ip), k);
  }

  method Advance(subnet: IPNet, ghost n: IPNet, ghost k: nat) returns (network: Network, next: IPNet)
    requires IsCidr(n) && k < Count(n) && AtBlock(n, k, subnet)
    ensures network == Blocks(n)[k] && AtBlock(n, k + 1, next)
  {
    CarveStep(n, k, subnet);
    CarvedNetwork(n, k, subnet);
    network := NewNetwork(subnet);
    next := NextSubnet(subnet);
  }

  lemma CarveContained(n: IPNet, k: nat, subnet: IPNet)
    requires IsCidr(n) && AtBlock(n, k, subnet) && k < Count(n)
    ensures Contains(n, subnet.ip)
  {
    CidrSize(n);
    ContainsRange(n, V4(n.ip) + 4 * k);
  }

  /** The loop ends for every CIDR, also one that reaches 255.255.255.255. */
  method NewPool(ipNet: IPNet) returns (pool: seq<Network>)
    requires IsCidr(ipNet)
    ensures pool == Blocks(ipNet)
  {
    var subnet := StartNet(ipNet);
    pool := [];
    while Contains(ipNet, subnet.ip)
      invariant |pool| <= Count(ipNet) && AtBlock(ipNet, |pool|, subnet)
      invariant forall k :: 0 <= k < |pool| ==> pool[k] == Blocks(ipNet)[k]
      decreases Count(ipNet) - |pool|
    {
      var network, next := Advance(subnet, ipNet, |pool|);
      pool, subnet := pool + [network], next;
    }
    if |pool| < Count(ipNet) { CarveContained(ipNet, |pool|, subnet); }
  }

  ghost predicate InBlock(n: IPNet, k: nat, v: nat)
  {
    V4(n.ip) + 4 * k <= v < V4(n.ip) + 4 * k + 4
  }

  lemma BlockInCidr(n: IPNet, k: nat)
    requires IsCidr(n) && n.ones <= 30 && k < Count(n)
    ensures V4(n.ip) + 4 * k + 3 < V4_SPACE && Contains(n, Address(V4(n.ip) + 4 * k))
  {
    CidrSize(n);
    ContainsRange(n, V4(n.ip) + 4 * k);
  }

  lemma BlockContains(n: IPNet, k: nat, v: nat)
    requires IsCidr(n) && n.ones <= 30 && k < Count(n) && v < V4_SPACE
    ensures Contains(Block(n, k).ipNet, Address(v)) <==> InBlock(n, k, v)
  {
    BlockStart(n, k);
    var start := V4(n.ip) + 4 * k;
    AddressOfV4(start);
    ClearTwo(start);
    assert Pow(2, 2) == 4;
    ContainsRange(IPNet(Address(start), 30), v);
  }

  ghost predicate InNetwork(n: IPNet, k: nat, v: nat)
    requires n.ones <= 32
  {
    k < |Blocks(n)| && Contains(Blocks(n)[k].ipNet, Address(v))
  }

  /** The pool of a prefix of at most 30 is exactly 2^(30-p) networks, each inside the
      CIDR, and every address of the CIDR is in exactly one of them. */
  lemma PoolPartitionsCidr(n: IPNet)
    requires IsCidr(n) && n.ones <= 30
    ensures |Blocks(n)| == Pow(2, 30 - n.ones)
    ensures forall v: nat :: v < V4_SPACE ==> (Contains(n, Address(v)) <==> exists k: nat :: InNetwork(n, k, v))
    ensures forall v: nat, k: nat, j: nat :: v < V4_SPACE && InNetwork(n, k, v) && InNetwork(n, j, v) ==> k == j
  {
    forall v: nat | v < V4_SPACE
      ensures Contains(n, Address(v)) <==> exists k: nat :: InNetwork(n, k, v)
    {
      AddressInOne(n, v);
    }
    forall v: nat, k: nat, j: nat | v < V4_SPACE && InNetwork(n, k, v) && InNetwork(n, j, v) ensures k == j {
      BlockContains(n, k, v);
      BlockContains(n, j, v);
    }
  }

  lemma AddressInOne(n: IPNet, v: nat)
    requires IsCidr(n) && n.ones <= 30 && v < V4_SPACE
    ensures Contains(n, Address(v)) <==> exists k: nat :: InNetwork(n, k, v)
  {
    CidrSize(n);
    ContainsRange(n, v);
    if Contains(n, Address(v)) {
      var k: nat := (v - V4(n.ip)) / 4;
      BlockContains(n, k, v);
      assert InNetwork(n, k, v);
    }
    if k: nat :| InNetwork(n, k, v) {
      BlockContains(n, k, v);
    }
  }

  ghost function AddressOf(n: Network, host: bool): IP {
    if host then n.hostIP else n.containerIP
  }

  lemma BlockNumbers(n: IPNet, k: nat, host: bool)
    requires IsCidr(n) && n.ones <= 30 && k < |Blocks(n)|
    ensures V4(Blocks(n)[k].ipNet.ip) == V4(n.ip) + 4 * k
    ensures IsV4(AddressOf(Blocks(n)[k], host))
    ensures V4(AddressOf(Blocks(n)[k], host)) == V4(n.ip) + 4 * k + (if host then 1 else 2)
  {
    BlockInCidr(n, k);
    var v := V4(n.ip) + 4 * k;
    AddressOfV4(v);
    AddressOfV4(if host then v + 1 else v + 2);
    assert Blocks(n)[k] == Block(n, k);
  }

  /** Host and container addresses lie in their own block, and no two of the pool's
      addresses or networks coincide. */
  lemma PoolAddressesDistinct(n: IPNet, k: nat, j: nat, host: bool, host': bool)
    requires IsCidr(n) && n.ones <= 30 && k < |Blocks(n)| && j < |Blocks(n)|
    ensures IsV4(AddressOf(Blocks(n)[k], host)) && InBlock(n, k, V4(AddressOf(Blocks(n)[k], host)))
    ensures AddressOf(Blocks(n)[k], host) != Blocks(n)[k].ipNet.ip
    ensures AddressOf(Blocks(n)[k], host) == AddressOf(Blocks(n)[j], host') ==> k == j && host == host'
    ensures Blocks(n)[k].ipNet == Blocks(n)[j].ipNet ==> k == j
  {
    BlockNumbers(n, k, host);
    BlockNumbers(n, j, host');
  }

  /** Every pooled network has the addresses New makes for its range. */
  lemma BlocksAreNew(n: IPNet, k: nat)
    requires IsCidr(n) && k < |Blocks(n)|
    ensures Blocks(n)[k] == NewNetwork(Blocks(n)[k].ipNet)
  {
    BlockStart(n, k);
    NetworkAt(V4(n.ip) + 4 * k);
  }

  /** What the pool hands out belongs to the CIDR by its network address. */
  lemma PoolInsideCidr(n: IPNet, k: nat)
    requires IsCidr(n) && k < |Blocks(n)|
    ensures Contains(n, Blocks(n)[k].ipNet.ip)
  {
    if n.ones <= 30 {
      BlockInCidr(n, k);
    } else {
      V4OfAddress(n.ip);
    }
  }

  // ---- IPv6 ---------------------------------------------------------------------------------

  /** The loop's subnet k rounds after n. */
  function SubnetAfter(n: IPNet, k: nat): IPNet
    decreases k
  {
    if k == 0 then n else SubnetAfter(NextSubnetOf(n), k - 1)
  }

  lemma {:induction false} FixedPoint(n: IPNet, k: nat)
    requires NextSubnetOf(n) == n
    ensures SubnetAfter(n, k) == n
  {
    if k > 0 { FixedPoint(n, k - 1); }
  }

  lemma FourSmallSteps(s: seq<byte>)
    requires |s| > 0 && s[|s| - 1] == 0
    ensures Incremented(Incremented(Incremented(Incremented(s)))) == s[..|s| - 1] + [4]
  {
    var t := s[..|s| - 1];
    assert Incremented(s) == t + [1];
    assert Incremented(t + [1]) == t + [2];
    assert Incremented(t + [2]) == t + [3];
    assert Incremented(t + [3]) == t + [4];
  }

  lemma V6Step(ip: IP)
    ensures var next := Prefix30(ip)[..15] + [4];
            !IsV4(next) && Prefix30(next) == Prefix30(ip)
  {
    var next := Prefix30(ip)[..15] + [4];
    assert next[10] == LOW_ZEROS[6] == 0 && V4_IN_V6[10] == 255 && next[..12][10] == next[10];
    assert next[..3] == ip[..3] && next[3] == ip[3] - ip[3] % 4;
  }

  lemma Slash30Stays(ip: IP, next: IP)
    requires !IsV4(next) && Prefix30(next) == Prefix30(ip)
    ensures Slash30(next) == IPNet(Prefix30(ip), 30)
  {
  }

  lemma V6NextSame(ip: IP)
    ensures NextSubnetOf(IPNet(Prefix30(ip), 30)) == IPNet(Prefix30(ip), 30)
  {
    FourSmallSteps(Prefix30(ip));
    V6Step(ip);
    Slash30Stays(ip, Prefix30(ip)[..15] + [4]);
  }

  /** A /30 keeps 30 of the 128 bits of an IPv6 address, and four addresses further is
      still in it, so on an IPv6 CIDR the loop stands still. */
  lemma V6StandsStill(ip: IP, k: nat)
    requires !IsV4(ip)
    ensures SubnetAfter(Slash30(ip), k) == Slash30(ip)
  {
    V6NextSame(ip);
    FixedPoint(Slash30(ip), k);
  }

  /** IPNet.Contains for an IPv6 network: both sides masked to its prefix of the 128 bits,
      and an IPv4 address is outside. */
  predicate Contains6(n: IPNet, ip: IP)
    requires n.ones <= 128
  {
    !IsV4(ip) && Clear(Value(ip), 128 - n.ones) == Clear(Value(n.ip), 128 - n.ones)
  }

  /** The guard fails after some number of rounds. */
  ghost predicate LoopEnds6(n: IPNet)
    requires n.ones <= 128
  {
    exists k: nat :: !Contains6(n, SubnetAfter(Slash30(n.ip), k).ip)
  }

  /** So on an IPv6 CIDR the constructor returns exactly when its first subnet is outside
      the CIDR, and then with an empty pool; otherwise it never returns. */
  lemma V6PoolEndsIff(n: IPNet)
    requires !IsV4(n.ip) && n.ones <= 128
    ensures LoopEnds6(n) <==> !Contains6(n, Slash30(n.ip).ip)
  {
    if k: nat :| !Contains6(n, SubnetAfter(Slash30(n.ip), k).ip) {
      V6StandsStill(n.ip, k);
    }
    V6StandsStill(n.ip, 0);
  }
}
