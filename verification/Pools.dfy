/** The three pools, each a free list updated in place. */
module Pools {
  import opened Common
  import opened Subnets
  import opened Ownership

  /** idx is where the search loops stop: the first occurrence of x. */
  ghost predicate FirstAt<T>(s: seq<T>, x: T, idx: nat) {
    idx < |s| && s[idx] == x && forall j :: 0 <= j < idx ==> s[j] != x
  }

  method NumberRange(start: nat, size: nat) returns (pool: seq<nat>)
    requires start < UINT32 && size < UINT32
    ensures pool == Range(start, size)
  {
    pool := [];
    var i := start;
    while i < (start + size) % UINT32
      invariant |pool| == i - start && (i == start || i <= (start + size) % UINT32)
      invariant forall j :: 0 <= j < |pool| ==> pool[j] == start + j
    {
      pool := pool + [i];
      i := i + 1;
    }
  }

  class UidPool {
    const start: nat
    const size: nat
    const initialPoolSize: nat
    var pool: seq<nat>

    constructor (start: nat, size: nat)
      requires start < UINT32 && size < UINT32
      ensures this.start == start && this.size == size
      ensures pool == Range(start, size) && initialPoolSize == |pool|
    {
      this.start, this.size := start, size;
      var p := NumberRange(start, size);
      pool, initialPoolSize := p, |p|;
    }

    method Acquire() returns (uid: Option<nat>)
      modifies this`pool
      ensures if old(pool) == [] then uid == None && pool == [] else uid == Some(old(pool)[0]) && pool == old(pool)[1..]
    {
      if |pool| == 0 { return None; }
      uid := Some(pool[0]);
      pool := pool[1..];
    }

    method Remove(uid: nat) returns (found: bool)
      modifies this`pool
      ensures found == (uid in old(pool))
      ensures pool == if found then Without(old(pool), uid) else old(pool)
    {
      var i := 0;
      found := false;
      while i < |pool| && !found
        invariant i <= |pool| && pool == old(pool)
        invariant if found then FirstAt(pool, uid, i) else forall j :: 0 <= j < i ==> pool[j] != uid
        decreases |pool| - i, !found
      {
        if pool[i] == uid { found := true; } else { i := i + 1; }
      }
      if found {
        WithoutAt(pool, i, uid);
        pool := pool[..i] + pool[i + 1..];
      }
    }

    method Release(uid: nat)
      modifies this`pool
      ensures pool == if InRange(start, size, uid) then old(pool) + [uid] else old(pool)
    {
      if uid < start || uid >= (start + size) % UINT32 { return; }
      pool := pool + [uid];
    }
  }

  class PortPool {
    const start: nat
    const size: nat
    var pool: seq<nat>

    constructor (start: nat, size: nat)
      requires start < UINT32 && size < UINT32
      ensures this.start == start && this.size == size && pool == Range(start, size)
    {
      this.start, this.size := start, size;
      var p := NumberRange(start, size);
      pool := p;
    }

    method Acquire() returns (port: Option<nat>)
      modifies this`pool
      ensures if old(pool) == [] then port == None && pool == []
              else port == Some(old(pool)[0]) && pool == old(pool)[1..]
    {
      if |pool| == 0 { return None; }
      port := Some(pool[0]);
      pool := pool[1..];
    }

    method Remove(port: nat) returns (found: bool)
      modifies this`pool
      ensures found == (port in old(pool))
      ensures pool == if found then Without(old(pool), port) else old(pool)
    {
      var i := 0;
      found := false;
      while i < |pool| && !found
        invariant i <= |pool| && pool == old(pool)
        invariant if found then FirstAt(pool, port, i) else forall j :: 0 <= j < i ==> pool[j] != port
        decreases |pool| - i, !found
      {
        if pool[i] == port { found := true; } else { i := i + 1; }
      }
      if found {
        WithoutAt(pool, i, port);
        pool := pool[..i] + pool[i + 1..];
      }
    }

    /** Unlike the other two pools, this one refuses a port it already has. */
    method Release(port: nat)
      modifies this`pool
      ensures pool == if !InRange(start, size, port) || port in old(pool) then old(pool) else old(pool) + [port]
    {
      if port < start || port >= (start + size) % UINT32 { return; }
      for i := 0 to |pool|
        invariant pool == old(pool) && forall j :: 0 <= j < i ==> pool[j] != port
      {
        if pool[i] == port { return; }
      }
      pool := pool + [port];
    }
  }

  class NetworkPool {
    const ipNet: IPNet
    const initialPoolSize: nat
    var pool: seq<Network>

    constructor (ipNet: IPNet)
      requires IsCidr(ipNet)
      ensures this.ipNet == ipNet && pool == Blocks(ipNet) && initialPoolSize == |pool|
    {
      this.ipNet := ipNet;
      var p := NewPool(ipNet);
      pool, initialPoolSize := p, |p|;
    }

    method Acquire() returns (network: Option<Network>)
      modifies this`pool
      ensures if old(pool) == [] then network == None && pool == []
              else network == Some(old(pool)[0]) && pool == old(pool)[1..]
    {
      if |pool| == 0 { return None; }
      network := Some(pool[0]);
      pool := pool[1..];
    }

    /** Networks are compared by their CIDR text, not by their addresses. */
    method Remove(network: Network) returns (found: bool)
      modifies this`pool
      ensures found == (network.ipNet in Keys(old(pool)))
      ensures pool == if found then WithoutKey(old(pool), network.ipNet) else old(pool)
    {
      var i := 0;
      found := false;
      while i < |pool| && !found
        invariant i <= |pool| && pool == old(pool)
        invariant if found then FirstAt(Keys(pool), network.ipNet, i)
                  else forall j :: 0 <= j < i ==> Keys(pool)[j] != network.ipNet
        decreases |pool| - i, !found
      {
        if pool[i].ipNet == network.ipNet { found := true; } else { i := i + 1; }
      }
      if found {
        assert forall j :: 0 <= j < i ==> Keys(pool)[j] == pool[j].ipNet;
        WithoutKeyAt(pool, network.ipNet, i);
        pool := pool[..i] + pool[i + 1..];
      }
    }

    method Release(network: Network)
      requires ipNet.ones <= 32
      modifies this`pool
      ensures pool == if Contains(ipNet, network.ipNet.ip) then old(pool) + [network] else old(pool)
    {
      if !Contains(ipNet, network.ipNet.ip) { return; }
      pool := pool + [network];
    }
  }
}
