/** wshd's table from child pids to the descriptors their exit status goes to. The
    results of waitpid and dup are inputs. */
module PidTable {
  import opened Common

  datatype Entry = Entry(pid: nat, fd: nat)

  datatype Status = Exited(code: int) | Signaled

  datatype Reap = Reap(pid: nat, status: Status)

  /** What reaping a tracked child does: its status, if any, is written to fd, and fd is closed. */
  datatype Report = Report(pid: nat, fd: nat, status: Status)

  datatype Act = Write(fd: nat, code: int) | Close(fd: nat)

  function ActsOf(r: Report): seq<Act> {
    match r.status
    case Exited(code) => [Write(r.fd, code), Close(r.fd)]
    case Signaled => [Close(r.fd)]
  }

  function AllActs(rs: seq<Report>): seq<Act> {
    if rs == [] then [] else AllActs(rs[..|rs| - 1]) + ActsOf(rs[|rs| - 1])
  }

  /** Position of the first entry of a pid, or the length. */
  function Find(t: seq<Entry>, pid: nat): (i: nat)
    ensures i <= |t| && (forall j :: 0 <= j < i ==> t[j].pid != pid) && (i < |t| ==> t[i].pid == pid)
  {
    if t == [] || t[0].pid == pid then 0 else 1 + Find(t[1..], pid)
  }

  function Removed(t: seq<Entry>, i: nat): seq<Entry>
    requires i < |t|
  {
    t[..i] + t[i + 1..]
  }

  function ReapOne(t: seq<Entry>, r: Reap): (seq<Entry>, seq<Report>) {
    var i := Find(t, r.pid);
    if i == |t| then (t, []) else (Removed(t, i), [Report(r.pid, t[i].fd, r.status)])
  }

  function ReapAll(t: seq<Entry>, rs: seq<Reap>): (seq<Entry>, seq<Report>)
    decreases |rs|
  {
    if rs == [] then (t, []) else
    var (t1, out1) := ReapOne(t, rs[0]);
    var (t2, out2) := ReapAll(t1, rs[1..]);
    (t2, out1 + out2)
  }

  class Wshd {
    var pidToFd: array<Entry>
    var acts: seq<Act>

    constructor ()
      ensures pidToFd[..] == [] && acts == [] && fresh(pidToFd)
    {
      pidToFd := new Entry[0];
      acts := [];
    }

    /** The array grows by one; the entry goes last. `fd` is the duplicate dup made. */
    method Add(pid: nat, fd: nat)
      modifies this`pidToFd
      ensures pidToFd[..] == old(pidToFd[..]) + [Entry(pid, fd)] && fresh(pidToFd)
    {
      var len := pidToFd.Length;
      var grown := new Entry[len + 1](
        i requires 0 <= i <= len reads this, pidToFd => if i < pidToFd.Length then pidToFd[i] else Entry(pid, fd));
      pidToFd := grown;
    }

    /** The tail moves down in place, then the array shrinks by one. */
    method Remove(pid: nat) returns (fd: int)
      modifies this`pidToFd, pidToFd
      ensures var t := old(pidToFd[..]); var i := Find(t, pid);
              if i == |t| then fd == -1 && pidToFd == old(pidToFd) && pidToFd[..] == t
              else fd == t[i].fd && pidToFd[..] == Removed(t, i) && fresh(pidToFd)
    {
      ghost var t := pidToFd[..];
      var len := pidToFd.Length;
      fd := -1;
      for i := 0 to len
        invariant pidToFd == old(pidToFd) && pidToFd[..] == t && fd == -1 && i <= Find(t, pid)
      {
        if pidToFd[i].pid == pid {
          fd := pidToFd[i].fd;
          forall k | i <= k < len - 1 { pidToFd[k] := pidToFd[k + 1]; }
          var shrunk := new Entry[len - 1](
            k requires 0 <= k < len - 1 reads this, pidToFd => if k < pidToFd.Length then pidToFd[k] else Entry(0, 0));
          pidToFd := shrunk;
          assert pidToFd[..] == Removed(t, i);
          return;
        }
      }
    }

    method ReapChild(r: Reap)
      modifies this, pidToFd
      ensures pidToFd == old(pidToFd) || fresh(pidToFd)
      ensures pidToFd[..] == ReapOne(old(pidToFd[..]), r).0
      ensures acts == old(acts) + AllActs(ReapOne(old(pidToFd[..]), r).1)
    {
      var fd := Remove(r.pid);
      if fd == -1 { return; }
      ghost var rep := Report(r.pid, fd, r.status);
      assert AllActs([rep]) == ActsOf(rep);
      if r.status.Exited? {
        acts := acts + [Write(fd, r.status.code)];
      }
      acts := acts + [Close(fd)];
    }

    method HandleSigchld(reaped: seq<Reap>)
      modifies this, pidToFd
      ensures pidToFd[..] == ReapAll(old(pidToFd[..]), reaped).0
      ensures acts == old(acts) + AllActs(ReapAll(old(pidToFd[..]), reaped).1)
    {
      assert reaped[0..] == reaped;
      for i := 0 to |reaped|
        invariant pidToFd == old(pidToFd) || fresh(pidToFd)
        invariant ReapAll(pidToFd[..], reaped[i..]).0 == ReapAll(old(pidToFd[..]), reaped).0
        invariant acts + AllActs(ReapAll(pidToFd[..], reaped[i..]).1) ==
                    old(acts) + AllActs(ReapAll(old(pidToFd[..]), reaped).1)
      {
        ReapStep(pidToFd[..], reaped, i, acts);
        ReapChild(reaped[i]);
      }
      assert acts + [] == acts;
    }
  }

  lemma ReapStep(t: seq<Entry>, rs: seq<Reap>, i: nat, acts: seq<Act>)
    requires i < |rs|
    ensures var (t1, out) := ReapOne(t, rs[i]);
            ReapAll(t1, rs[i + 1..]).0 == ReapAll(t, rs[i..]).0
            && acts + AllActs(out) + AllActs(ReapAll(t1, rs[i + 1..]).1) == acts + AllActs(ReapAll(t, rs[i..]).1)
  {
    var (t1, out) := ReapOne(t, rs[i]);
    assert rs[i..][1..] == rs[i + 1..];
    var out2 := ReapAll(t1, rs[i + 1..]).1;
    ActsAppend(out, out2);
    assert acts + AllActs(out) + AllActs(out2) == acts + (AllActs(out) + AllActs(out2));
  }

  lemma {:induction false} ActsAppend(a: seq<Report>, b: seq<Report>)
    ensures AllActs(a + b) == AllActs(a) + AllActs(b)
    decreases |b|
  {
    if b == [] {
      assert a + b == a;
    } else {
      var b', x := b[..|b| - 1], b[|b| - 1];
      assert (a + b)[..|a + b| - 1] == a + b';
      ActsAppend(a, b');
    }
  }

  // ---- Whole runs ----------------------------------------------------------------------------

  datatype Event = Fork(pid: nat, fd: nat) | Sigchld(reaped: seq<Reap>)

  datatype State = State(table: seq<Entry>, reports: seq<Report>)

  /** A new child's pid is not that of a child not yet reaped, and dup gives a descriptor not open. */
  ghost predicate Legal(t: seq<Entry>, e: Event) {
    e.Fork? ==> forall i :: 0 <= i < |t| ==> t[i].pid != e.pid && t[i].fd != e.fd
  }

  function Next(s: State, e: Event): State {
    match e
    case Fork(pid, fd) => s.(table := s.table + [Entry(pid, fd)])
    case Sigchld(reaped) => var (t, out) := ReapAll(s.table, reaped); State(t, s.reports + out)
  }

  ghost predicate Steps(s: State, es: seq<Event>, s': State)
    decreases |es|
  {
    if es == [] then s' == s else Legal(s.table, es[0]) && Steps(Next(s, es[0]), es[1..], s')
  }

  ghost predicate Unique(t: seq<Entry>) {
    forall i, j :: 0 <= i < j < |t| ==> t[i].pid != t[j].pid && t[i].fd != t[j].fd
  }

  // The reference: a finite map.

  function Lookup(t: seq<Entry>, pid: nat): Option<nat> {
    var i := Find(t, pid);
    if i < |t| then Some(t[i].fd) else None
  }

  ghost predicate Refines(t: seq<Entry>, m: map<nat, nat>) {
    forall p: nat :: Lookup(t, p) == if p in m then Some(m[p]) else None
  }

  ghost function MapReapAll(m: map<nat, nat>, rs: seq<Reap>): (map<nat, nat>, seq<Report>)
    decreases |rs|
  {
    if rs == [] then (m, [])
    else if rs[0].pid in m then
      var (m', out) := MapReapAll(m - {rs[0].pid}, rs[1..]);
      (m', [Report(rs[0].pid, m[rs[0].pid], rs[0].status)] + out)
    else MapReapAll(m, rs[1..])
  }

  lemma RemovedUnique(t: seq<Entry>, i: nat)
    requires Unique(t) && i < |t|
    ensures Unique(Removed(t, i))
  {
    var r := Removed(t, i);
    assert forall j :: 0 <= j < |r| ==> r[j] == t[if j < i then j else j + 1];
  }

  lemma {:induction false} LookupRemoved(t: seq<Entry>, i: nat, p: nat)
    requires Unique(t) && i < |t|
    ensures Lookup(Removed(t, i), p) == if p == t[i].pid then None else Lookup(t, p)
  {
    var r := Removed(t, i);
    RemovedUnique(t, i);
    var k, k' := Find(t, p), Find(r, p);
    assert forall j :: 0 <= j < |r| ==> r[j] == t[if j < i then j else j + 1];
    if p != t[i].pid && k < |t| {
      assert r[if k < i then k else k - 1] == t[k];
    }
  }

  /** The array does what the map does, report for report. */
  lemma {:induction false} ReapRefines(t: seq<Entry>, m: map<nat, nat>, rs: seq<Reap>)
    requires Unique(t) && Refines(t, m)
    ensures Unique(ReapAll(t, rs).0)
    ensures Refines(ReapAll(t, rs).0, MapReapAll(m, rs).0) && ReapAll(t, rs).1 == MapReapAll(m, rs).1
    decreases |rs|
  {
    if rs != [] {
      var p := rs[0].pid;
      var i := Find(t, p);
      assert Lookup(t, p) == if p in m then Some(m[p]) else None;
      if i < |t| {
        RemovedUnique(t, i);
        forall q: nat ensures Lookup(Removed(t, i), q) == if q in m - {p} then Some((m - {p})[q]) else None {
          LookupRemoved(t, i, q);
          assert Lookup(t, q) == if q in m then Some(m[q]) else None;
        }
        ReapRefines(Removed(t, i), m - {p}, rs[1..]);
      } else {
        ReapRefines(t, m, rs[1..]);
        assert forall out: seq<Report> :: [] + out == out;
      }
    }
  }

  lemma {:induction false} ReapKeepsUnique(t: seq<Entry>, rs: seq<Reap>)
    requires Unique(t)
    ensures Unique(ReapAll(t, rs).0)
    decreases |rs|
  {
    if rs != [] {
      var i := Find(t, rs[0].pid);
      if i < |t| { RemovedUnique(t, i); }
      ReapKeepsUnique(ReapOne(t, rs[0]).0, rs[1..]);
    }
  }

  // Conservation: every descriptor handed to a fork is reported once or still in the table.

  ghost function Pairs(rs: seq<Report>): seq<Entry> {
    seq(|rs|, i requires 0 <= i < |rs| => Entry(rs[i].pid, rs[i].fd))
  }

  ghost function Forks(es: seq<Event>): seq<Entry> {
    if es == [] then []
    else if es[0].Fork? then [Entry(es[0].pid, es[0].fd)] + Forks(es[1..]) else Forks(es[1..])
  }

  lemma PairsAppend(a: seq<Report>, b: seq<Report>)
    ensures multiset(Pairs(a + b)) == multiset(Pairs(a)) + multiset(Pairs(b))
  {
    assert Pairs(a + b) == Pairs(a) + Pairs(b);
  }

  lemma {:induction false} ReapConserves(t: seq<Entry>, rs: seq<Reap>)
    ensures multiset(t) == multiset(ReapAll(t, rs).0) + multiset(Pairs(ReapAll(t, rs).1))
    decreases |rs|
  {
    if rs != [] {
      var (t1, out1) := ReapOne(t, rs[0]);
      var out2 := ReapAll(t1, rs[1..]).1;
      ReapOneConserves(t, rs[0]);
      ReapConserves(t1, rs[1..]);
      PairsAppend(out1, out2);
    }
  }

  lemma ReapOneConserves(t: seq<Entry>, r: Reap)
    ensures multiset(t) == multiset(ReapOne(t, r).0) + multiset(Pairs(ReapOne(t, r).1))
  {
    var i := Find(t, r.pid);
    if i < |t| {
      assert t == t[..i] + [t[i]] + t[i + 1..];
      assert Pairs(ReapOne(t, r).1) == [t[i]];
    }
  }

  // Order: the entries of the pids that were not reaped stay as they were.

  function Keep(t: seq<Entry>, reaped: set<nat>): seq<Entry> {
    if t == [] then [] else (if t[0].pid in reaped then [] else [t[0]]) + Keep(t[1..], reaped)
  }

  ghost function PidsOf(rs: seq<Reap>): set<nat> { set r | r in rs :: r.pid }

  lemma {:induction false} KeepAll(t: seq<Entry>)
    ensures Keep(t, {}) == t
  {
    if t != [] { KeepAll(t[1..]); }
  }

  lemma {:induction false} KeepRemoved(t: seq<Entry>, i: nat, ps: set<nat>)
    requires Unique(t) && i < |t|
    ensures Keep(Removed(t, i), ps) == Keep(t, ps + {t[i].pid})
  {
    var p := t[i].pid;
    if i == 0 {
      assert Removed(t, 0) == t[1..];
      KeepAbsent(t[1..], p, ps);
      assert [] + Keep(t[1..], ps) == Keep(t[1..], ps);
    } else {
      assert Removed(t, i)[1..] == Removed(t[1..], i - 1) && Removed(t, i)[0] == t[0];
      assert t[0].pid != t[i].pid && t[1..][i - 1] == t[i];
      KeepRemoved(t[1..], i - 1, ps);
    }
  }

  lemma {:induction false} KeepAbsent(t: seq<Entry>, p: nat, ps: set<nat>)
    requires forall j :: 0 <= j < |t| ==> t[j].pid != p
    ensures Keep(t, ps) == Keep(t, ps + {p})
  {
    if t != [] { KeepAbsent(t[1..], p, ps); }
  }

  lemma {:induction false} ReapKeepsRest(t: seq<Entry>, rs: seq<Reap>)
    requires Unique(t)
    ensures ReapAll(t, rs).0 == Keep(t, PidsOf(rs))
    decreases |rs|
  {
    if rs == [] {
      assert PidsOf(rs) == {};
      KeepAll(t);
    } else {
      var p, more := rs[0].pid, PidsOf(rs[1..]);
      assert PidsOf(rs) == more + {p};
      var i := Find(t, p);
      if i < |t| {
        RemovedUnique(t, i);
        ReapKeepsRest(Removed(t, i), rs[1..]);
        KeepRemoved(t, i, more);
      } else {
        ReapKeepsRest(t, rs[1..]);
        KeepAbsent(t, p, more);
      }
    }
  }

  lemma {:induction false} RunConserves(s: State, es: seq<Event>, s': State)
    requires Unique(s.table) && Steps(s, es, s')
    ensures Unique(s'.table)
    ensures multiset(s.table) + multiset(Pairs(s.reports)) + multiset(Forks(es)) ==
              multiset(s'.table) + multiset(Pairs(s'.reports))
    decreases |es|
  {
    if es != [] {
      var s1 := Next(s, es[0]);
      if es[0].Sigchld? {
        var out := ReapAll(s.table, es[0].reaped).1;
        ReapKeepsUnique(s.table, es[0].reaped);
        ReapConserves(s.table, es[0].reaped);
        PairsAppend(s.reports, out);
      }
      RunConserves(s1, es[1..], s');
    }
  }

  /** The run of the reference: forks bind, reaps of bound pids report and unbind. */
  ghost function MapRun(m: map<nat, nat>, es: seq<Event>): (map<nat, nat>, seq<Report>)
    decreases |es|
  {
    if es == [] then (m, []) else
    match es[0]
    case Fork(pid, fd) => MapRun(m[pid := fd], es[1..])
    case Sigchld(reaped) =>
      var (m1, out1) := MapReapAll(m, reaped);
      var (m2, out2) := MapRun(m1, es[1..]);
      (m2, out1 + out2)
  }

  lemma {:induction false} RunRefines(s: State, m: map<nat, nat>, es: seq<Event>, s': State)
    requires Unique(s.table) && Refines(s.table, m) && Steps(s, es, s')
    ensures Refines(s'.table, MapRun(m, es).0) && s'.reports == s.reports + MapRun(m, es).1
    decreases |es|
  {
    if es == [] {
      assert s.reports + [] == s.reports;
    } else {
      match es[0]
      case Fork(pid, fd) =>
        var t := s.table + [Entry(pid, fd)];
        forall p: nat ensures Lookup(t, p) == if p in m[pid := fd] then Some(m[pid := fd][p]) else None {
          assert Lookup(s.table, p) == if p in m then Some(m[p]) else None;
          LookupAdded(s.table, Entry(pid, fd), p);
        }
        RunRefines(Next(s, es[0]), m[pid := fd], es[1..], s');
      case Sigchld(reaped) =>
        ReapRefines(s.table, m, reaped);
        RunRefines(Next(s, es[0]), MapReapAll(m, reaped).0, es[1..], s');
    }
  }

  lemma LookupAdded(t: seq<Entry>, e: Entry, p: nat)
    requires Lookup(t, e.pid).None?
    ensures Lookup(t + [e], p) == if p == e.pid then Some(e.fd) else Lookup(t, p)
  {
    var u := t + [e];
    var k, k' := Find(t, p), Find(u, p);
    assert u[|t|] == e && (k < |t| ==> u[k] == t[k]) && (k' < |t| ==> u[k'] == t[k']);
  }

  // ---- What is written and closed -----------------------------------------------------

  function Closes(acts: seq<Act>, fd: nat): nat {
    if acts == [] then 0
    else Closes(acts[..|acts| - 1], fd) + (if acts[|acts| - 1] == Close(fd) then 1 else 0)
  }

  function Writes(acts: seq<Act>, fd: nat): nat {
    if acts == [] then 0
    else Writes(acts[..|acts| - 1], fd) + (if acts[|acts| - 1].Write? && acts[|acts| - 1].fd == fd then 1 else 0)
  }

  /** How many of the entries have this descriptor. */
  function Uses(t: seq<Entry>, fd: nat): nat {
    if t == [] then 0 else Uses(t[..|t| - 1], fd) + (if t[|t| - 1].fd == fd then 1 else 0)
  }

  lemma ActsOfReport(acts: seq<Act>, r: Report, fd: nat)
    ensures Closes(acts + ActsOf(r), fd) == Closes(acts, fd) + (if r.fd == fd then 1 else 0)
    ensures Writes(acts + ActsOf(r), fd) == Writes(acts, fd) + (if r.fd == fd && r.status.Exited? then 1 else 0)
  {
    var c := Close(r.fd);
    match r.status
    case Exited(code) =>
      var w := Write(r.fd, code);
      assert (acts + [w])[..|acts|] == acts;
      assert acts + [w, c] == acts + [w] + [c] && (acts + [w] + [c])[..|acts| + 1] == acts + [w];
    case Signaled =>
      assert (acts + [c])[..|acts|] == acts;
  }

  lemma {:induction false} ReportsAct(rs: seq<Report>, fd: nat)
    ensures Writes(AllActs(rs), fd) <= Closes(AllActs(rs), fd) == Uses(Pairs(rs), fd)
  {
    if rs != [] {
      var n := |rs| - 1;
      ReportsAct(rs[..n], fd);
      ActsOfReport(AllActs(rs[..n]), rs[n], fd);
      assert Pairs(rs)[..n] == Pairs(rs[..n]);
    }
  }

  lemma {:induction false} UsesConcat(t: seq<Entry>, u: seq<Entry>, fd: nat)
    ensures Uses(t + u, fd) == Uses(t, fd) + Uses(u, fd)
  {
    if u == [] {
      assert t + u == t;
    } else {
      assert (t + u)[..|t + u| - 1] == t + u[..|u| - 1];
      UsesConcat(t, u[..|u| - 1], fd);
    }
  }

  lemma UsesWithout(u: seq<Entry>, i: nat, fd: nat)
    requires i < |u|
    ensures Uses(u, fd) == Uses(u[..i] + u[i + 1..], fd) + (if u[i].fd == fd then 1 else 0)
  {
    assert u == u[..i] + [u[i]] + u[i + 1..];
    UsesConcat(u[..i] + [u[i]], u[i + 1..], fd);
    UsesConcat(u[..i], [u[i]], fd);
    UsesConcat(u[..i], u[i + 1..], fd);
    assert [u[i]][..0] == [];
  }

  lemma RestPermuted(t: seq<Entry>, u: seq<Entry>, i: nat)
    requires multiset(t) == multiset(u) && t != [] && i < |u| && u[i] == t[|t| - 1]
    ensures multiset(t[..|t| - 1]) == multiset(u[..i] + u[i + 1..])
  {
    var n := |t| - 1;
    assert t == t[..n] + [t[n]];
    assert u == u[..i] + [u[i]] + u[i + 1..];
    assert multiset(t) == multiset(t[..n]) + multiset{t[n]};
    assert multiset(u) == multiset(u[..i] + u[i + 1..]) + multiset{u[i]};
    assert multiset(t[..n]) == multiset(t) - multiset{t[n]};
  }

  lemma {:induction false} UsesPermuted(t: seq<Entry>, u: seq<Entry>, fd: nat)
    requires multiset(t) == multiset(u)
    ensures Uses(t, fd) == Uses(u, fd)
    decreases |t|
  {
    if t == [] {
      assert |u| == |multiset(u)| == |multiset(t)|;
    } else {
      var n := |t| - 1;
      assert t[n] in multiset(t);
      assert t[n] in multiset(u);
      var i :| 0 <= i < |u| && u[i] == t[n];
      RestPermuted(t, u, i);
      UsesPermuted(t[..n], u[..i] + u[i + 1..], fd);
      UsesWithout(u, i, fd);
    }
  }

  ghost function Reaps(es: seq<Event>): seq<Reap> {
    if es == [] then [] else (if es[0].Sigchld? then es[0].reaped else []) + Reaps(es[1..])
  }

  /** The status of the first reap of this pid. */
  ghost function FirstReap(rs: seq<Reap>, pid: nat): Option<Status> {
    if rs == [] then None else if rs[0].pid == pid then Some(rs[0].status) else FirstReap(rs[1..], pid)
  }

  lemma {:induction false} FirstReapConcat(a: seq<Reap>, b: seq<Reap>, pid: nat)
    ensures FirstReap(a + b, pid) == if FirstReap(a, pid).Some? then FirstReap(a, pid) else FirstReap(b, pid)
  {
    if a == [] {
      assert a + b == b;
    } else {
      assert (a + b)[1..] == a[1..] + b;
      FirstReapConcat(a[1..], b, pid);
    }
  }

  /** A report carries the first reap of an entry's pid; what stays was not reaped. */
  lemma {:induction false} ReportsAreFirstReaps(t: seq<Entry>, rs: seq<Reap>)
    requires Unique(t)
    ensures forall r :: r in ReapAll(t, rs).1 ==>
              Entry(r.pid, r.fd) in t && FirstReap(rs, r.pid) == Some(r.status)
    ensures forall x :: x in ReapAll(t, rs).0 ==> x in t && FirstReap(rs, x.pid) == None
    decreases |rs|
  {
    if rs != [] {
      var i := Find(t, rs[0].pid);
      var t1 := ReapOne(t, rs[0]).0;
      if i < |t| {
        RemovedUnique(t, i);
        forall x | x in t1 ensures x in t && x.pid != rs[0].pid {
          var j :| 0 <= j < |t1| && t1[j] == x;
          assert x == t[if j < i then j else j + 1];
        }
      }
      ReportsAreFirstReaps(t1, rs[1..]);
    }
  }

  /** The child of this pid and descriptor was forked in the run, and the first reap of
      its pid since then gave this status. */
  ghost predicate EndedWith(es: seq<Event>, pid: nat, fd: nat, status: Status) {
    exists i :: 0 <= i < |es| && es[i] == Fork(pid, fd) && FirstReap(Reaps(es[i + 1..]), pid) == Some(status)
  }

  lemma EndedLater(es: seq<Event>, pid: nat, fd: nat, status: Status)
    requires es != [] && EndedWith(es[1..], pid, fd, status)
    ensures EndedWith(es, pid, fd, status)
  {
    var i :| 0 <= i < |es[1..]| && es[1..][i] == Fork(pid, fd)
             && FirstReap(Reaps(es[1..][i + 1..]), pid) == Some(status);
    assert es[i + 1] == Fork(pid, fd) && es[1..][i + 1..] == es[i + 1 + 1..];
  }

  /** An entry of the table whose pid's first reap gave this status. */
  ghost predicate EndedFrom(t: seq<Entry>, es: seq<Event>, r: Report) {
    Entry(r.pid, r.fd) in t && FirstReap(Reaps(es), r.pid) == Some(r.status)
  }

  lemma {:induction false} ReportsEnd(s: State, es: seq<Event>, s': State, r: Report)
    requires Unique(s.table) && Steps(s, es, s') && r in s'.reports
    ensures r in s.reports || EndedFrom(s.table, es, r) || EndedWith(es, r.pid, r.fd, r.status)
    decreases |es|
  {
    if es != [] {
      var s1 := Next(s, es[0]);
      var more := Reaps(es[1..]);
      match es[0]
      case Fork(pid, fd) =>
        assert Reaps(es) == more;
        ReportsEnd(s1, es[1..], s', r);
        if EndedFrom(s1.table, es[1..], r) && Entry(r.pid, r.fd) !in s.table {
          assert es[0] == Fork(r.pid, r.fd) && es[0 + 1..] == es[1..];
        }
      case Sigchld(reaped) =>
        assert Reaps(es) == reaped + more;
        ReapKeepsUnique(s.table, reaped);
        ReportsAreFirstReaps(s.table, reaped);
        FirstReapConcat(reaped, more, r.pid);
        ReportsEnd(s1, es[1..], s', r);
      if EndedWith(es[1..], r.pid, r.fd, r.status) { EndedLater(es, r.pid, r.fd, r.status); }
    }
  }

  lemma {:induction false} WriteHasReport(rs: seq<Report>, fd: nat, code: int) returns (r: Report)
    requires Write(fd, code) in AllActs(rs)
    ensures r in rs && r.fd == fd && r.status == Exited(code)
  {
    var n := |rs| - 1;
    if Write(fd, code) in AllActs(rs[..n]) {
      r := WriteHasReport(rs[..n], fd, code);
    } else {
      r := rs[n];
    }
  }

  /** Every write is followed at once by the close of the same descriptor. */
  predicate WritesThenCloses(acts: seq<Act>) {
    forall i :: 0 <= i < |acts| && acts[i].Write? ==> i + 1 < |acts| && acts[i + 1] == Close(acts[i].fd)
  }

  lemma {:induction false} ActsInOrder(rs: seq<Report>)
    ensures WritesThenCloses(AllActs(rs))
  {
    if rs != [] {
      var n := |rs| - 1;
      ActsInOrder(rs[..n]);
      var before, now := AllActs(rs[..n]), ActsOf(rs[n]);
      var acts := before + now;
      forall i | 0 <= i < |acts| && acts[i].Write? ensures i + 1 < |acts| && acts[i + 1] == Close(acts[i].fd) {
        if i < |before| { assert acts[i] == before[i] && acts[i + 1] == before[i + 1]; }
      }
    }
  }

  lemma {:induction false} ReportIsWritten(rs: seq<Report>, i: nat, code: int)
    requires i < |rs| && rs[i].status == Exited(code)
    ensures Write(rs[i].fd, code) in AllActs(rs)
  {
    var n := |rs| - 1;
    if i < n {
      ReportIsWritten(rs[..n], i, code);
    } else {
      assert ActsOf(rs[n])[0] == Write(rs[n].fd, code);
    }
  }

  /** A reaped entry is reported with its first reap; one that was not stays. */
  lemma {:induction false} ReapedIsReported(t: seq<Entry>, rs: seq<Reap>, x: Entry)
    requires Unique(t) && x in t
    ensures match FirstReap(rs, x.pid)
            case None => x in ReapAll(t, rs).0
            case Some(status) => Report(x.pid, x.fd, status) in ReapAll(t, rs).1
    decreases |rs|
  {
    if rs != [] {
      var i := Find(t, rs[0].pid);
      var k :| 0 <= k < |t| && t[k] == x;
      if i < |t| {
        RemovedUnique(t, i);
        if k != i {
          assert Removed(t, i)[if k < i then k else k - 1] == x;
          ReapedIsReported(Removed(t, i), rs[1..], x);
        }
      } else {
        ReapedIsReported(t, rs[1..], x);
      }
    }
  }

  lemma {:induction false} EndedIsReported(s: State, es: seq<Event>, s': State, x: Entry, status: Status)
    requires Unique(s.table) && Steps(s, es, s') && x in s.table && FirstReap(Reaps(es), x.pid) == Some(status)
    ensures Report(x.pid, x.fd, status) in s'.reports
    decreases |es|
  {
    var s1 := Next(s, es[0]);
    match es[0]
    case Fork(_, _) =>
      assert Reaps(es) == Reaps(es[1..]);
      EndedIsReported(s1, es[1..], s', x, status);
    case Sigchld(reaped) =>
      assert Reaps(es) == reaped + Reaps(es[1..]);
      FirstReapConcat(reaped, Reaps(es[1..]), x.pid);
      ReapKeepsUnique(s.table, reaped);
      ReapedIsReported(s.table, reaped, x);
      if FirstReap(reaped, x.pid).Some? {
        ReportsStay(s1, es[1..], s');
      } else {
        EndedIsReported(s1, es[1..], s', x, status);
      }
  }

  lemma {:induction false} ReportsStay(s: State, es: seq<Event>, s': State)
    requires Steps(s, es, s')
    ensures forall r :: r in s.reports ==> r in s'.reports
    decreases |es|
  {
    if es != [] { ReportsStay(Next(s, es[0]), es[1..], s'); }
  }

  lemma {:induction false} ForkEnds(s: State, es: seq<Event>, s': State, pid: nat, fd: nat, status: Status, i: nat)
    requires Unique(s.table) && Steps(s, es, s') && i < |es| && es[i] == Fork(pid, fd)
    requires FirstReap(Reaps(es[i + 1..]), pid) == Some(status)
    ensures Report(pid, fd, status) in s'.reports
    decreases |es|
  {
    var s1 := Next(s, es[0]);
    if es[0].Sigchld? { ReapKeepsUnique(s.table, es[0].reaped); }
    if i == 0 {
      assert s1.table[|s.table|] == Entry(pid, fd);
      EndedIsReported(s1, es[1..], s', Entry(pid, fd), status);
    } else {
      assert es[1..][i - 1 + 1..] == es[i + 1..];
      ForkEnds(s1, es[1..], s', pid, fd, status, i - 1);
    }
  }

  lemma ExitIsWritten(es: seq<Event>, s: State, fd: nat, code: int)
    requires Steps(State([], []), es, s) && ExitOf(es, fd, code)
    ensures Write(fd, code) in AllActs(s.reports)
  {
    var pid :| EndedWith(es, pid, fd, Exited(code));
    var i :| 0 <= i < |es| && es[i] == Fork(pid, fd) && FirstReap(Reaps(es[i + 1..]), pid) == Some(Exited(code));
    ForkEnds(State([], []), es, s, pid, fd, Exited(code), i);
    var k :| 0 <= k < |s.reports| && s.reports[k] == Report(pid, fd, Exited(code));
    ReportIsWritten(s.reports, k, code);
  }

  /** The code is the one with which the first reap ended a child forked with this descriptor. */
  ghost predicate ExitOf(es: seq<Event>, fd: nat, code: int) {
    exists pid :: EndedWith(es, pid, fd, Exited(code))
  }

  /** Over every run of forks of distinct live pids and reaps in any order: the table is
      a finite map; each forked child's pid and descriptor pair is in the table or
      reported, exactly as often as it was forked; a descriptor is closed once for each
      fork it was made for whose child is no longer in the table, and written to at most
      as often, each time just before it is closed; and a code is written to it exactly
      when a child forked with it ended with that code. */
  lemma StatusGoesToItsOwner(es: seq<Event>, s: State)
    requires Steps(State([], []), es, s)
    ensures Unique(s.table)
    ensures Refines(s.table, MapRun(map[], es).0) && s.reports == MapRun(map[], es).1
    ensures multiset(Forks(es)) == multiset(s.table) + multiset(Pairs(s.reports))
    ensures forall fd :: Closes(AllActs(s.reports), fd) + Uses(s.table, fd) == Uses(Forks(es), fd)
    ensures forall fd :: Writes(AllActs(s.reports), fd) <= Closes(AllActs(s.reports), fd)
    ensures WritesThenCloses(AllActs(s.reports))
    ensures forall fd, code :: Write(fd, code) in AllActs(s.reports) <==> ExitOf(es, fd, code)
  {
    RunConserves(State([], []), es, s);
    RunRefines(State([], []), map[], es, s);
    assert [] + MapRun(map[], es).1 == MapRun(map[], es).1;
    forall fd: nat
      ensures Closes(AllActs(s.reports), fd) + Uses(s.table, fd) == Uses(Forks(es), fd)
      ensures Writes(AllActs(s.reports), fd) <= Closes(AllActs(s.reports), fd)
    {
      ReportsAct(s.reports, fd);
      UsesPermuted(Forks(es), s.table + Pairs(s.reports), fd);
      UsesConcat(s.table, Pairs(s.reports), fd);
    }
    ActsInOrder(s.reports);
    forall fd: nat, code ensures Write(fd, code) in AllActs(s.reports) <==> ExitOf(es, fd, code) {
      if Write(fd, code) in AllActs(s.reports) { WriteIsExit(es, s, fd, code); }
      if ExitOf(es, fd, code) { ExitIsWritten(es, s, fd, code); }
    }
  }

  lemma WriteIsExit(es: seq<Event>, s: State, fd: nat, code: int)
    requires Steps(State([], []), es, s) && Write(fd, code) in AllActs(s.reports)
    ensures ExitOf(es, fd, code)
  {
    var r := WriteHasReport(s.reports, fd, code);
    ReportsEnd(State([], []), es, s, r);
  }
}
