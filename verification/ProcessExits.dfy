/** What Wait gives, told from the events of the run: the status the link of the process
    ended with, or the error with which it could not be started. */
module ProcessExits {
  import opened Common
  import opened Processes

  /** What an event reports of the end of a link: the exit that came with the token, or
      status -1 and the error of a link that did not start. */
  function EndOf(e: Event): Option<Exit> {
    match e
    case TakeToken(_, x) => Some(x)
    case StartLink(_, Some(err)) => Some(Exit(-1, Some(err)))
    case _ => None
  }

  predicate LinksTo(threads: seq<Goroutine>, t: Thread, r: Ref) {
    t < |threads| && threads[t].Linker? && threads[t].ref == r
  }

  /** The event ends a link of process r. */
  predicate IsEnd(threads: seq<Goroutine>, e: Event, r: Ref) {
    EndOf(e).Some? && LinksTo(threads, e.t, r)
  }

  /** The ends of the links of process r, in order. */
  function Ends(threads: seq<Goroutine>, es: seq<Event>, r: Ref): seq<Exit> {
    if es == [] then []
    else (if IsEnd(threads, es[0], r) then [EndOf(es[0]).value] else []) + Ends(threads, es[1..], r)
  }

  predicate IsCompleting(s: State, u: Thread, r: Ref) {
    LinksTo(s.threads, u, r) && s.threads[u].link.Completing?
  }

  /** The ends so far are at most one; a linker about to complete the process carries it,
      and a completed process holds it. */
  ghost predicate EndsOk(s: State, r: Ref, ends: seq<Exit>) {
    if r >= |s.procs| then ends == [] else
    && |ends| <= 1
    && (s.procs[r].done ==> ends == [s.procs[r].exit])
    && (forall u: Thread :: IsCompleting(s, u, r) ==> ends == [s.threads[u].link.exit])
    && (ends != [] ==> s.procs[r].done || exists u: Thread :: IsCompleting(s, u, r))
  }

  lemma HolderIsOne(s: State, r: Ref, t: Thread, u: Thread)
    requires LinkInv(s) && LinksTo(s.threads, t, r) && LinksTo(s.threads, u, r)
    requires HoldsMutex(s.threads[t].link) && HoldsMutex(s.threads[u].link)
    ensures t == u && r < |s.procs|
  {
    assert ThreadOk(s.procs, t, s.threads[t]) && ThreadOk(s.procs, u, s.threads[u]);
  }

  /** When a link ends, none has before. */
  lemma FirstEnd(s: State, e: Event, r: Ref, ends: seq<Exit>)
    requires LinkInv(s) && Enabled(s, e) && EndsOk(s, r, ends) && IsEnd(s.threads, e, r)
    ensures ends == [] && r < |s.procs| && !s.procs[r].done
  {
    assert ThreadOk(s.procs, e.t, s.threads[e.t]);
    if ends != [] {
      var u: Thread :| IsCompleting(s, u, r);
      HolderIsOne(s, r, e.t, u);
    }
  }

  lemma EndStep(s: State, e: Event, r: Ref, ends: seq<Exit>)
    requires LinkInv(s) && Enabled(s, e) && EndsOk(s, r, ends) && IsEnd(s.threads, e, r)
    ensures EndsOk(Next(s, e), r, [EndOf(e).value])
  {
    FirstEnd(s, e, r, ends);
    var s' := Next(s, e);
    assert IsCompleting(s', e.t, r) && s'.threads[e.t].link.exit == EndOf(e).value;
    forall u: Thread | IsCompleting(s', u, r) ensures u == e.t {
      if u != e.t { assert IsCompleting(s, u, r); }
    }
  }

  lemma CompleteStep(s: State, e: Event, r: Ref, ends: seq<Exit>)
    requires LinkInv(s) && Enabled(s, e) && EndsOk(s, r, ends) && e.Complete? && LinksTo(s.threads, e.t, r)
    ensures EndsOk(Next(s, e), r, ends)
  {
    var s' := Next(s, e);
    assert ThreadOk(s.procs, e.t, s.threads[e.t]);
    assert IsCompleting(s, e.t, r);
    forall u: Thread ensures !IsCompleting(s', u, r) {
      if IsCompleting(s', u, r) {
        assert IsCompleting(s, u, r);
        HolderIsOne(s, r, e.t, u);
      }
    }
  }

  /** The step neither ends a link of r nor completes r. */
  ghost predicate Aside(s: State, e: Event, r: Ref) {
    !IsEnd(s.threads, e, r) && !(e.Complete? && LinksTo(s.threads, e.t, r))
  }

  lemma AsideLinker(s: State, e: Event, r: Ref, u: Thread)
    requires Enabled(s, e) && Aside(s, e, r)
    ensures IsCompleting(Next(s, e), u, r) <==> IsCompleting(s, u, r)
    ensures IsCompleting(s, u, r) ==> Next(s, e).threads[u].link == s.threads[u].link
  {
  }

  lemma AsideProcess(s: State, e: Event, r: Ref)
    requires Enabled(s, e) && Aside(s, e, r)
    ensures |s.procs| <= |Next(s, e).procs|
    ensures r < |s.procs| ==>
              Next(s, e).procs[r].done == s.procs[r].done && Next(s, e).procs[r].exit == s.procs[r].exit
    ensures |s.procs| <= r < |Next(s, e).procs| ==> !Next(s, e).procs[r].done
  {
  }

  /** Any other step leaves the completing linkers and the exit of the process alone. */
  lemma OtherStep(s: State, e: Event, r: Ref, ends: seq<Exit>)
    requires LinkInv(s) && Enabled(s, e) && EndsOk(s, r, ends) && Aside(s, e, r)
    ensures EndsOk(Next(s, e), r, ends)
  {
    AsideProcess(s, e, r);
    forall u: Thread
      ensures IsCompleting(Next(s, e), u, r) <==> IsCompleting(s, u, r)
      ensures IsCompleting(s, u, r) ==> Next(s, e).threads[u].link == s.threads[u].link
    {
      AsideLinker(s, e, r, u);
    }
    if r >= |s.procs| {
      assert forall u: Thread :: LinksTo(s.threads, u, r) ==> ThreadOk(s.procs, u, s.threads[u]);
    }
  }

  lemma StepEnds(s: State, e: Event, r: Ref, ends: seq<Exit>)
    requires LinkInv(s) && Enabled(s, e) && EndsOk(s, r, ends)
    ensures EndsOk(Next(s, e), r, ends + (if IsEnd(s.threads, e, r) then [EndOf(e).value] else []))
  {
    if IsEnd(s.threads, e, r) {
      FirstEnd(s, e, r, ends);
      EndStep(s, e, r, ends);
      assert [] + [EndOf(e).value] == [EndOf(e).value];
    } else {
      assert ends + [] == ends;
      if e.Complete? && LinksTo(s.threads, e.t, r) {
        CompleteStep(s, e, r, ends);
      } else {
        OtherStep(s, e, r, ends);
      }
    }
  }

  lemma LinkerStays(s: State, e: Event, t: Thread)
    requires Enabled(s, e) && t < |s.threads| && s.threads[t].Linker?
    ensures t < |Next(s, e).threads| && Next(s, e).threads[t].Linker?
    ensures Next(s, e).threads[t].ref == s.threads[t].ref
  {
  }

  lemma {:induction false} LinkerRemains(s: State, es: seq<Event>, s': State, t: Thread)
    requires Steps(s, es, s') && t < |s.threads| && s.threads[t].Linker?
    ensures t < |s'.threads| && s'.threads[t].Linker? && s'.threads[t].ref == s.threads[t].ref
    decreases |es|
  {
    if es != [] {
      LinkerStays(s, es[0], t);
      LinkerRemains(Next(s, es[0]), es[1..], s', t);
    }
  }

  /** Whom an ending goroutine works for is the same then and at the end of the run. */
  lemma SameEnd(s: State, es: seq<Event>, s': State, r: Ref)
    requires es != [] && Steps(s, es, s')
    ensures IsEnd(s'.threads, es[0], r) <==> IsEnd(s.threads, es[0], r)
  {
    if EndOf(es[0]).Some? { LinkerRemains(s, es, s', es[0].t); }
  }

  lemma {:induction false} RunEnds(s: State, es: seq<Event>, s': State, r: Ref, ends: seq<Exit>)
    requires LinkInv(s) && Steps(s, es, s') && EndsOk(s, r, ends)
    ensures EndsOk(s', r, ends + Ends(s'.threads, es, r))
    decreases |es|
  {
    if es == [] {
      assert ends + [] == ends;
    } else {
      var one := if IsEnd(s.threads, es[0], r) then [EndOf(es[0]).value] else [];
      SameEnd(s, es, s', r);
      StepEnds(s, es[0], r, ends);
      StepKeepsLinkInv(s, es[0]);
      RunEnds(Next(s, es[0]), es[1..], s', r, ends + one);
      assert ends + one + Ends(s'.threads, es[1..], r) == ends + (one + Ends(s'.threads, es[1..], r));
    }
  }

  lemma {:induction false} EndsHave(threads: seq<Goroutine>, es: seq<Event>, r: Ref, i: nat)
    requires i < |es| && IsEnd(threads, es[i], r)
    ensures EndOf(es[i]).value in Ends(threads, es, r)
  {
    if i > 0 { EndsHave(threads, es[1..], r, i - 1); }
  }

  /** Two events that end links of one process are the same. */
  lemma {:induction false} OneEnd(threads: seq<Goroutine>, es: seq<Event>, r: Ref, i: nat, j: nat)
    requires |Ends(threads, es, r)| <= 1 && i < |es| && j < |es|
    requires IsEnd(threads, es[i], r) && IsEnd(threads, es[j], r)
    ensures i == j
  {
    if i == 0 && j > 0 {
      EndsHave(threads, es[1..], r, j - 1);
    } else if j == 0 && i > 0 {
      EndsHave(threads, es[1..], r, i - 1);
    } else if i > 0 {
      OneEnd(threads, es[1..], r, i - 1, j - 1);
    }
  }

  lemma {:induction false} EndAt(threads: seq<Goroutine>, es: seq<Event>, r: Ref) returns (i: nat)
    requires |Ends(threads, es, r)| == 1
    ensures i < |es| && IsEnd(threads, es[i], r) && [EndOf(es[i]).value] == Ends(threads, es, r)
  {
    if IsEnd(threads, es[0], r) {
      i := 0;
    } else {
      var j := EndAt(threads, es[1..], r);
      i := j + 1;
    }
  }

  /** Over every interleaving: in the events of the run at most one ends a link of a given
      process, and every Wait that returned gave just what that event reported. */
  lemma WaitGivesTheEnd(s0: State, es: seq<Event>, s: State, t: Thread, r: Ref, x: Exit)
    requires Init(s0) && Steps(s0, es, s) && WaitGave(s, t, r, x)
    ensures exists i :: 0 <= i < |es| && IsEnd(s.threads, es[i], r) && EndOf(es[i]) == Some(x)
    ensures forall i, j ::
              0 <= i < |es| && 0 <= j < |es| && IsEnd(s.threads, es[i], r) && IsEnd(s.threads, es[j], r) ==> i == j
  {
    RunKeepsLinkInv(s0, es, s);
    RunEnds(s0, es, s, r, []);
    assert [] + Ends(s.threads, es, r) == Ends(s.threads, es, r);
    assert ThreadOk(s.procs, t, s.threads[t]);
    var k := EndAt(s.threads, es, r);
    forall i, j | 0 <= i < |es| && 0 <= j < |es| && IsEnd(s.threads, es[i], r) && IsEnd(s.threads, es[j], r)
      ensures i == j
    {
      OneEnd(s.threads, es, r, i, j);
    }
  }

  // ---- Every end can be waited for -----------------------------------------------------------

  lemma {:induction false} Extend(s0: State, es: seq<Event>, s: State, e: Event)
    requires Steps(s0, es, s) && Enabled(s, e)
    ensures Steps(s0, es + [e], Next(s, e))
    decreases |es|
  {
    if es == [] {
      assert ([] + [e])[1..] == [];
    } else {
      Extend(Next(s0, es[0]), es[1..], s, e);
      assert (es + [e])[1..] == es[1..] + [e] && (es + [e])[0] == es[0];
    }
  }

  /** One process, being linked by goroutine 0 and waited for by goroutine 1. */
  ghost predicate BeingLinked(s: State) {
    && |s.procs| == 1 && !s.procs[0].done && s.procs[0].taker.Nobody?
    && |s.threads| == 2 && s.threads[0].Linker? && s.threads[0].ref == 0 && s.threads[0].link.Opening?
    && s.threads[1] == Waiter(0, None)
  }

  predicate IsStart(e: Event) { e.Run? || e.Restore? || e.GoLink? }

  /** The same processes and links are started. */
  ghost predicate SameStarts(es: seq<Event>, fs: seq<Event>) {
    forall e :: IsStart(e) ==> (e in es <==> e in fs)
  }

  /** The goroutine that links by id finds the process and starts on it. */
  lemma Found(s0: State, es0: seq<Event>, s: State, id: Id) returns (es: seq<Event>, s': State)
    requires Steps(s0, es0, s) && s.procs == [NewProcess(id)] && s.threads == [LinkById(id)]
    requires id in s.table.processes && s.table.processes[id] == 0
    ensures Steps(s0, es, s') && BeingLinked(s') && SameStarts(es0, es)
  {
    var s1 := Next(s, GoWait(0));
    var s2 := Next(s1, Lookup(0));
    Extend(s0, es0, s, GoWait(0));
    Extend(s0, es0 + [GoWait(0)], s1, Lookup(0));
    Extend(s0, es0 + [GoWait(0)] + [Lookup(0)], s2, LockLinks(0));
    es, s' := es0 + [GoWait(0)] + [Lookup(0)] + [LockLinks(0)], Next(s2, LockLinks(0));
  }

  /** A process that is run, and linked as Run and Attach do. */
  lemma RunAndLinked(s0: State) returns (es: seq<Event>, s: State)
    requires Init(s0)
    ensures Steps(s0, es, s) && BeingLinked(s)
  {
    var s1 := Next(s0, Run);
    Extend(s0, [], s0, Run);
    Extend(s0, [] + [Run], s1, GoLink(1));
    es, s := Found(s0, [] + [Run] + [GoLink(1)], Next(s1, GoLink(1)), 1);
  }

  /** A restored process is linked by the restore itself. */
  lemma RestoredAndLinked(s0: State, id: Id) returns (es: seq<Event>, s: State)
    requires Init(s0) && id < UINT32
    ensures Steps(s0, es, s) && BeingLinked(s) && SameStarts([Restore(id)], es)
  {
    assert [] + [Restore(id)] == [Restore(id)];
    Extend(s0, [], s0, Restore(id));
    es, s := Found(s0, [] + [Restore(id)], Next(s0, Restore(id)), id);
  }

  lemma Waited(s0: State, es0: seq<Event>, s: State, x: Exit) returns (es: seq<Event>, s': State)
    requires Steps(s0, es0, s) && |s.procs| == 1 && |s.threads| == 2 && !s.procs[0].done
    requires s.threads[0].Linker? && s.threads[0].ref == 0 && s.threads[0].link == Completing(x)
    requires s.threads[1] == Waiter(0, None)
    ensures Steps(s0, es, s') && WaitGave(s', 1, 0, x) && SameStarts(es0, es)
  {
    var s1 := Next(s, Complete(0));
    Extend(s0, es0, s, Complete(0));
    Extend(s0, es0 + [Complete(0)], s1, WaitReturns(1));
    es, s' := es0 + [Complete(0)] + [WaitReturns(1)], Next(s1, WaitReturns(1));
  }

  /** The link starts, exits, and its linker takes the token. */
  lemma Exited(s0: State, es0: seq<Event>, s: State, x: Exit) returns (es: seq<Event>, s': State)
    requires Steps(s0, es0, s) && BeingLinked(s)
    ensures Steps(s0, es, s') && |s'.procs| == 1 && !s'.procs[0].done && SameStarts(es0, es)
    ensures s'.threads == s.threads[0 := s.threads[0].(link := Completing(x))]
  {
    var s1 := Next(s, StartLink(0, None));
    var s2 := Next(s1, LinkExits(0));
    Extend(s0, es0, s, StartLink(0, None));
    Extend(s0, es0 + [StartLink(0, None)], s1, LinkExits(0));
    Extend(s0, es0 + [StartLink(0, None)] + [LinkExits(0)], s2, TakeToken(0, x));
    es, s' := es0 + [StartLink(0, None)] + [LinkExits(0)] + [TakeToken(0, x)], Next(s2, TakeToken(0, x));
  }

  /** Whatever the link of a process ends with, there is a run in which Wait gives it, for a
      process that was run and for one that was restored. */
  lemma ExitCanBeWaitedFor(s0: State, restored: Option<Id>, x: Exit) returns (es: seq<Event>, s: State)
    requires Init(s0) && (restored.Some? ==> restored.value < UINT32)
    ensures Steps(s0, es, s) && WaitGave(s, 1, 0, x)
    ensures restored.Some? ==> Run !in es && Restore(restored.value) in es && forall id :: GoLink(id) !in es
  {
    if restored.None? {
      es, s := RunAndLinked(s0);
    } else {
      es, s := RestoredAndLinked(s0, restored.value);
    }
    es, s := Exited(s0, es, s, x);
    es, s := Waited(s0, es, s, x);
  }

  /** And so for the error of a link that does not start. */
  lemma StartErrorCanBeWaitedFor(s0: State, err: string) returns (es: seq<Event>, s: State)
    requires Init(s0)
    ensures Steps(s0, es, s) && WaitGave(s, 1, 0, Exit(-1, Some(err)))
  {
    es, s := RunAndLinked(s0);
    var e := StartLink(0, Some(err));
    Extend(s0, es, s, e);
    es, s := Waited(s0, es + [e], Next(s, e), Exit(-1, Some(err)));
  }
}
