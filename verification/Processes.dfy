/** The link/unlink protocol of a tracked process, and the tracker's table.
    Goroutines run Link (through the tracker), Unlink and Wait; each lock-protected
    section, channel operation and call of the command runner is one atomic step.
    Process objects are numbered in the order NewProcess made them. */
module Processes {
  import opened Common

  type Id = nat
  type Ref = nat
  type Thread = nat

  datatype Exit = Exit(status: int, err: Option<string>)

  /** Who received the single value of the `unlinked` channel. */
  datatype Taker = Nobody | ByLinker | ByUnlink(t: Thread)

  /** `mutex` is the goroutine holding waitingLinks, `started` the fired Once,
      `linkCloses` how often close(linked) ran. */
  datatype Process = Process(
    id: Id, mutex: Option<Thread>, started: bool, linkCloses: nat, taker: Taker,
    interrupts: nat, done: bool, exit: Exit)

  function NewProcess(id: Id): Process {
    Process(id, None, false, 0, Nobody, 0, false, Exit(0, None))
  }

  function Completed(p: Process, e: Exit): Process {
    if p.done then p else p.(done := true, exit := e)
  }

  datatype Table = Table(processes: map<Id, Ref>, next: nat)

  function Registered(tb: Table, r: Ref): Table {
    Table(tb.processes[tb.next := r], (tb.next + 1) % UINT32)
  }

  function Restored(tb: Table, id: Id, r: Ref): Table {
    Table(tb.processes[id := r], if id >= tb.next then (id + 1) % UINT32 else tb.next)
  }

  function Unregistered(tb: Table, id: Id): Table {
    tb.(processes := tb.processes - {id})
  }

  /** The tracker's three writers of its table. */
  class ProcessTracker {
    var processes: map<Id, Ref>
    var nextProcessID: nat

    ghost function View(): Table reads this { Table(processes, nextProcessID) }

    constructor ()
      ensures View() == Table(map[], 1)
    {
      processes, nextProcessID := map[], 1;
    }

    method Register(process: Ref) returns (processID: Id)
      modifies this
      ensures processID == old(nextProcessID) && View() == Registered(old(View()), process)
    {
      processID := nextProcessID;
      nextProcessID := (nextProcessID + 1) % UINT32;
      processes := processes[processID := process];
    }

    method Restore(processID: Id, process: Ref)
      modifies this
      ensures View() == Restored(old(View()), processID, process)
    {
      processes := processes[processID := process];
      if processID >= nextProcessID {
        nextProcessID := (processID + 1) % UINT32;
      }
    }

    method Unregister(processID: Id)
      modifies this
      ensures View() == Unregistered(old(View()), processID)
    {
      processes := processes - {processID};
    }
  }

  datatype LinkStage =
    | AwaitMutex | Opening | Running | AwaitToken | Completing(exit: Exit) | Unlocking | Unregistering | Linked

  datatype UnlinkStage = AwaitLinked | Selecting | Signalling | Interrupted | AlreadyExited

  datatype Goroutine =
    | LinkById(id: Id)
    | Linker(id: Id, ref: Ref, link: LinkStage)
    | NotFound
    | Unlinker(ref: Ref, unlink: UnlinkStage)
    | Waiter(ref: Ref, result: Option<Exit>)

  datatype State = State(procs: seq<Process>, table: Table, threads: seq<Goroutine>)

  datatype Event =
    | Run | Restore(id: Id) | GoLink(id: Id) | GoUnlink(id: Id) | GoWait(ref: Ref)
    | Lookup(t: Thread) | LockLinks(t: Thread) | StartLink(t: Thread, err: Option<string>) | LinkExits(t: Thread)
    | TakeToken(t: Thread, exit: Exit) | Complete(t: Thread) | UnlockLinks(t: Thread) | Unregister(t: Thread)
    | SeeLinked(t: Thread) | Select(t: Thread) | Signal(t: Thread) | WaitReturns(t: Thread)

  ghost predicate Init(s: State) {
    s == State([], Table(map[], 1), [])
  }

  predicate IsLinker(s: State, t: Thread, st: LinkStage) {
    t < |s.threads| && s.threads[t].Linker? && s.threads[t].ref < |s.procs| && s.threads[t].link == st
  }

  predicate IsUnlinker(s: State, t: Thread, st: UnlinkStage) {
    t < |s.threads| && s.threads[t].Unlinker? && s.threads[t].ref < |s.procs| && s.threads[t].unlink == st
  }

  predicate Enabled(s: State, e: Event) {
    match e
    case Run => true
    case Restore(id) => id < UINT32
    case GoLink(_) => true
    case GoUnlink(id) => id in s.table.processes
    case GoWait(r) => r < |s.procs|
    case Lookup(t) => t < |s.threads| && s.threads[t].LinkById?
    case LockLinks(t) => IsLinker(s, t, AwaitMutex) && s.procs[s.threads[t].ref].mutex.None?
    case StartLink(t, _) => IsLinker(s, t, Opening)
    case LinkExits(t) => IsLinker(s, t, Running)
    case TakeToken(t, _) => IsLinker(s, t, AwaitToken) && s.procs[s.threads[t].ref].taker.Nobody?
    case Complete(t) =>
      t < |s.threads| && s.threads[t].Linker? && s.threads[t].ref < |s.procs| && s.threads[t].link.Completing?
    case UnlockLinks(t) => IsLinker(s, t, Unlocking)
    case Unregister(t) => IsLinker(s, t, Unregistering)
    case SeeLinked(t) => IsUnlinker(s, t, AwaitLinked) && s.procs[s.threads[t].ref].linkCloses > 0
    case Select(t) => IsUnlinker(s, t, Selecting)
    case Signal(t) => IsUnlinker(s, t, Signalling)
    case WaitReturns(t) =>
      t < |s.threads| && s.threads[t].Waiter? && s.threads[t].result.None?
      && s.threads[t].ref < |s.procs| && s.procs[s.threads[t].ref].done
  }

  /** Goroutine t goes on as g, leaving its process as p. */
  function Go(s: State, t: Thread, p: Process, g: Goroutine): State
    requires t < |s.threads| && (s.threads[t].Linker? || s.threads[t].Unlinker? || s.threads[t].Waiter?)
    requires s.threads[t].ref < |s.procs|
  {
    s.(procs := s.procs[s.threads[t].ref := p], threads := s.threads[t := g])
  }

  predicate OfThread(e: Event) {
    !e.Run? && !e.Restore? && !e.GoLink? && !e.GoUnlink? && !e.GoWait? && !e.Lookup?
  }

  /** The step of a goroutine that already works on a process. */
  function Move(s: State, e: Event): State
    requires Enabled(s, e) && OfThread(e)
  {
    var g := s.threads[e.t];
    var p := s.procs[g.ref];
    match e
    case LockLinks(t) =>
      if p.started then Go(s, t, p.(mutex := Some(t)), g.(link := Unlocking))
      else Go(s, t, p.(mutex := Some(t), started := true), g.(link := Opening))
    case StartLink(t, None) => Go(s, t, p.(linkCloses := p.linkCloses + 1), g.(link := Running))
    case StartLink(t, Some(err)) => Go(s, t, p, g.(link := Completing(Exit(-1, Some(err)))))
    case LinkExits(t) => Go(s, t, p, g.(link := AwaitToken))
    case TakeToken(t, exit) => Go(s, t, p.(taker := ByLinker), g.(link := Completing(exit)))
    case Complete(t) => Go(s, t, Completed(p, g.link.exit), g.(link := Unlocking))
    case UnlockLinks(t) => Go(s, t, p.(mutex := None), g.(link := Unregistering))
    case Unregister(t) => Go(s, t, p, g.(link := Linked)).(table := Unregistered(s.table, g.id))
    case SeeLinked(t) => Go(s, t, p, g.(unlink := Selecting))
    case Select(t) =>
      if p.taker.Nobody? then Go(s, t, p.(taker := ByUnlink(t)), g.(unlink := Signalling))
      else Go(s, t, p, g.(unlink := AlreadyExited))
    case Signal(t) => Go(s, t, p.(interrupts := p.interrupts + 1), g.(unlink := Interrupted))
    case WaitReturns(t) => Go(s, t, p, g.(result := Some(p.exit)))
  }

  function Next(s: State, e: Event): State
    requires Enabled(s, e)
  {
    var r := |s.procs|;
    match e
    case Run =>
      s.(procs := s.procs + [NewProcess(s.table.next)], table := Registered(s.table, r))
    case Restore(id) =>
      State(s.procs + [NewProcess(id)], Restored(s.table, id, r), s.threads + [LinkById(id)])
    case GoLink(id) => s.(threads := s.threads + [LinkById(id)])
    case GoUnlink(id) => s.(threads := s.threads + [Unlinker(s.table.processes[id], AwaitLinked)])
    case GoWait(ref) => s.(threads := s.threads + [Waiter(ref, None)])
    case Lookup(t) =>
      var id := s.threads[t].id;
      s.(threads := s.threads[t := if id in s.table.processes then Linker(id, s.table.processes[id], AwaitMutex)
                                   else NotFound])
    case _ => Move(s, e)
  }

  ghost predicate Steps(s: State, es: seq<Event>, s': State)
    decreases |es|
  {
    if es == [] then s' == s else Enabled(s, es[0]) && Steps(Next(s, es[0]), es[1..], s')
  }

  // ---- The protocol, whatever ids are restored ------------------------------------

  predicate HoldsMutex(st: LinkStage) {
    st.Opening? || st.Running? || st.AwaitToken? || st.Completing? || st.Unlocking?
  }

  /** What a linker's stage tells about its process. */
  ghost predicate LinkerOk(p: Process, t: Thread, st: LinkStage) {
    && (HoldsMutex(st) ==> p.mutex == Some(t) && p.started)
    && match st
       case AwaitMutex => true
       case Opening => p.linkCloses == 0 && !p.done && p.taker.Nobody?
       case Running => p.linkCloses == 1 && !p.done && !p.taker.ByLinker?
       case AwaitToken => p.linkCloses == 1 && !p.done && !p.taker.ByLinker?
       case Completing(_) => !p.done && (if p.linkCloses == 0 then p.taker.Nobody? else p.taker.ByLinker?)
       case Unlocking => p.done
       case Unregistering => p.done
       case Linked => p.done
  }

  ghost predicate UnlinkerOk(p: Process, t: Thread, st: UnlinkStage) {
    match st
    case AwaitLinked => true
    case Selecting => p.linkCloses == 1
    case Signalling => p.taker == ByUnlink(t) && p.interrupts == 0
    case Interrupted => p.taker == ByUnlink(t) && p.interrupts == 1
    case AlreadyExited => p.linkCloses == 1 && !p.taker.Nobody?
  }

  ghost predicate ThreadOk(procs: seq<Process>, t: Thread, g: Goroutine) {
    match g
    case LinkById(_) => true
    case NotFound => true
    case Linker(_, r, st) => r < |procs| && LinkerOk(procs[r], t, st)
    case Unlinker(r, st) => r < |procs| && UnlinkerOk(procs[r], t, st)
    case Waiter(r, res) => r < |procs| && (res.Some? ==> procs[r].done && res.value == procs[r].exit)
  }

  ghost predicate HoldsMutexOf(s: State, t: Thread, r: Ref) {
    t < |s.threads| && s.threads[t].Linker? && s.threads[t].ref == r && HoldsMutex(s.threads[t].link)
  }

  ghost predicate ProcessOk(s: State, r: Ref)
    requires r < |s.procs|
  {
    var p := s.procs[r];
    && p.linkCloses <= 1
    && (p.mutex.Some? ==> HoldsMutexOf(s, p.mutex.value, r))
    && (!p.started ==> p.mutex.None? && p.linkCloses == 0 && !p.done)
    && (p.started && p.mutex.None? ==> p.done)
    && (p.linkCloses == 0 ==> p.taker.Nobody?)
    && (p.done ==> p.taker.ByLinker? || p.linkCloses == 0)
    && match p.taker
       case Nobody => p.interrupts == 0
       case ByLinker => p.interrupts == 0
       case ByUnlink(t) => t < |s.threads| && s.threads[t].Unlinker? && s.threads[t].ref == r
                           && (s.threads[t].unlink.Signalling? || s.threads[t].unlink.Interrupted?)
  }

  ghost predicate LinkInv(s: State) {
    && (forall id :: id in s.table.processes ==> s.table.processes[id] < |s.procs|)
    && (forall t :: 0 <= t < |s.threads| ==> ThreadOk(s.procs, t, s.threads[t]))
    && (forall r :: 0 <= r < |s.procs| ==> ProcessOk(s, r))
  }

  /** Replacing p by q, as goroutine t does, leaves what the others rely on. */
  ghost predicate Harmless(p: Process, q: Process, t: Thread) {
    && (forall u, st :: u != t && LinkerOk(p, u, st) ==> LinkerOk(q, u, st))
    && (forall u, st :: u != t && UnlinkerOk(p, u, st) ==> UnlinkerOk(q, u, st))
    && (p.done ==> q.done && q.exit == p.exit)
  }

  lemma GoKeepsLinkInv(s: State, s': State, t: Thread, q: Process, g: Goroutine)
    requires LinkInv(s) && t < |s.threads|
    requires s.threads[t].Linker? || s.threads[t].Unlinker? || s.threads[t].Waiter?
    requires s.threads[t].ref < |s.procs| && Harmless(s.procs[s.threads[t].ref], q, t)
    requires s'.procs == s.procs[s.threads[t].ref := q] && s'.threads == s.threads[t := g]
    requires ThreadOk(s'.procs, t, g) && ProcessOk(s', s.threads[t].ref)
    requires forall id :: id in s'.table.processes ==>
               id in s.table.processes && s'.table.processes[id] == s.table.processes[id]
    ensures LinkInv(s')
  {
    forall u | 0 <= u < |s'.threads| ensures ThreadOk(s'.procs, u, s'.threads[u]) {
      assert ThreadOk(s.procs, u, s.threads[u]);
    }
    forall r | 0 <= r < |s'.procs| ensures ProcessOk(s', r) {
      assert ProcessOk(s, r);
    }
  }

  lemma LinkerKeepsLinkInv(s: State, e: Event)
    requires LinkInv(s) && Enabled(s, e) && OfThread(e) && s.threads[e.t].Linker?
    ensures LinkInv(Next(s, e))
  {
    var s' := Next(s, e);
    var g := s.threads[e.t];
    assert ThreadOk(s.procs, e.t, g);
    assert ProcessOk(s, g.ref);
    GoKeepsLinkInv(s, s', e.t, s'.procs[g.ref], s'.threads[e.t]);
  }

  lemma UnlinkerKeepsLinkInv(s: State, e: Event)
    requires LinkInv(s) && Enabled(s, e) && OfThread(e) && !s.threads[e.t].Linker?
    ensures LinkInv(Next(s, e))
  {
    var s' := Next(s, e);
    var g := s.threads[e.t];
    assert ThreadOk(s.procs, e.t, g);
    assert ProcessOk(s, g.ref);
    GoKeepsLinkInv(s, s', e.t, s'.procs[g.ref], s'.threads[e.t]);
  }

  lemma StepKeepsLinkInv(s: State, e: Event)
    requires LinkInv(s) && Enabled(s, e)
    ensures LinkInv(Next(s, e))
  {
    if OfThread(e) {
      if s.threads[e.t].Linker? { LinkerKeepsLinkInv(s, e); } else { UnlinkerKeepsLinkInv(s, e); }
    } else {
      var s' := Next(s, e);
      forall t | 0 <= t < |s'.threads| ensures ThreadOk(s'.procs, t, s'.threads[t]) {
        if t < |s.threads| { assert ThreadOk(s.procs, t, s.threads[t]); }
      }
      forall r | 0 <= r < |s'.procs| ensures ProcessOk(s', r) {
        if r < |s.procs| { assert ProcessOk(s, r); }
      }
    }
  }

  lemma {:induction false} RunKeepsLinkInv(s: State, es: seq<Event>, s': State)
    requires LinkInv(s) && Steps(s, es, s')
    ensures LinkInv(s')
    decreases |es|
  {
    if es != [] {
      StepKeepsLinkInv(s, es[0]);
      RunKeepsLinkInv(Next(s, es[0]), es[1..], s');
    }
  }

  ghost predicate SentInterrupt(s: State, t: Thread, r: Ref) {
    t < |s.threads| && s.threads[t] == Unlinker(r, Interrupted)
  }

  ghost predicate WaitGave(s: State, t: Thread, r: Ref, x: Exit) {
    t < |s.threads| && s.threads[t] == Waiter(r, Some(x))
  }

  /** In every interleaving: the linked channel is closed at most once, at most one
      interrupt is sent (by one Unlink), a process whose token an Unlink took is never
      completed, and every Wait that returned on a process gave the same result. */
  lemma LinkProtocolIsSafe(s0: State, es: seq<Event>, s: State)
    requires Init(s0) && Steps(s0, es, s)
    ensures forall r :: 0 <= r < |s.procs| ==> s.procs[r].linkCloses <= 1 && s.procs[r].interrupts <= 1
    ensures forall r :: 0 <= r < |s.procs| && (s.procs[r].interrupts > 0 || s.procs[r].taker.ByUnlink?) ==>
              !s.procs[r].done
    ensures forall t, u, r :: SentInterrupt(s, t, r) && SentInterrupt(s, u, r) ==> t == u
    ensures forall t, u, r, x, y :: WaitGave(s, t, r, x) && WaitGave(s, u, r, y) ==> x == y
  {
    RunKeepsLinkInv(s0, es, s);
    forall r | 0 <= r < |s.procs|
      ensures s.procs[r].linkCloses <= 1 && s.procs[r].interrupts <= 1
      ensures s.procs[r].interrupts > 0 || s.procs[r].taker.ByUnlink? ==> !s.procs[r].done
    {
      assert ProcessOk(s, r);
      if s.procs[r].taker.ByUnlink? {
        var t := s.procs[r].taker.t;
        assert ThreadOk(s.procs, t, s.threads[t]);
      }
    }
    assert forall t :: 0 <= t < |s.threads| ==> ThreadOk(s.procs, t, s.threads[t]);
  }

  // ---- The table --------------------------------------------------------------------

  ghost predicate Listed(s: State, r: Ref)
    requires r < |s.procs|
  {
    s.procs[r].id in s.table.processes && s.table.processes[s.procs[r].id] == r
  }

  /** Every process that has not completed is still in the table. */
  ghost predicate NoneLost(s: State) {
    forall r :: 0 <= r < |s.procs| && !s.procs[r].done ==> Listed(s, r)
  }

  /** No goroutine will still unregister this id, and no process is listed under it. */
  ghost predicate Free(s: State, id: Id) {
    && id !in s.table.processes
    && forall t :: 0 <= t < |s.threads| && s.threads[t].Linker? && s.threads[t].id == id ==> s.threads[t].link.Linked?
  }

  /** The id a new process gets. */
  function IdOf(s: State, e: Event): Id
    requires e.Run? || e.Restore?
  {
    if e.Run? then s.table.next else e.id
  }

  /** Ids are given out only when free. */
  ghost predicate Disciplined(s: State, e: Event) {
    e.Run? || e.Restore? ==> Free(s, IdOf(s, e))
  }

  ghost predicate DisciplinedSteps(s: State, es: seq<Event>, s': State)
    decreases |es|
  {
    if es == [] then s' == s
    else Enabled(s, es[0]) && Disciplined(s, es[0]) && DisciplinedSteps(Next(s, es[0]), es[1..], s')
  }

  ghost predicate LinkerMatches(s: State, t: Thread)
    requires t < |s.threads|
  {
    var g := s.threads[t];
    g.Linker? && !g.link.Linked? && g.ref < |s.procs| ==>
      s.procs[g.ref].id == g.id && (g.id in s.table.processes ==> s.table.processes[g.id] == g.ref)
  }

  ghost predicate WillUnregister(s: State, t: Thread, r: Ref) {
    t < |s.threads| && s.threads[t].Linker? && s.threads[t].ref == r
    && (s.threads[t].link.Unlocking? || s.threads[t].link.Unregistering?)
  }

  ghost predicate AboveAll(s: State) {
    forall r :: 0 <= r < |s.procs| ==> s.procs[r].id < s.table.next
  }

  ghost predicate TableInv(s: State) {
    LinkInv(s) && NoneLost(s) && IdsRight(s) && AllMatch(s) && AllPending(s)
  }

  ghost predicate AllMatch(s: State) {
    forall t :: 0 <= t < |s.threads| ==> LinkerMatches(s, t)
  }

  ghost predicate AllPending(s: State) {
    forall r :: 0 <= r < |s.procs| && s.procs[r].done && Listed(s, r) ==> exists t :: WillUnregister(s, t, r)
  }

  ghost predicate IdsRight(s: State) {
    forall id :: id in s.table.processes ==>
      s.table.processes[id] < |s.procs| && s.procs[s.table.processes[id]].id == id
  }

  /** What the step of a goroutine working on a process changes. */
  ghost predicate Moved(s: State, t: Thread, s': State) {
    && t < |s.threads|
    && (s.threads[t].Linker? || s.threads[t].Unlinker? || s.threads[t].Waiter?)
    && var r := s.threads[t].ref;
       && r < |s.procs| == |s'.procs| && s'.procs == s.procs[r := s'.procs[r]]
       && |s'.threads| == |s.threads| && s'.threads == s.threads[t := s'.threads[t]]
       && s'.procs[r].id == s.procs[r].id && (s.procs[r].done ==> s'.procs[r].done)
       && (s.threads[t].Linker? ==>
             s'.threads[t].Linker? && s'.threads[t].id == s.threads[t].id && s'.threads[t].ref == r)
       && (if s.threads[t].Linker? then !s.threads[t].link.Linked? else !s'.threads[t].Linker?)
       && s'.table.next == s.table.next
  }

  /** Either the linker unregisters, or the table stays and a process done by this step
      is about to be unregistered by it. */
  ghost predicate MovedTable(s: State, t: Thread, s': State)
    requires Moved(s, t, s')
  {
    var r := s.threads[t].ref;
    if s.threads[t].Linker? && s.threads[t].link.Unregistering? then
      s'.table == Unregistered(s.table, s.threads[t].id) && s'.threads[t].link.Linked? && s'.procs[r] == s.procs[r]
    else
      && s'.table == s.table
      && (s'.procs[r].done && !s.procs[r].done ==> WillUnregister(s', t, r))
      && (WillUnregister(s, t, r) ==> WillUnregister(s', t, r))
  }

  lemma MoveChanges(s: State, e: Event)
    requires LinkInv(s) && Enabled(s, e) && OfThread(e)
    ensures Moved(s, e.t, Next(s, e)) && MovedTable(s, e.t, Next(s, e))
  {
  }

  lemma MoveKeepsPending(s: State, t: Thread, s': State)
    requires TableInv(s) && Moved(s, t, s') && MovedTable(s, t, s')
    ensures AllPending(s')
  {
    forall r | 0 <= r < |s'.procs| && s'.procs[r].done && Listed(s', r) ensures exists t :: WillUnregister(s', t, r) {
      if s.procs[r].done {
        assert Listed(s, r);
        var u :| WillUnregister(s, u, r);
        assert LinkerMatches(s, t) && LinkerMatches(s, u);
        assert WillUnregister(s', u, r);
      } else {
        assert WillUnregister(s', t, r);
      }
    }
  }

  lemma MoveKeepsMatches(s: State, t: Thread, s': State)
    requires TableInv(s) && Moved(s, t, s') && MovedTable(s, t, s')
    ensures AllMatch(s')
  {
    forall u | 0 <= u < |s'.threads| ensures LinkerMatches(s', u) {
      assert LinkerMatches(s, u) && ThreadOk(s.procs, u, s.threads[u]);
    }
  }

  lemma MoveLosesNone(s: State, t: Thread, s': State)
    requires TableInv(s) && Moved(s, t, s') && MovedTable(s, t, s')
    ensures NoneLost(s') && IdsRight(s')
  {
    assert LinkerMatches(s, t) && ThreadOk(s.procs, t, s.threads[t]);
    forall r | 0 <= r < |s'.procs| && !s'.procs[r].done ensures Listed(s', r) {
      assert Listed(s, r);
    }
  }

  lemma StartKeepsTable(s: State, e: Event)
    requires TableInv(s) && Enabled(s, e) && Disciplined(s, e) && !OfThread(e)
    ensures AllMatch(Next(s, e)) && NoneLost(Next(s, e)) && IdsRight(Next(s, e))
  {
    var s' := Next(s, e);
    forall t | 0 <= t < |s'.threads| ensures LinkerMatches(s', t) {
      if t < |s.threads| {
        assert LinkerMatches(s, t) && ThreadOk(s.procs, t, s.threads[t]);
      }
    }
    forall r | 0 <= r < |s'.procs| && !s'.procs[r].done ensures Listed(s', r) {
      if r < |s.procs| { assert Listed(s, r); }
    }
  }

  lemma StartKeepsPending(s: State, e: Event)
    requires TableInv(s) && Enabled(s, e) && !OfThread(e)
    ensures AllPending(Next(s, e))
  {
    var s' := Next(s, e);
    forall r | 0 <= r < |s'.procs| && s'.procs[r].done && Listed(s', r) ensures exists t :: WillUnregister(s', t, r) {
      assert Listed(s, r);
      var t :| WillUnregister(s, t, r);
      assert WillUnregister(s', t, r);
    }
  }

  lemma StepKeepsTableInv(s: State, e: Event)
    requires TableInv(s) && Enabled(s, e) && Disciplined(s, e)
    ensures TableInv(Next(s, e))
  {
    StepKeepsLinkInv(s, e);
    var s' := Next(s, e);
    if OfThread(e) {
      MoveChanges(s, e);
      MoveKeepsMatches(s, e.t, s');
      MoveKeepsPending(s, e.t, s');
      MoveLosesNone(s, e.t, s');
    } else {
      StartKeepsTable(s, e);
      StartKeepsPending(s, e);
    }
  }

  lemma {:induction false} RunKeepsTableInv(s: State, es: seq<Event>, s': State)
    requires TableInv(s) && DisciplinedSteps(s, es, s')
    ensures TableInv(s')
    decreases |es|
  {
    if es != [] {
      StepKeepsTableInv(s, es[0]);
      RunKeepsTableInv(Next(s, es[0]), es[1..], s');
    }
  }

  /** A process leaves the tracker only after its linker completed it; so one that
      an Unlink detached is still listed, under its own id, by any later snapshot. */
  lemma DetachedStaysListed(s0: State, es: seq<Event>, s: State)
    requires Init(s0) && DisciplinedSteps(s0, es, s)
    ensures NoneLost(s) && IdsRight(s)
    ensures forall r :: 0 <= r < |s.procs| && s.procs[r].taker.ByUnlink? ==> Listed(s, r)
  {
    RunKeepsTableInv(s0, es, s);
    forall r | 0 <= r < |s.procs| && s.procs[r].taker.ByUnlink? ensures Listed(s, r) {
      assert ProcessOk(s, r);
    }
  }

  // ---- The counter --------------------------------------------------------------------

  /** No process ever got the largest uint32. */
  ghost predicate NoLast(s: State) {
    forall r :: 0 <= r < |s.procs| ==> s.procs[r].id != UINT32 - 1
  }

  ghost predicate CounterInv(s: State) {
    s.table.next < UINT32 && (NoLast(s) ==> AboveAll(s))
  }

  /** Processes are never dropped from the heap and keep their ids. */
  lemma StepKeepsIds(s: State, e: Event)
    requires Enabled(s, e)
    ensures |s.procs| <= |Next(s, e).procs|
    ensures forall r :: 0 <= r < |s.procs| ==> Next(s, e).procs[r].id == s.procs[r].id
  {
  }

  lemma StepKeepsCounter(s: State, e: Event)
    requires CounterInv(s) && Enabled(s, e)
    ensures CounterInv(Next(s, e)) && (NoLast(Next(s, e)) ==> NoLast(s))
  {
    StepKeepsIds(s, e);
    var s' := Next(s, e);
    if e.Run? || e.Restore? {
      assert s'.procs[|s.procs|].id == IdOf(s, e);
    }
    if NoLast(s') {
      forall r | 0 <= r < |s.procs| ensures s.procs[r].id != UINT32 - 1 {
        assert s'.procs[r].id == s.procs[r].id;
      }
    }
  }

  lemma {:induction false} RunKeepsCounter(s: State, es: seq<Event>, s': State)
    requires CounterInv(s) && Steps(s, es, s')
    ensures CounterInv(s') && (NoLast(s') ==> NoLast(s))
    decreases |es|
  {
    if es != [] {
      StepKeepsCounter(s, es[0]);
      RunKeepsCounter(Next(s, es[0]), es[1..], s');
    }
  }

  /** After any run, nextProcessID is above every id ever registered exactly when the
      largest uint32 was never one. */
  lemma CounterAboveIff(s0: State, es: seq<Event>, s: State)
    requires Init(s0) && Steps(s0, es, s)
    ensures AboveAll(s) <==> NoLast(s)
  {
    RunKeepsCounter(s0, es, s);
  }

  /** Only restored ids are checked to be free. */
  ghost predicate FreeRestores(s: State, es: seq<Event>, s': State)
    decreases |es|
  {
    if es == [] then s' == s
    else Enabled(s, es[0]) && (es[0].Restore? ==> Free(s, es[0].id)) && FreeRestores(Next(s, es[0]), es[1..], s')
  }

  lemma {:induction false} FreeRestoresStep(s: State, es: seq<Event>, s': State)
    requires FreeRestores(s, es, s')
    ensures Steps(s, es, s')
    decreases |es|
  {
    if es != [] { FreeRestoresStep(Next(s, es[0]), es[1..], s'); }
  }

  lemma AboveIsFree(s: State)
    requires TableInv(s) && AboveAll(s)
    ensures Free(s, s.table.next)
  {
    forall t | 0 <= t < |s.threads| && s.threads[t].Linker? && s.threads[t].id == s.table.next
      ensures s.threads[t].link.Linked?
    {
      assert LinkerMatches(s, t) && ThreadOk(s.procs, t, s.threads[t]);
    }
  }

  lemma {:induction false} FreeRestoresAreDisciplined(s: State, es: seq<Event>, s': State)
    requires TableInv(s) && CounterInv(s) && FreeRestores(s, es, s') && NoLast(s')
    ensures DisciplinedSteps(s, es, s')
    decreases |es|
  {
    if es != [] {
      FreeRestoresStep(s, es, s');
      RunKeepsCounter(s, es, s');
      AboveIsFree(s);
      StepKeepsCounter(s, es[0]);
      StepKeepsTableInv(s, es[0]);
      FreeRestoresAreDisciplined(Next(s, es[0]), es[1..], s');
    }
  }

  /** So if ids are restored only when free and the counter never reaches the largest
      uint32, new ids are fresh by themselves and no unfinished process is lost. */
  lemma FreshIdsLoseNone(s0: State, es: seq<Event>, s: State)
    requires Init(s0) && FreeRestores(s0, es, s) && NoLast(s)
    ensures NoneLost(s) && AboveAll(s)
    ensures forall r :: 0 <= r < |s.procs| && s.procs[r].taker.ByUnlink? ==> Listed(s, r)
  {
    FreeRestoresStep(s0, es, s);
    CounterAboveIff(s0, es, s);
    FreeRestoresAreDisciplined(s0, es, s);
    DetachedStaysListed(s0, es, s);
  }

  ghost predicate NeverUsed(s: State, id: Id) {
    forall r :: 0 <= r < |s.procs| ==> s.procs[r].id != id
  }

  lemma NeverUsedIsFree(s: State, id: Id)
    requires TableInv(s) && NeverUsed(s, id)
    ensures Free(s, id)
  {
    forall t | 0 <= t < |s.threads| && s.threads[t].Linker? && s.threads[t].id == id
      ensures s.threads[t].link.Linked?
    {
      assert LinkerMatches(s, t) && ThreadOk(s.procs, t, s.threads[t]);
    }
  }

  /** Every restored id is new to this tracker, as the ids of one snapshot are. */
  ghost predicate NewRestores(s: State, es: seq<Event>, s': State)
    decreases |es|
  {
    if es == [] then s' == s
    else Enabled(s, es[0]) && (es[0].Restore? ==> NeverUsed(s, es[0].id)) && NewRestores(Next(s, es[0]), es[1..], s')
  }

  lemma {:induction false} NewRestoresStep(s: State, es: seq<Event>, s': State)
    requires NewRestores(s, es, s')
    ensures Steps(s, es, s')
    decreases |es|
  {
    if es != [] { NewRestoresStep(Next(s, es[0]), es[1..], s'); }
  }

  lemma {:induction false} NewRestoresAreFree(s: State, es: seq<Event>, s': State)
    requires TableInv(s) && CounterInv(s) && NewRestores(s, es, s') && NoLast(s')
    ensures FreeRestores(s, es, s')
    decreases |es|
  {
    if es != [] {
      NewRestoresStep(s, es, s');
      RunKeepsCounter(s, es, s');
      AboveIsFree(s);
      if es[0].Restore? { NeverUsedIsFree(s, es[0].id); }
      StepKeepsCounter(s, es[0]);
      StepKeepsTableInv(s, es[0]);
      NewRestoresAreFree(Next(s, es[0]), es[1..], s');
    }
  }

  /** In particular, if restored ids are new and the largest uint32 is never reached: every
      process detached or still running is listed, and the counter is above all ids. */
  lemma NewIdsLoseNone(s0: State, es: seq<Event>, s: State)
    requires Init(s0) && NewRestores(s0, es, s) && NoLast(s)
    ensures NoneLost(s) && AboveAll(s)
    ensures forall r :: 0 <= r < |s.procs| && s.procs[r].taker.ByUnlink? ==> Listed(s, r)
  {
    NewRestoresAreFree(s0, es, s);
    FreshIdsLoseNone(s0, es, s);
  }

  // ---- When giving out an id is safe --------------------------------------------------

  /** Goroutine t, done with an older process, is about to unregister the id that
      now belongs to the running process n. */
  ghost predicate Stale(s: State, t: Thread, n: Ref) {
    && n < |s.procs| && !s.procs[n].done
    && t < |s.threads| && s.threads[t].Linker? && s.threads[t].id == s.procs[n].id
    && s.threads[t].ref < |s.procs| && s.threads[t].ref != n
    && s.procs[s.threads[t].ref].done && s.procs[s.threads[t].ref].started
  }

  lemma OneStep(s: State, e: Event, es: seq<Event>, s': State)
    requires Enabled(s, e) && Disciplined(s, e) && DisciplinedSteps(Next(s, e), es, s')
    ensures DisciplinedSteps(s, [e] + es, s')
  {
    assert ([e] + es)[1..] == es;
  }

  lemma UnregisteringLoses(s: State, t: Thread, n: Ref) returns (es: seq<Event>, s': State)
    requires Stale(s, t, n) && s.threads[t].link.Unregistering?
    ensures DisciplinedSteps(s, es, s') && !NoneLost(s')
  {
    es, s' := [Unregister(t)], Next(s, Unregister(t));
    assert es[1..] == [];
    assert !Listed(s', n);
  }

  lemma UnlockingLoses(s: State, t: Thread, n: Ref) returns (es: seq<Event>, s': State)
    requires Stale(s, t, n) && s.threads[t].link.Unlocking?
    ensures DisciplinedSteps(s, es, s') && !NoneLost(s')
  {
    es, s' := UnregisteringLoses(Next(s, UnlockLinks(t)), t, n);
    OneStep(s, UnlockLinks(t), es, s');
    es := [UnlockLinks(t)] + es;
  }

  lemma AwaitingLoses(s: State, t: Thread, n: Ref) returns (es: seq<Event>, s': State)
    requires Stale(s, t, n) && s.threads[t].link.AwaitMutex? && s.procs[s.threads[t].ref].mutex.None?
    ensures DisciplinedSteps(s, es, s') && !NoneLost(s')
  {
    es, s' := UnlockingLoses(Next(s, LockLinks(t)), t, n);
    OneStep(s, LockLinks(t), es, s');
    es := [LockLinks(t)] + es;
  }

  ghost predicate CanReach(s: State, es: seq<Event>, s': State) { DisciplinedSteps(s, es, s') }

  /** Giving out an id, to a new or a restored process, can lose a process in some
      continuation exactly when the id is not free: the new entry is dropped by a
      goroutine of an older process, or displaces a process that is still running. */
  lemma IdIsSafeIffFree(s0: State, es0: seq<Event>, s: State, e: Event)
    requires Init(s0) && DisciplinedSteps(s0, es0, s) && Enabled(s, e) && (e.Run? || e.Restore?)
    ensures Free(s, IdOf(s, e)) <==> forall es, s' :: CanReach(Next(s, e), es, s') ==> NoneLost(s')
  {
    RunKeepsTableInv(s0, es0, s);
    if Free(s, IdOf(s, e)) {
      StepKeepsTableInv(s, e);
      forall es, s' | CanReach(Next(s, e), es, s') ensures NoneLost(s') {
        RunKeepsTableInv(Next(s, e), es, s');
      }
    } else {
      var es, s' := UnfreeLoses(s, e);
      assert CanReach(Next(s, e), es, s');
    }
  }

  lemma UnfreeLoses(s: State, e: Event) returns (es: seq<Event>, s': State)
    requires TableInv(s) && Enabled(s, e) && (e.Run? || e.Restore?) && !Free(s, IdOf(s, e))
    ensures DisciplinedSteps(Next(s, e), es, s') && !NoneLost(s')
  {
    var s1, id := Next(s, e), IdOf(s, e);
    if id in s.table.processes && !s.procs[s.table.processes[id]].done {
      var r := s.table.processes[id];
      es, s' := [], s1;
      assert s1.procs[r] == s.procs[r] && !Listed(s1, r);
    } else {
      var t := StaleLinker(s, id);
      assert Stale(s1, t, |s.procs|) && s1.threads[t] == s.threads[t];
      if s.threads[t].link.Unregistering? {
        es, s' := UnregisteringLoses(s1, t, |s.procs|);
      } else if s.threads[t].link.Unlocking? {
        es, s' := UnlockingLoses(s1, t, |s.procs|);
      } else {
        es, s' := AwaitingLoses(s1, t, |s.procs|);
      }
    }
  }

  lemma StaleLinker(s: State, id: Id) returns (t: Thread)
    requires TableInv(s) && !Free(s, id)
    requires id in s.table.processes ==> s.procs[s.table.processes[id]].done
    ensures t < |s.threads| && s.threads[t].Linker? && s.threads[t].id == id && s.threads[t].ref < |s.procs|
    ensures s.procs[s.threads[t].ref].done && s.procs[s.threads[t].ref].started
    ensures s.threads[t].link.Unregistering? || s.threads[t].link.Unlocking?
            || (s.threads[t].link.AwaitMutex? && s.procs[s.threads[t].ref].mutex.None?)
  {
    if id in s.table.processes {
      var r := s.table.processes[id];
      t :| WillUnregister(s, t, r);
      assert LinkerMatches(s, t) && ThreadOk(s.procs, t, s.threads[t]) && ProcessOk(s, r);
    } else {
      t :| 0 <= t < |s.threads| && s.threads[t].Linker? && s.threads[t].id == id && !s.threads[t].link.Linked?;
      var r := s.threads[t].ref;
      assert LinkerMatches(s, t) && ThreadOk(s.procs, t, s.threads[t]) && ProcessOk(s, r);
      if s.threads[t].link.AwaitMutex? && s.procs[r].mutex.Some? {
        t := s.procs[r].mutex.value;
        assert LinkerMatches(s, t) && ThreadOk(s.procs, t, s.threads[t]);
      }
    }
  }
}
