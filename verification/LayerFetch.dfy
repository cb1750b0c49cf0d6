/** Concurrent fetching of image layers: any number of Fetch calls run as
    goroutines and serialise each layer through a map of channels. Every call on
    the registry or the graph, and every critical section under the mutex, is one
    atomic step; the answers of the registry and the graph are part of the event. */
module LayerFetch {
  import opened Common

  type Layer = string
  type Chan = nat
  type Thread = nat

  /** The per-layer lock. Channels are numbered in the order they are made;
      `makers[c]` made channel c and `closedBy[c]` closed it. */
  datatype Lock = Lock(entries: map<Layer, Chan>, makers: seq<Thread>, closedBy: map<Chan, Thread>)

  function Take(k: Lock, l: Layer, t: Thread): Lock {
    Lock(k.entries[l := |k.makers|], k.makers + [t], k.closedBy)
  }

  function Free(k: Lock, l: Layer, t: Thread): Lock
    requires l in k.entries
  {
    Lock(k.entries - {l}, k.makers, k.closedBy[k.entries[l] := t])
  }

  /** The object whose critical sections the goroutines run. */
  class DockerRepositoryFetcher {
    var fetchingLayers: map<Layer, Chan>
    ghost var makers: seq<Thread>
    var closedBy: map<Chan, Thread>
    var made: nat

    ghost predicate Valid() reads this { made == |makers| }

    ghost function View(): Lock reads this { Lock(fetchingLayers, makers, closedBy) }

    constructor ()
      ensures Valid() && View() == Lock(map[], [], map[])
    {
      fetchingLayers, makers, closedBy, made := map[], [], map[], 0;
    }

    /** Either takes the layer or hands back the channel to wait on. */
    method Fetching(layerID: Layer, ghost me: Thread) returns (acquired: bool, wait: Chan)
      requires Valid()
      modifies this
      ensures Valid()
      ensures acquired == (layerID !in old(fetchingLayers))
      ensures acquired ==> View() == Take(old(View()), layerID, me)
      ensures !acquired ==> View() == old(View()) && wait == old(fetchingLayers)[layerID]
    {
      if layerID !in fetchingLayers {
        acquired, wait := true, made;
        fetchingLayers := fetchingLayers[layerID := made];
        made, makers := made + 1, makers + [me];
      } else {
        acquired, wait := false, fetchingLayers[layerID];
      }
    }

    /** Closing a missing or an already closed channel panics, before the entry is deleted. */
    method DoneFetching(layerID: Layer, me: Thread) returns (panicked: bool)
      requires Valid()
      modifies this
      ensures Valid()
      ensures panicked <==> layerID !in old(fetchingLayers) || old(fetchingLayers)[layerID] in old(closedBy)
      ensures View() == if panicked then old(View()) else Free(old(View()), layerID, me)
    {
      if layerID !in fetchingLayers || fetchingLayers[layerID] in closedBy {
        return true;
      }
      closedBy := closedBy[fetchingLayers[layerID] := me];
      fetchingLayers := fetchingLayers - {layerID};
      panicked := false;
    }
  }

  /** A pass over the history one endpoint gave for an image; `left` layers,
      oldest first, are still to be fetched. */
  datatype Job = Job(img: Layer, endpoints: nat, history: seq<Layer>, left: nat) {
    predicate Pending() { 0 < left <= |history| }

    function Current(): Layer
      requires Pending()
    {
      history[left - 1]
    }
  }

  datatype Stage = Checking | Downloading | GotImage(id: Layer) | GotLayer(id: Layer) | Finished(ok: bool)

  /** Where one Fetch call stands. */
  datatype Fetch =
    | Trying(image: Layer, remaining: nat)
    | Walking(job: Job)
    | Waiting(job: Job, chan: Chan)
    | Holding(job: Job, stage: Stage)
    | Returned(result: Option<Layer>)

  datatype Event =
    | Begin(lookup: Option<(Layer, nat)>)
    | History(t: Thread, history: Option<seq<Layer>>)
    | GiveUp(t: Thread)
    | Arrive(t: Thread)
    | Fetching(t: Thread)
    | Wake(t: Thread)
    | Exists(t: Thread)
    | ImageJSON(t: Thread, id: Option<Layer>)
    | LayerData(t: Thread, ok: bool)
    | Register(t: Thread, ok: bool)
    | DoneFetching(t: Thread)

  datatype State = State(
    lock: Lock, threads: seq<Fetch>, graph: set<Layer>, registered: seq<Layer>, panicked: bool)

  ghost predicate Init(s: State) {
    s == State(Lock(map[], [], map[]), [], s.graph, [], false)
  }

  predicate Enabled(s: State, e: Event) {
    if e.Begin? then true else
    e.t < |s.threads| &&
    var f := s.threads[e.t];
    match e
    case History(_, _) => f.Trying? && f.remaining > 0
    case GiveUp(_) => f.Trying? && f.remaining == 0
    case Arrive(_) => f.Walking? && f.job.left == 0
    case Fetching(_) => f.Walking? && f.job.Pending()
    case Wake(_) => f.Waiting? && f.chan in s.lock.closedBy
    case Exists(_) => f.Holding? && f.stage.Checking? && f.job.Pending()
    case ImageJSON(_, _) => f.Holding? && f.stage.Downloading?
    case LayerData(_, _) => f.Holding? && f.stage.GotImage?
    case Register(_, _) => f.Holding? && f.stage.GotLayer?
    case DoneFetching(_) => f.Holding? && f.stage.Finished? && f.job.Pending()
  }

  /** The goroutine's own continuation, when the step leaves the lock alone. */
  function Local(s: State, e: Event): Fetch
    requires Enabled(s, e) && !e.Begin? && !e.Fetching? && !e.DoneFetching?
  {
    var f := s.threads[e.t];
    match e
    case History(_, None) => Trying(f.image, f.remaining - 1)
    case History(_, Some(h)) => Walking(Job(f.image, f.remaining - 1, h, |h|))
    case GiveUp(_) => Returned(None)
    case Arrive(_) => Returned(Some(f.job.img))
    case Wake(_) => Walking(f.job)
    case Exists(_) => Holding(f.job, if f.job.Current() in s.graph then Finished(true) else Downloading)
    case ImageJSON(_, None) => Holding(f.job, Finished(false))
    case ImageJSON(_, Some(id)) => Holding(f.job, GotImage(id))
    case LayerData(_, ok) => Holding(f.job, if ok then GotLayer(f.stage.id) else Finished(false))
    case Register(_, ok) => Holding(f.job, Finished(ok))
  }

  function Next(s: State, e: Event): State
    requires Enabled(s, e)
  {
    match e
    case Begin(None) => s.(threads := s.threads + [Returned(None)])
    case Begin(Some((img, n))) => s.(threads := s.threads + [Trying(img, n)])
    case Fetching(t) =>
      var job := s.threads[t].job;
      var l := job.Current();
      if l !in s.lock.entries then
        s.(lock := Take(s.lock, l, t), threads := s.threads[t := Holding(job, Checking)])
      else
        s.(threads := s.threads[t := Waiting(job, s.lock.entries[l])])
    case DoneFetching(t) =>
      var job := s.threads[t].job;
      var l := job.Current();
      if l !in s.lock.entries || s.lock.entries[l] in s.lock.closedBy then s.(panicked := true) else
      s.(lock := Free(s.lock, l, t),
         threads := s.threads[t := if s.threads[t].stage.ok then Walking(job.(left := job.left - 1))
                                   else Trying(job.img, job.endpoints)])
    case Register(t, true) =>
      var id := s.threads[t].stage.id;
      s.(threads := s.threads[t := Local(s, e)], graph := s.graph + {id}, registered := s.registered + [id])
    case _ => s.(threads := s.threads[e.t := Local(s, e)])
  }

  ghost predicate Steps(s: State, es: seq<Event>, s': State)
    decreases |es|
  {
    if es == [] then s' == s else Enabled(s, es[0]) && Steps(Next(s, es[0]), es[1..], s')
  }

  // ---- What every step keeps -------------------------------------------------

  predicate WellFormed(f: Fetch) {
    match f
    case Trying(_, _) => true
    case Walking(j) => j.left <= |j.history|
    case Waiting(j, _) => j.Pending()
    case Holding(j, _) => j.Pending()
    case Returned(_) => true
  }

  ghost predicate Holds(s: State, t: Thread, l: Layer) {
    t < |s.threads| && s.threads[t].Holding? && s.threads[t].job.Pending() && s.threads[t].job.Current() == l
  }

  ghost predicate HolderHasEntry(s: State, t: Thread, l: Layer) {
    Holds(s, t, l) ==>
      l in s.lock.entries && s.lock.entries[l] < |s.lock.makers| && s.lock.makers[s.lock.entries[l]] == t
  }

  ghost predicate EntryHasHolder(s: State, l: Layer)
    requires l in s.lock.entries
  {
    var c := s.lock.entries[l];
    c < |s.lock.makers| && c !in s.lock.closedBy && Holds(s, s.lock.makers[c], l)
  }

  /** A channel was closed by its maker, or its maker still holds its layer. */
  ghost predicate ChannelOwned(k: Lock, c: Chan)
    requires c < |k.makers|
  {
    if c in k.closedBy then k.closedBy[c] == k.makers[c]
    else exists l :: l in k.entries && k.entries[l] == c
  }

  /** A waiter's channel is closed already, or is the current entry of its layer. */
  ghost predicate WaitIsLive(k: Lock, f: Fetch) {
    f.Waiting? && f.job.Pending() ==>
      var l := f.job.Current();
      f.chan < |k.makers| && (f.chan in k.closedBy || (l in k.entries && k.entries[l] == f.chan))
  }

  ghost predicate Inv(s: State) {
    && !s.panicked
    && (forall t :: 0 <= t < |s.threads| ==> WellFormed(s.threads[t]))
    && (forall t, l :: Holds(s, t, l) ==> HolderHasEntry(s, t, l))
    && (forall l :: l in s.lock.entries ==> EntryHasHolder(s, l))
    && ChannelsOwned(s.lock)
    && (forall t :: 0 <= t < |s.threads| ==> WaitIsLive(s.lock, s.threads[t]))
  }

  lemma StepKeepsInv(s: State, e: Event)
    requires Inv(s) && Enabled(s, e)
    ensures Inv(Next(s, e))
  {
    match e
    case Begin(_) => BeginKeepsInv(s, e);
    case Fetching(t) =>
      if s.threads[t].job.Current() in s.lock.entries { WaitingKeepsInv(s, t); }
      else { TakingKeepsInv(s, Next(s, e), t, s.threads[t].job); }
    case DoneFetching(t) => DoneFetchingKeepsInv(s, t);
    case _ => LocalKeepsInv(s, Next(s, e), e.t, Local(s, e));
  }

  lemma BeginKeepsInv(s: State, e: Event)
    requires Inv(s) && e.Begin?
    ensures Inv(Next(s, e))
  {
    var s' := Next(s, e);
    assert forall t, l :: Holds(s, t, l) <==> Holds(s', t, l);
  }

  lemma LocalKeepsInv(s: State, s': State, t: Thread, f: Fetch)
    requires Inv(s) && t < |s.threads|
    requires s'.lock == s.lock && s'.threads == s.threads[t := f] && !s'.panicked
    requires WellFormed(f) && !f.Waiting?
    requires f.Holding? == s.threads[t].Holding? && (f.Holding? ==> f.job == s.threads[t].job)
    ensures Inv(s')
  {
    assert forall u, l :: Holds(s, u, l) <==> Holds(s', u, l);
  }

  ghost predicate ChannelsOwned(k: Lock) {
    && (forall c :: c in k.closedBy ==> c < |k.makers|)
    && (forall c :: 0 <= c < |k.makers| ==> ChannelOwned(k, c))
  }

  lemma TakeKeepsChannels(k: Lock, l: Layer, t: Thread)
    requires ChannelsOwned(k) && l !in k.entries
    ensures ChannelsOwned(Take(k, l, t))
  {
    var k' := Take(k, l, t);
    assert l in k'.entries;
    forall c | 0 <= c < |k'.makers| ensures ChannelOwned(k', c) {
      if c < |k.makers| {
        assert ChannelOwned(k, c);
        if c !in k.closedBy {
          var m :| m in k.entries && k.entries[m] == c;
          assert m in k'.entries && k'.entries[m] == c;
        }
      }
    }
  }

  lemma FreeKeepsChannels(k: Lock, l: Layer, t: Thread)
    requires ChannelsOwned(k) && l in k.entries
    requires k.entries[l] < |k.makers| && k.makers[k.entries[l]] == t
    ensures ChannelsOwned(Free(k, l, t))
  {
    var k' := Free(k, l, t);
    forall c | 0 <= c < |k'.makers| ensures ChannelOwned(k', c) {
      assert ChannelOwned(k, c);
      if c !in k'.closedBy {
        var m :| m in k.entries && k.entries[m] == c;
        assert m in k'.entries && k'.entries[m] == c;
      }
    }
  }

  lemma WaitingKeepsInv(s: State, t: Thread)
    requires Inv(s) && Enabled(s, Fetching(t)) && s.threads[t].job.Current() in s.lock.entries
    ensures Inv(Next(s, Fetching(t)))
  {
    var s' := Next(s, Fetching(t));
    assert forall u, m :: Holds(s, u, m) <==> Holds(s', u, m);
    assert EntryHasHolder(s, s.threads[t].job.Current());
  }

  lemma TakingKeepsInv(s: State, s': State, t: Thread, job: Job)
    requires Inv(s) && t < |s.threads| && s.threads[t] == Walking(job) && job.Pending()
    requires job.Current() !in s.lock.entries && !s'.panicked
    requires s'.lock == Take(s.lock, job.Current(), t) && s'.threads == s.threads[t := Holding(job, Checking)]
    ensures Inv(s')
  {
    assert forall u, m :: Holds(s', u, m) <==> Holds(s, u, m) || (u == t && m == job.Current());
    TakeKeepsChannels(s.lock, job.Current(), t);
  }

  lemma FreeingKeepsInv(s: State, s': State, t: Thread, l: Layer, f: Fetch)
    requires Inv(s) && Holds(s, t, l) && WellFormed(f) && (f.Walking? || f.Trying?)
    requires EntryHasHolder(s, l) && !s'.panicked
    requires s'.lock == Free(s.lock, l, t) && s'.threads == s.threads[t := f]
    ensures Inv(s')
  {
    FreeKeepsChannels(s.lock, l, t);
    assert forall u, m :: Holds(s', u, m) <==> Holds(s, u, m) && u != t;
    forall m | m in s'.lock.entries ensures EntryHasHolder(s', m) {
      assert EntryHasHolder(s, m);
    }
  }

  lemma DoneFetchingKeepsInv(s: State, t: Thread)
    requires Inv(s) && Enabled(s, DoneFetching(t))
    ensures Inv(Next(s, DoneFetching(t)))
  {
    var s' := Next(s, DoneFetching(t));
    var l := s.threads[t].job.Current();
    assert Holds(s, t, l);
    assert EntryHasHolder(s, l);
    FreeingKeepsInv(s, s', t, l, s'.threads[t]);
  }

  /** Over every interleaving of any number of Fetch calls, whatever the registry
      and the graph answer, the lock invariant holds. */
  lemma {:induction false} RunKeepsInv(s: State, es: seq<Event>, s': State)
    requires Inv(s) && Steps(s, es, s')
    ensures Inv(s')
    decreases |es|
  {
    if es != [] {
      StepKeepsInv(s, es[0]);
      RunKeepsInv(Next(s, es[0]), es[1..], s');
    }
  }

  /** What the invariant means in every reachable state: no panic, one holder a
      layer, an entry for exactly the held layers, and every channel closed at most
      once (a second close would panic), by its maker, as soon as its layer is let go. */
  lemma LockIsSafe(s0: State, es: seq<Event>, s: State)
    requires Init(s0) && Steps(s0, es, s)
    ensures !s.panicked
    ensures forall t, u, l :: Holds(s, t, l) && Holds(s, u, l) ==> t == u
    ensures forall l :: l in s.lock.entries <==> exists t :: Holds(s, t, l)
    ensures forall c :: c in s.lock.closedBy ==> c < |s.lock.makers| && s.lock.closedBy[c] == s.lock.makers[c]
    ensures forall c :: 0 <= c < |s.lock.makers| && c !in s.lock.closedBy ==>
                          exists l :: l in s.lock.entries && s.lock.entries[l] == c
    ensures forall l, m ::
              l in s.lock.entries && m in s.lock.entries && s.lock.entries[l] == s.lock.entries[m] ==> l == m
  {
    RunKeepsInv(s0, es, s);
    assert forall t, l :: Holds(s, t, l) ==> HolderHasEntry(s, t, l);
    forall l | l in s.lock.entries ensures exists t :: Holds(s, t, l) {
      assert EntryHasHolder(s, l);
    }
    forall l, m | l in s.lock.entries && m in s.lock.entries && s.lock.entries[l] == s.lock.entries[m]
      ensures l == m
    {
      assert EntryHasHolder(s, l) && EntryHasHolder(s, m);
    }
    forall c | 0 <= c < |s.lock.makers|
      ensures if c in s.lock.closedBy then s.lock.closedBy[c] == s.lock.makers[c]
              else exists l :: l in s.lock.entries && s.lock.entries[l] == c
    {
      assert ChannelOwned(s.lock, c);
    }
  }

  // ---- Every call returns ----------------------------------------------------

  /** Whoever has not returned can step, or waits for a layer whose holder can. */
  lemma SomeoneCanStep(s: State, t: Thread) returns (e: Event)
    requires Inv(s) && t < |s.threads| && !s.threads[t].Returned?
    ensures !e.Begin? && Enabled(s, e)
    ensures e.t == t || (s.threads[t].Waiting? && Holds(s, e.t, s.threads[t].job.Current()))
  {
    var f := s.threads[t];
    assert WellFormed(f) && WaitIsLive(s.lock, f);
    if f.Trying? {
      e := if f.remaining == 0 then GiveUp(t) else History(t, None);
    } else if f.Walking? {
      e := if f.job.left == 0 then Arrive(t) else Fetching(t);
    } else if f.Waiting? && f.chan in s.lock.closedBy {
      e := Wake(t);
    } else if f.Waiting? {
      assert EntryHasHolder(s, f.job.Current());
      e := HolderEvent(s, s.lock.makers[f.chan]);
    } else {
      e := HolderEvent(s, t);
    }
  }

  function HolderEvent(s: State, t: Thread): (e: Event)
    requires t < |s.threads| && s.threads[t].Holding? && s.threads[t].job.Pending()
    ensures !e.Begin? && e.t == t && Enabled(s, e)
  {
    match s.threads[t].stage
    case Checking => Exists(t)
    case Downloading => ImageJSON(t, None)
    case GotImage(_) => LayerData(t, false)
    case GotLayer(_) => Register(t, false)
    case Finished(_) => DoneFetching(t)
  }

  /** No deadlock: once nothing can step any more, every call has returned. */
  lemma QuiescentMeansReturned(s0: State, es: seq<Event>, s: State)
    requires Init(s0) && Steps(s0, es, s)
    requires forall e: Event :: !e.Begin? ==> !Enabled(s, e)
    ensures forall t :: 0 <= t < |s.threads| ==> s.threads[t].Returned?
  {
    RunKeepsInv(s0, es, s);
    forall t | 0 <= t < |s.threads| ensures s.threads[t].Returned? {
      if !s.threads[t].Returned? {
        var e := SomeoneCanStep(s, t);
        assert false;
      }
    }
  }

  /** The three weights of a call: endpoints left to try, layers left of the
      current history, and steps left before the next release of a layer. */
  function EndpointsLeft(f: Fetch): nat {
    match f
    case Trying(_, n) => n + 1
    case Returned(_) => 0
    case _ => f.job.endpoints + 1
  }

  function LayersLeft(f: Fetch): nat {
    if f.Trying? || f.Returned? then 0 else f.job.left
  }

  function StepsLeft(k: Lock, f: Fetch): nat {
    match f
    case Trying(_, _) => 0
    case Returned(_) => 0
    case Walking(_) => 6
    case Waiting(_, c) => if c in k.closedBy then 7 else 0
    case Holding(_, Checking) => 5
    case Holding(_, Downloading) => 4
    case Holding(_, GotImage(_)) => 3
    case Holding(_, GotLayer(_)) => 2
    case Holding(_, Finished(_)) => 1
  }

  ghost function EndpointWeights(fs: seq<Fetch>): seq<nat> {
    seq(|fs|, i requires 0 <= i < |fs| => EndpointsLeft(fs[i]))
  }

  ghost function LayerWeights(fs: seq<Fetch>): seq<nat> {
    seq(|fs|, i requires 0 <= i < |fs| => LayersLeft(fs[i]))
  }

  ghost function StepWeights(k: Lock, fs: seq<Fetch>): seq<nat> {
    seq(|fs|, i requires 0 <= i < |fs| => StepsLeft(k, fs[i]))
  }

  ghost function Endpoints(s: State): nat { Sum(EndpointWeights(s.threads)) }

  ghost function Layers(s: State): nat { Sum(LayerWeights(s.threads)) }

  ghost function Waits(s: State): nat { Sum(StepWeights(s.lock, s.threads)) }

  lemma TotalsAfter(s: State, s': State, t: Thread, f: Fetch)
    requires t < |s.threads| && s'.threads == s.threads[t := f]
    ensures Endpoints(s') + EndpointsLeft(s.threads[t]) == Endpoints(s) + EndpointsLeft(f)
    ensures Layers(s') + LayersLeft(s.threads[t]) == Layers(s) + LayersLeft(f)
    ensures s'.lock.closedBy == s.lock.closedBy ==>
              Waits(s') + StepsLeft(s.lock, s.threads[t]) == Waits(s) + StepsLeft(s'.lock, f)
  {
    SumUpdate(EndpointWeights(s.threads), t, EndpointsLeft(f));
    SumUpdate(LayerWeights(s.threads), t, LayersLeft(f));
    SumUpdate(StepWeights(s.lock, s.threads), t, StepsLeft(s'.lock, f));
    assert EndpointWeights(s'.threads) == EndpointWeights(s.threads)[t := EndpointsLeft(f)];
    assert LayerWeights(s'.threads) == LayerWeights(s.threads)[t := LayersLeft(f)];
    if s'.lock.closedBy == s.lock.closedBy {
      assert StepWeights(s'.lock, s'.threads) == StepWeights(s.lock, s.threads)[t := StepsLeft(s'.lock, f)];
    }
  }

  /** Every step other than a new call makes progress. */
  lemma StepMakesProgress(s: State, e: Event)
    requires Inv(s) && Enabled(s, e) && !e.Begin?
    ensures var s' := Next(s, e);
            Endpoints(s') < Endpoints(s) || (Endpoints(s') == Endpoints(s) &&
            (Layers(s') < Layers(s) || (Layers(s') == Layers(s) && Waits(s') < Waits(s))))
  {
    var s' := Next(s, e);
    var f := s.threads[e.t];
    assert WellFormed(f);
    if e.Fetching? {
      var l := f.job.Current();
      if l in s.lock.entries { assert EntryHasHolder(s, l); }
    } else if e.DoneFetching? {
      var l := f.job.Current();
      assert Holds(s, e.t, l);
      assert EntryHasHolder(s, l);
    }
    TotalsAfter(s, s', e.t, s'.threads[e.t]);
  }

  ghost predicate StepAt(states: nat -> State, events: nat -> Event, n: nat) {
    !events(n).Begin? && Enabled(states(n), events(n)) && states(n + 1) == Next(states(n), events(n))
  }

  lemma {:induction false} RunEndsAfter(states: nat -> State, events: nat -> Event, k: nat)
    requires Inv(states(k))
    ensures exists n: nat :: !StepAt(states, events, n)
    decreases Endpoints(states(k)), Layers(states(k)), Waits(states(k))
  {
    if StepAt(states, events, k) {
      StepKeepsInv(states(k), events(k));
      StepMakesProgress(states(k), events(k));
      RunEndsAfter(states, events, k + 1);
    }
  }

  /** From any reachable state and without new calls, no schedule runs for ever:
      fairness is not needed. With QuiescentMeansReturned, every call returns. */
  lemma EveryRunEnds(s0: State, es: seq<Event>, states: nat -> State, events: nat -> Event)
    requires Init(s0) && Steps(s0, es, states(0))
    ensures exists n: nat :: !StepAt(states, events, n)
  {
    RunKeepsInv(s0, es, states(0));
    RunEndsAfter(states, events, 0);
  }

  // ---- What an image id that matches its layer gives -------------------------------

  /** The registry answers with the image it was asked for. Histories are arbitrary. */
  ghost predicate Matches(s: State, e: Event)
    requires Enabled(s, e)
  {
    e.ImageJSON? && e.id.Some? && s.threads[e.t].job.Pending() ==> e.id.value == s.threads[e.t].job.Current()
  }

  ghost predicate MatchedSteps(s: State, es: seq<Event>, s': State)
    decreases |es|
  {
    if es == [] then s' == s
    else Enabled(s, es[0]) && Matches(s, es[0]) && MatchedSteps(Next(s, es[0]), es[1..], s')
  }

  /** The layers already walked over are in the graph. */
  ghost predicate JobOk(graph: set<Layer>, j: Job) {
    j.left <= |j.history| && forall i :: j.left <= i < |j.history| ==> j.history[i] in graph
  }

  ghost predicate CallOk(graph: set<Layer>, f: Fetch) {
    match f
    case Trying(_, _) => true
    case Walking(j) => JobOk(graph, j)
    case Waiting(j, _) => JobOk(graph, j)
    case Holding(j, st) =>
      JobOk(graph, j) && j.Pending() &&
      (match st
       case Checking => true
       case Downloading => j.Current() !in graph
       case GotImage(id) => j.Current() !in graph && id == j.Current()
       case GotLayer(id) => j.Current() !in graph && id == j.Current()
       case Finished(ok) => ok ==> j.Current() in graph)
    case Returned(_) => true
  }

  ghost predicate GraphInv(graph0: set<Layer>, s: State) {
    && s.graph == graph0 + (set l | l in s.registered)
    && (forall l :: l in s.registered ==> l !in graph0)
    && Distinct(s.registered)
    && forall t :: 0 <= t < |s.threads| ==> CallOk(s.graph, s.threads[t])
  }

  lemma RegisterKeepsGraphInv(graph0: set<Layer>, s: State, t: Thread)
    requires Inv(s) && GraphInv(graph0, s)
    requires Enabled(s, Register(t, true))
    ensures GraphInv(graph0, Next(s, Register(t, true)))
  {
    var s' := Next(s, Register(t, true));
    var f := s.threads[t];
    assert WellFormed(f) && CallOk(s.graph, f);
    assert Holds(s, t, f.job.Current());
    forall u | 0 <= u < |s'.threads| ensures CallOk(s'.graph, s'.threads[u]) {
      var g := s.threads[u];
      assert WellFormed(g) && CallOk(s.graph, g);
      if u != t && g.Holding? {
        assert Holds(s, u, g.job.Current());
      }
    }
  }

  lemma MatchedCallOk(s: State, e: Event)
    requires Inv(s) && Enabled(s, e) && Matches(s, e) && !e.Begin? && !(e.Register? && e.ok)
    requires CallOk(s.graph, s.threads[e.t])
    ensures var s' := Next(s, e);
            && s'.graph == s.graph && s'.registered == s.registered && |s'.threads| == |s.threads|
            && s'.threads == s.threads[e.t := s'.threads[e.t]] && CallOk(s.graph, s'.threads[e.t])
  {
    if e.DoneFetching? {
      assert Holds(s, e.t, s.threads[e.t].job.Current());
      assert EntryHasHolder(s, s.threads[e.t].job.Current());
    }
  }

  lemma MatchedStepKeepsGraphInv(graph0: set<Layer>, s: State, e: Event)
    requires Inv(s) && GraphInv(graph0, s)
    requires Enabled(s, e) && Matches(s, e)
    ensures GraphInv(graph0, Next(s, e))
  {
    if e.Register? && e.ok {
      RegisterKeepsGraphInv(graph0, s, e.t);
    } else if !e.Begin? {
      MatchedCallOk(s, e);
    }
  }

  lemma {:induction false} MatchedRunKeepsGraphInv(graph0: set<Layer>, s: State, es: seq<Event>, s': State)
    requires Inv(s) && GraphInv(graph0, s) && MatchedSteps(s, es, s')
    ensures Inv(s') && GraphInv(graph0, s')
    decreases |es|
  {
    if es != [] {
      StepKeepsInv(s, es[0]);
      MatchedStepKeepsGraphInv(graph0, s, es[0]);
      MatchedRunKeepsGraphInv(graph0, Next(s, es[0]), es[1..], s');
    }
  }

  /** Whatever histories the endpoints give, repeated, inconsistent or untrue: no layer
      is registered twice, nor one that was there before, and none disappears. */
  lemma RegisteredOnce(s0: State, es: seq<Event>, s: State)
    requires Init(s0) && MatchedSteps(s0, es, s)
    ensures Distinct(s.registered) && forall l :: l in s.registered ==> l !in s0.graph
    ensures s.graph == s0.graph + set l | l in s.registered
  {
    MatchedRunKeepsGraphInv(s0.graph, s0, es, s);
  }

  // ---- What a walked history guarantees --------------------------------------------

  /** A run at whose end call t has walked all of history h and is about to return. */
  ghost predicate HasWalked(s0: State, es: seq<Event>, s: State, t: Thread, h: seq<Layer>) {
    && Init(s0) && MatchedSteps(s0, es, s)
    && t < |s.threads| && s.threads[t].Walking? && s.threads[t].job.history == h && s.threads[t].job.left == 0
  }

  ghost predicate Guaranteed(h: seq<Layer>, l: Layer) {
    forall s0, es, s, t: Thread :: HasWalked(s0, es, s, t, h) ==> l in s.graph
  }

  ghost predicate Idle(k: Lock) {
    k.entries == map[] && forall c :: c in k.closedBy ==> c < |k.makers|
  }

  /** The only call walks on over layers that all exist: three steps a layer, none of
      which changes the graph. */
  lemma {:induction false} WalksOver(s: State, job: Job) returns (es: seq<Event>, s': State)
    requires Idle(s.lock) && s.threads == [Walking(job)] && job.left <= |job.history|
    requires forall l :: l in job.history ==> l in s.graph
    ensures MatchedSteps(s, es, s') && s'.graph == s.graph
    ensures s'.threads == [Walking(job.(left := 0))]
    decreases job.left
  {
    if job.left == 0 {
      return [], s;
    }
    var more, s3 := WalkOne(s, job);
    es, s' := WalksOver(s3, job.(left := job.left - 1));
    StepsJoin(s, more, s3, es, s');
    es := more + es;
  }

  lemma WalkOne(s: State, job: Job) returns (es: seq<Event>, s3: State)
    requires Idle(s.lock) && s.threads == [Walking(job)] && job.Pending()
    requires job.Current() in s.graph
    ensures MatchedSteps(s, es, s3) && s3.graph == s.graph
    ensures Idle(s3.lock) && s3.threads == [Walking(job.(left := job.left - 1))]
  {
    var e1, e2, e3 := Fetching(0), Exists(0), DoneFetching(0);
    var s1 := Next(s, e1);
    var s2 := Next(s1, e2);
    s3 := Next(s2, e3);
    es := [e1, e2, e3];
    assert es[1..] == [e2, e3] && es[1..][1..] == [e3] && es[1..][1..][1..] == [];
    assert MatchedSteps(s3, [], s3);
    assert MatchedSteps(s2, [e3], s3);
    assert MatchedSteps(s1, [e2, e3], s3);
  }

  lemma {:induction false} StepsJoin(s: State, es: seq<Event>, s1: State, fs: seq<Event>, s2: State)
    requires MatchedSteps(s, es, s1) && MatchedSteps(s1, fs, s2)
    ensures MatchedSteps(s, es + fs, s2)
    decreases |es|
  {
    if es == [] {
      assert es + fs == fs;
    } else {
      StepsJoin(Next(s, es[0]), es[1..], s1, fs, s2);
      assert (es + fs)[0] == es[0] && (es + fs)[1..] == es[1..] + fs;
    }
  }

  /** With an endpoint that answers history h, a run that starts from exactly the layers
      of h ends with the same graph. */
  lemma WalkAddsNothing(img: Layer, h: seq<Layer>) returns (s0: State, es: seq<Event>, s: State)
    ensures HasWalked(s0, es, s, 0, h)
    ensures s.graph == s0.graph == set l | l in h
    ensures |s.threads| == 1 && s.threads[0].job.img == img
  {
    s0 := State(Lock(map[], [], map[]), [], set l | l in h, [], false);
    var e1, e2 := Begin(Some((img, 1))), History(0, Some(h));
    var s1 := Next(s0, e1);
    var s2 := Next(s1, e2);
    var two := [e1, e2];
    assert two[1..] == [e2] && two[1..][1..] == [];
    assert MatchedSteps(s2, [], s2);
    assert MatchedSteps(s1, [e2], s2);
    assert MatchedSteps(s0, two, s2);
    es, s := WalksOver(s2, Job(img, 0, h, |h|));
    StepsJoin(s0, two, s2, es, s);
    es := two + es;
  }

  /** Exactly the layers of the history an endpoint gave are guaranteed to be in the graph
      when the walk over it ends: over all runs, with any other calls beside it. */
  lemma GuaranteedIff(h: seq<Layer>, l: Layer)
    ensures Guaranteed(h, l) <==> l in h
  {
    if l in h {
      forall s0, es, s, t: Thread | HasWalked(s0, es, s, t, h) ensures l in s.graph {
        MatchedRunKeepsGraphInv(s0.graph, s0, es, s);
        assert CallOk(s.graph, s.threads[t]);
      }
    } else {
      var s0, es, s := WalkAddsNothing("", h);
      assert HasWalked(s0, es, s, 0, h) && l !in s.graph;
    }
  }

  /** So the whole chain of an image is guaranteed exactly when the history lists all of it. */
  lemma ChainGuaranteedIff(parent: map<Layer, Layer>, chain: seq<Layer>, img: Layer, h: seq<Layer>)
    requires IsChain(parent, chain, img)
    ensures (forall l :: l in chain ==> Guaranteed(h, l)) <==> forall l :: l in chain ==> l in h
  {
    forall l | l in chain ensures Guaranteed(h, l) <==> l in h {
      GuaranteedIff(h, l);
    }
  }

  /** The plainest failure: an empty history makes Fetch return an image of which no
      layer was ever fetched. */
  lemma EmptyHistorySucceeds(img: Layer)
    ensures exists s0: State, es, s ::
              Init(s0) && s0.graph == {} && MatchedSteps(s0, es, s) && s.graph == {}
              && s.threads == [Returned(Some(img))]
  {
    var s0, es, s := WalkAddsNothing(img, []);
    var s' := Next(s, Arrive(0));
    assert [Arrive(0)][1..] == [];
    assert MatchedSteps(s', [], s');
    StepsJoin(s0, es, s, [Arrive(0)], s');
    assert Init(s0) && MatchedSteps(s0, es + [Arrive(0)], s');
  }

  // ---- What true histories give ------------------------------------------------------

  /** The history of an image: the image, its parent, and so on to a base layer. */
  ghost predicate IsChain(parent: map<Layer, Layer>, h: seq<Layer>, img: Layer) {
    && 0 < |h| && h[0] == img && h[|h| - 1] !in parent
    && forall i :: 0 <= i < |h| - 1 ==> h[i] in parent && parent[h[i]] == h[i + 1]
  }

  ghost predicate ParentClosed(parent: map<Layer, Layer>, graph: set<Layer>) {
    forall l :: l in graph && l in parent ==> parent[l] in graph
  }

  ghost predicate Honest(parent: map<Layer, Layer>, s: State, e: Event)
    requires Enabled(s, e)
  {
    Matches(s, e) && (e.History? && e.history.Some? ==> IsChain(parent, e.history.value, s.threads[e.t].image))
  }

  ghost predicate HonestSteps(parent: map<Layer, Layer>, s: State, es: seq<Event>, s': State)
    decreases |es|
  {
    if es == [] then s' == s
    else Enabled(s, es[0]) && Honest(parent, s, es[0]) && HonestSteps(parent, Next(s, es[0]), es[1..], s')
  }

  ghost predicate CallOnChain(parent: map<Layer, Layer>, graph: set<Layer>, f: Fetch) {
    match f
    case Trying(_, _) => true
    case Walking(j) => IsChain(parent, j.history, j.img)
    case Waiting(j, _) => IsChain(parent, j.history, j.img)
    case Holding(j, _) => IsChain(parent, j.history, j.img)
    case Returned(r) => r.Some? ==> r.value in graph
  }

  ghost predicate ChainInv(parent: map<Layer, Layer>, s: State) {
    && ParentClosed(parent, s.graph)
    && forall t :: 0 <= t < |s.threads| ==> CallOnChain(parent, s.graph, s.threads[t])
  }

  lemma HonestStepKeepsChainInv(parent: map<Layer, Layer>, graph0: set<Layer>, s: State, e: Event)
    requires Inv(s) && GraphInv(graph0, s) && ChainInv(parent, s)
    requires Enabled(s, e) && Honest(parent, s, e)
    ensures ChainInv(parent, Next(s, e))
  {
    if !e.Begin? {
      var f := s.threads[e.t];
      assert WellFormed(f) && CallOk(s.graph, f) && CallOnChain(parent, s.graph, f);
      if e.Register? && e.ok && f.job.Current() in parent {
        assert parent[f.job.Current()] == f.job.history[f.job.left];
      }
    }
  }

  lemma {:induction false} HonestRunKeepsChainInv(
      parent: map<Layer, Layer>, graph0: set<Layer>, s: State, es: seq<Event>, s': State)
    requires Inv(s) && GraphInv(graph0, s) && ChainInv(parent, s) && HonestSteps(parent, s, es, s')
    ensures GraphInv(graph0, s') && ChainInv(parent, s')
    decreases |es|
  {
    if es != [] {
      StepKeepsInv(s, es[0]);
      MatchedStepKeepsGraphInv(graph0, s, es[0]);
      HonestStepKeepsChainInv(parent, graph0, s, es[0]);
      HonestRunKeepsChainInv(parent, graph0, Next(s, es[0]), es[1..], s');
    }
  }

  lemma {:induction false} ClosureCoversChain(
      parent: map<Layer, Layer>, graph: set<Layer>, h: seq<Layer>, img: Layer, i: nat)
    requires ParentClosed(parent, graph) && img in graph && IsChain(parent, h, img) && i < |h|
    ensures h[i] in graph
  {
    if i > 0 {
      ClosureCoversChain(parent, graph, h, img, i - 1);
    }
  }

  ghost predicate HasReturned(s: State, t: Thread) {
    t < |s.threads| && s.threads[t].Returned? && s.threads[t].result.Some?
  }

  /** Over every honest run from an ancestor-closed graph, with any failures and
      endpoint retries: the graph stays ancestor-closed, and a Fetch that returned an
      image has its whole chain in the graph. */
  lemma GraphIsComplete(parent: map<Layer, Layer>, s0: State, es: seq<Event>, s: State)
    requires Init(s0) && ParentClosed(parent, s0.graph) && HonestSteps(parent, s0, es, s)
    ensures ParentClosed(parent, s.graph) && s0.graph <= s.graph
    ensures forall t: Thread, h, l ::
              HasReturned(s, t) && IsChain(parent, h, s.threads[t].result.value) && l in h ==> l in s.graph
  {
    HonestRunKeepsChainInv(parent, s0.graph, s0, es, s);
    forall t: Thread, h, l | HasReturned(s, t) && IsChain(parent, h, s.threads[t].result.value) && l in h
      ensures l in s.graph
    {
      assert CallOnChain(parent, s.graph, s.threads[t]);
      var i :| 0 <= i < |h| && h[i] == l;
      ClosureCoversChain(parent, s.graph, h, s.threads[t].result.value, i);
    }
  }
}
