/** How every Fetch call ends, told from the answers it got. Nothing here but the events of
    the run is looked at: which endpoint answered what, and which answers were errors. */
module FetchOutcomes {
  import opened Common
  import opened LayerFetch

  // ---- The answers to a call ----------------------------------------------------------

  /** What the calls were begun with, in order; call t is the t-th to begin. */
  function Lookups(es: seq<Event>): seq<Option<(Layer, nat)>> {
    if es == [] then [] else (if es[0].Begin? then [es[0].lookup] else []) + Lookups(es[1..])
  }

  predicate IsTry(e: Event, t: Thread) { e.History? && e.t == t }

  /** An error answered to call t: a failed history, image json, layer or registration. */
  predicate IsError(e: Event, t: Thread) {
    !e.Begin? && e.t == t &&
    ((e.History? && e.history.None?) || (e.ImageJSON? && e.id.None?)
     || (e.LayerData? && !e.ok) || (e.Register? && !e.ok))
  }

  /** How many endpoints call t asked. */
  function Tries(es: seq<Event>, t: Thread): nat {
    if es == [] then 0 else (if IsTry(es[0], t) then 1 else 0) + Tries(es[1..], t)
  }

  function Errors(es: seq<Event>, t: Thread): nat {
    if es == [] then 0 else (if IsError(es[0], t) then 1 else 0) + Errors(es[1..], t)
  }

  /** Neither a further endpoint nor an error. */
  predicate Quiet(es: seq<Event>, t: Thread) { Tries(es, t) == 0 && Errors(es, t) == 0 }

  predicate GaveHistory(e: Event, t: Thread, h: seq<Layer>) { e == History(t, Some(h)) }

  /** The last endpoint asked gave history h, and all its answers to call t succeeded. */
  ghost predicate ServedWith(es: seq<Event>, t: Thread, h: seq<Layer>) {
    exists i :: 0 <= i < |es| && GaveHistory(es[i], t, h) && Quiet(es[i + 1..], t)
  }

  ghost predicate Served(es: seq<Event>, t: Thread) {
    exists h :: ServedWith(es, t, h)
  }

  // ---- Where a call stands, by its answers ----------------------------------------------

  predicate HasJob(f: Fetch) { f.Walking? || f.Waiting? || f.Holding? }

  /** The current endpoint has not failed the call. */
  predicate Unharmed(f: Fetch) { HasJob(f) && f != Holding(f.job, Finished(false)) }

  /** A call for img over n endpoints, after this many tries and errors. */
  predicate Tallies(f: Fetch, lookup: Option<(Layer, nat)>, tries: nat, errors: nat) {
    match lookup
    case None => f == Returned(None) && tries == errors == 0
    case Some((img, n)) =>
      match f
      case Trying(i, left) => i == img && tries == errors && left + tries == n
      case Returned(None) => tries == errors == n
      case Returned(Some(i)) => i == img && tries == errors + 1 && tries <= n
      case _ => f.job.img == img && f.job.endpoints + tries == n && tries == errors + (if Unharmed(f) then 1 else 0)
  }

  lemma Untouched(s: State, e: Event, t: Thread)
    requires Enabled(s, e) && t < |s.threads| && (e.Begin? || e.t != t)
    ensures t < |Next(s, e).threads| && Next(s, e).threads[t] == s.threads[t]
  {
  }

  lemma OwnStepTallies(s: State, e: Event, lookup: Option<(Layer, nat)>, tries: nat, errors: nat)
    requires Inv(s) && Enabled(s, e) && !e.Begin? && Tallies(s.threads[e.t], lookup, tries, errors)
    ensures Tallies(Next(s, e).threads[e.t], lookup,
                    tries + (if IsTry(e, e.t) then 1 else 0), errors + (if IsError(e, e.t) then 1 else 0))
  {
    if e.DoneFetching? { Releases(s, e); }
  }

  lemma StepTallies(s: State, e: Event, t: Thread, lookup: Option<(Layer, nat)>, tries: nat, errors: nat)
    requires Inv(s) && Enabled(s, e) && t < |s.threads| && Tallies(s.threads[t], lookup, tries, errors)
    ensures t < |Next(s, e).threads|
    ensures Tallies(Next(s, e).threads[t], lookup,
                    tries + (if IsTry(e, t) then 1 else 0), errors + (if IsError(e, t) then 1 else 0))
  {
    if e.Begin? || e.t != t {
      Untouched(s, e, t);
    } else {
      OwnStepTallies(s, e, lookup, tries, errors);
    }
  }

  lemma StepThreads(s: State, e: Event)
    requires Enabled(s, e)
    ensures |Next(s, e).threads| == |s.threads| + (if e.Begin? then 1 else 0)
  {
  }

  lemma {:induction false} RunTallies(
      s: State, es: seq<Event>, s': State, t: Thread, lookup: Option<(Layer, nat)>, tries: nat, errors: nat)
    requires Inv(s) && Steps(s, es, s') && t < |s.threads| && Tallies(s.threads[t], lookup, tries, errors)
    ensures t < |s'.threads|
    ensures Tallies(s'.threads[t], lookup, tries + Tries(es, t), errors + Errors(es, t))
    decreases |es|
  {
    if es != [] {
      StepKeepsInv(s, es[0]);
      StepTallies(s, es[0], t, lookup, tries, errors);
      RunTallies(Next(s, es[0]), es[1..], s', t, lookup,
                 tries + (if IsTry(es[0], t) then 1 else 0), errors + (if IsError(es[0], t) then 1 else 0));
    }
  }

  lemma BeginTallies(s: State, e: Event)
    requires Enabled(s, e) && e.Begin?
    ensures |Next(s, e).threads| == |s.threads| + 1 && Tallies(Next(s, e).threads[|s.threads|], e.lookup, 0, 0)
  {
  }

  lemma NotYet(s: State, e: Event, t: Thread)
    requires Enabled(s, e) && |s.threads| <= t
    ensures !IsTry(e, t) && !IsError(e, t)
  {
  }

  /** A call that begins during the run. */
  lemma {:induction false} NewCallTallies(s: State, es: seq<Event>, s': State, t: Thread)
    requires Inv(s) && Steps(s, es, s') && |s.threads| <= t < |s'.threads|
    ensures t - |s.threads| < |Lookups(es)|
    ensures Tallies(s'.threads[t], Lookups(es)[t - |s.threads|], Tries(es, t), Errors(es, t))
    decreases |es|
  {
    var s1 := Next(s, es[0]);
    StepKeepsInv(s, es[0]);
    StepThreads(s, es[0]);
    NotYet(s, es[0], t);
    if t < |s1.threads| {
      BeginTallies(s, es[0]);
      RunTallies(s1, es[1..], s', t, es[0].lookup, 0, 0);
    } else {
      NewCallTallies(s1, es[1..], s', t);
    }
  }

  // ---- The successful endpoint ------------------------------------------------------------

  /** The current endpoint gave history h and has not failed the call. */
  predicate On(f: Fetch, h: seq<Layer>) { Unharmed(f) && f.job.history == h }

  lemma Releases(s: State, e: Event)
    requires Inv(s) && Enabled(s, e) && e.DoneFetching?
    ensures Next(s, e).threads[e.t] == if s.threads[e.t].stage.ok then
              Walking(s.threads[e.t].job.(left := s.threads[e.t].job.left - 1))
            else Trying(s.threads[e.t].job.img, s.threads[e.t].job.endpoints)
  {
    assert Holds(s, e.t, s.threads[e.t].job.Current());
    assert EntryHasHolder(s, s.threads[e.t].job.Current());
  }

  /** A call gets onto h only by that answer, leaves it only by an error or its return, and
      returns an image only from there. */
  ghost predicate OnStep(f: Fetch, e: Event, t: Thread, h: seq<Layer>, f': Fetch) {
    && (On(f', h) ==> GaveHistory(e, t, h) || (On(f, h) && !IsTry(e, t) && !IsError(e, t)))
    && (GaveHistory(e, t, h) ==> On(f', h))
    && (On(f, h) && !IsTry(e, t) && !IsError(e, t) ==> On(f', h) || f' == Returned(Some(f.job.img)))
    && (f'.Returned? && f'.result.Some? ==>
          Unharmed(f) && f.job.left == 0 && !IsTry(e, t) && !IsError(e, t))
  }

  lemma OwnStepOn(s: State, e: Event, h: seq<Layer>)
    requires Inv(s) && Enabled(s, e) && !e.Begin?
    ensures OnStep(s.threads[e.t], e, e.t, h, Next(s, e).threads[e.t])
  {
    assert WellFormed(s.threads[e.t]);
    if e.DoneFetching? { Releases(s, e); }
  }

  lemma StepOn(s: State, e: Event, t: Thread, h: seq<Layer>)
    requires Inv(s) && Enabled(s, e) && t < |s.threads| && !s.threads[t].Returned?
    ensures t < |Next(s, e).threads| && OnStep(s.threads[t], e, t, h, Next(s, e).threads[t])
  {
    if e.Begin? || e.t != t {
      Untouched(s, e, t);
    } else {
      OwnStepOn(s, e, h);
    }
  }

  lemma StepReturned(s: State, e: Event, t: Thread)
    requires Enabled(s, e) && t < |s.threads| && s.threads[t].Returned?
    ensures t < |Next(s, e).threads| && Next(s, e).threads[t] == s.threads[t]
    ensures !IsTry(e, t) && !IsError(e, t)
  {
  }

  lemma {:induction false} ReturnedIsQuiet(s: State, es: seq<Event>, s': State, t: Thread)
    requires Steps(s, es, s') && t < |s.threads| && s.threads[t].Returned?
    ensures t < |s'.threads| && s'.threads[t] == s.threads[t] && Quiet(es, t)
    decreases |es|
  {
    if es != [] {
      StepReturned(s, es[0], t);
      ReturnedIsQuiet(Next(s, es[0]), es[1..], s', t);
    }
  }

  lemma ServedLater(es: seq<Event>, t: Thread, h: seq<Layer>)
    requires es != [] && ServedWith(es[1..], t, h)
    ensures ServedWith(es, t, h)
  {
    var i :| 0 <= i < |es[1..]| && GaveHistory(es[1..][i], t, h) && Quiet(es[1..][i + 1..], t);
    assert GaveHistory(es[i + 1], t, h) && es[1..][i + 1..] == es[i + 1 + 1..];
  }

  lemma ServedNow(es: seq<Event>, t: Thread, h: seq<Layer>)
    requires es != [] && GaveHistory(es[0], t, h) && Quiet(es[1..], t)
    ensures ServedWith(es, t, h)
  {
    assert GaveHistory(es[0], t, h) && es[0 + 1..] == es[1..];
  }

  lemma {:induction false} GraphGrows(s: State, es: seq<Event>, s': State)
    requires Steps(s, es, s')
    ensures s.graph <= s'.graph
    decreases |es|
  {
    if es != [] { GraphGrows(Next(s, es[0]), es[1..], s'); }
  }

  /** The history from which a call returned its image; with matching ids, all of it is in
      the graph. */
  lemma {:induction false} ReturnedFrom(graph0: set<Layer>, s: State, es: seq<Event>, s': State, t: Thread)
      returns (h: seq<Layer>)
    requires Inv(s) && Steps(s, es, s') && t < |s.threads| && !s.threads[t].Returned?
    requires t < |s'.threads| && s'.threads[t].Returned? && s'.threads[t].result.Some?
    ensures ServedWith(es, t, h) || (On(s.threads[t], h) && Quiet(es, t))
    ensures GraphInv(graph0, s) && MatchedSteps(s, es, s') ==> forall l :: l in h ==> l in s'.graph
    decreases |es|
  {
    var s1 := Next(s, es[0]);
    StepKeepsInv(s, es[0]);
    StepOn(s, es[0], t, []);
    if s1.threads[t].Returned? {
      ReturnedIsQuiet(s1, es[1..], s', t);
      h := s.threads[t].job.history;
      if GraphInv(graph0, s) {
        assert CallOk(s.graph, s.threads[t]);
        GraphGrows(s, es, s');
      }
    } else {
      if GraphInv(graph0, s) && MatchedSteps(s, es, s') { MatchedStepKeepsGraphInv(graph0, s, es[0]); }
      h := ReturnedFrom(graph0, s1, es[1..], s', t);
      StepOn(s, es[0], t, h);
      if ServedWith(es[1..], t, h) {
        ServedLater(es, t, h);
      } else if GaveHistory(es[0], t, h) {
        ServedNow(es, t, h);
      }
    }
  }

  /** The same of a call that begins during the run. */
  lemma {:induction false} NewReturnedFrom(graph0: set<Layer>, s: State, es: seq<Event>, s': State, t: Thread)
      returns (h: seq<Layer>)
    requires Inv(s) && Steps(s, es, s') && |s.threads| <= t < |s'.threads|
    requires s'.threads[t].Returned? && s'.threads[t].result.Some?
    ensures ServedWith(es, t, h)
    ensures GraphInv(graph0, s) && MatchedSteps(s, es, s') ==> forall l :: l in h ==> l in s'.graph
    decreases |es|
  {
    var s1 := Next(s, es[0]);
    StepKeepsInv(s, es[0]);
    StepThreads(s, es[0]);
    if GraphInv(graph0, s) && MatchedSteps(s, es, s') { MatchedStepKeepsGraphInv(graph0, s, es[0]); }
    if t < |s1.threads| {
      if s1.threads[t].Returned? { ReturnedIsQuiet(s1, es[1..], s', t); }
      h := ReturnedFrom(graph0, s1, es[1..], s', t);
    } else {
      h := NewReturnedFrom(graph0, s1, es[1..], s', t);
    }
    ServedLater(es, t, h);
  }

  lemma {:induction false} QuietStaysOn(s: State, es: seq<Event>, s': State, t: Thread, h: seq<Layer>)
    requires Inv(s) && Steps(s, es, s') && t < |s.threads| && On(s.threads[t], h) && Quiet(es, t)
    ensures t < |s'.threads| && (s'.threads[t].Returned? ==> s'.threads[t].result.Some?)
    decreases |es|
  {
    if es != [] {
      StepKeepsInv(s, es[0]);
      StepOn(s, es[0], t, h);
      if On(Next(s, es[0]).threads[t], h) {
        QuietStaysOn(Next(s, es[0]), es[1..], s', t, h);
      } else {
        ReturnedIsQuiet(Next(s, es[0]), es[1..], s', t);
      }
    }
  }

  /** A call that was served does not return an error. */
  lemma {:induction false} ServedSucceeds(s: State, es: seq<Event>, s': State, t: Thread, h: seq<Layer>, i: nat)
    requires Inv(s) && Steps(s, es, s') && i < |es| && GaveHistory(es[i], t, h) && Quiet(es[i + 1..], t)
    ensures t < |s'.threads| && (s'.threads[t].Returned? ==> s'.threads[t].result.Some?)
    decreases |es|
  {
    StepKeepsInv(s, es[0]);
    if i == 0 {
      StepOn(s, es[0], t, h);
      QuietStaysOn(Next(s, es[0]), es[1..], s', t, h);
    } else {
      assert es[1..][i - 1 + 1..] == es[i + 1..];
      ServedSucceeds(Next(s, es[0]), es[1..], s', t, h, i - 1);
    }
  }

  // ---- The outcome of every call ------------------------------------------------------------

  /** What a returned call returned, by its answers: nothing if the lookup failed; for an
      image over n endpoints, an error exactly when each of the n answered with one, and
      the image exactly when some endpoint's answers to it all succeeded. */
  ghost predicate EndsAsAnswered(es: seq<Event>, t: Thread, lookup: Option<(Layer, nat)>, result: Option<Layer>) {
    match lookup
    case None => result == None && Tries(es, t) == 0
    case Some((img, n)) =>
      && Errors(es, t) <= Tries(es, t) <= n
      && (result == None <==> Tries(es, t) == Errors(es, t) == n)
      && (result == Some(img) <==> Served(es, t))
      && (result == None || result == Some(img))
  }

  /** Over every interleaving of any number of calls. */
  lemma FetchEndsAsAnswered(s0: State, es: seq<Event>, s: State, t: Thread)
    requires Init(s0) && Steps(s0, es, s) && t < |s.threads| && s.threads[t].Returned?
    ensures t < |Lookups(es)| && EndsAsAnswered(es, t, Lookups(es)[t], s.threads[t].result)
  {
    NewCallTallies(s0, es, s, t);
    if s.threads[t].result.Some? {
      var h := NewReturnedFrom({}, s0, es, s, t);
    } else if h, i :| 0 <= i < |es| && GaveHistory(es[i], t, h) && Quiet(es[i + 1..], t) {
      ServedSucceeds(s0, es, s, t, h, i);
    }
  }

  // ---- What the graph gains -------------------------------------------------------------------

  function HistoryLayers(es: seq<Event>): set<Layer> {
    if es == [] then {} else LayersOf(es[0]) + HistoryLayers(es[1..])
  }

  function LayersOf(e: Event): set<Layer> {
    if e.History? && e.history.Some? then set l | l in e.history.value else {}
  }

  /** The graph and the histories being walked are within b. */
  ghost predicate Within(s: State, b: set<Layer>) {
    && s.graph <= b
    && forall t :: 0 <= t < |s.threads| && HasJob(s.threads[t]) ==> forall l :: l in s.threads[t].job.history ==> l in b
  }

  lemma StepWithin(graph0: set<Layer>, s: State, e: Event, b: set<Layer>)
    requires Inv(s) && GraphInv(graph0, s) && Enabled(s, e) && Within(s, b)
    ensures Within(Next(s, e), b + LayersOf(e))
  {
    if !e.Begin? {
      assert WellFormed(s.threads[e.t]) && CallOk(s.graph, s.threads[e.t]);
      if e.DoneFetching? { Releases(s, e); }
    }
  }

  lemma {:induction false} RunWithin(graph0: set<Layer>, s: State, es: seq<Event>, s': State, b: set<Layer>)
    requires Inv(s) && GraphInv(graph0, s) && MatchedSteps(s, es, s') && Within(s, b)
    ensures s'.graph <= b + HistoryLayers(es)
    decreases |es|
  {
    if es != [] {
      StepKeepsInv(s, es[0]);
      MatchedStepKeepsGraphInv(graph0, s, es[0]);
      StepWithin(graph0, s, es[0], b);
      RunWithin(graph0, Next(s, es[0]), es[1..], s', b + LayersOf(es[0]));
    }
  }

  lemma {:induction false} MatchedAreSteps(s: State, es: seq<Event>, s': State)
    requires MatchedSteps(s, es, s')
    ensures Steps(s, es, s')
    decreases |es|
  {
    if es != [] { MatchedAreSteps(Next(s, es[0]), es[1..], s'); }
  }

  /** Over every run with matching image ids: a call that returned an image has every layer
      of the history it was served with in the graph, and the graph has gained nothing but
      layers of histories that were answered. */
  lemma FetchDownloads(s0: State, es: seq<Event>, s: State, t: Thread) returns (h: seq<Layer>)
    requires Init(s0) && MatchedSteps(s0, es, s)
    requires t < |s.threads| && s.threads[t].Returned? && s.threads[t].result.Some?
    ensures ServedWith(es, t, h) && forall l :: l in h ==> l in s.graph
    ensures s0.graph <= s.graph <= s0.graph + HistoryLayers(es)
  {
    MatchedAreSteps(s0, es, s);
    GraphGrows(s0, es, s);
    RunWithin(s0.graph, s0, es, s, s0.graph);
    h := NewReturnedFrom(s0.graph, s0, es, s, t);
  }

  // ---- A call that meets no error ---------------------------------------------------------------

  lemma {:induction false} OnlyCall(s: State, es: seq<Event>, s': State)
    requires Steps(s, es, s')
    ensures |s'.threads| == |s.threads| + |Lookups(es)|
    ensures forall i :: 0 <= i < |es| && !es[i].Begin? ==> es[i].t < |s'.threads|
    decreases |es|
  {
    if es != [] {
      StepThreads(s, es[0]);
      OnlyCall(Next(s, es[0]), es[1..], s');
      forall i | 0 <= i < |es| && !es[i].Begin? ensures es[i].t < |s'.threads| {
        if i > 0 { assert es[i] == es[1..][i - 1]; }
      }
    }
  }

  lemma {:induction false} NoHistories(es: seq<Event>)
    requires Tries(es, 0) == 0 && forall i :: 0 <= i < |es| && es[i].History? ==> es[i].t == 0
    ensures HistoryLayers(es) == {}
  {
    if es != [] {
      forall i | 0 <= i < |es[1..]| && es[1..][i].History? ensures es[1..][i].t == 0 { assert es[1..][i] == es[i + 1]; }
      NoHistories(es[1..]);
    }
  }

  /** With one try in all, by call 0, the layers answered are those of its history. */
  lemma {:induction false} OneHistory(es: seq<Event>, h: seq<Layer>, k: nat)
    requires Tries(es, 0) == 1 && forall i :: 0 <= i < |es| && es[i].History? ==> es[i].t == 0
    requires k < |es| && GaveHistory(es[k], 0, h)
    ensures HistoryLayers(es) == set l | l in h
  {
    forall i | 0 <= i < |es[1..]| && es[1..][i].History? ensures es[1..][i].t == 0 { assert es[1..][i] == es[i + 1]; }
    if k == 0 {
      NoHistories(es[1..]);
    } else {
      TriesAt(es[1..], k - 1);
      OneHistory(es[1..], h, k - 1);
    }
  }

  lemma {:induction false} TriesAt(es: seq<Event>, k: nat)
    requires k < |es| && IsTry(es[k], 0)
    ensures Tries(es, 0) >= 1
  {
    if k > 0 { TriesAt(es[1..], k - 1); }
  }

  /** A fetch of an image, on its own, over at least one endpoint and without an error, once
      nothing is left to do: it has returned the image, and the graph is what it was and
      every layer of the history that was answered. */
  lemma ErrorFreeFetch(s0: State, es: seq<Event>, s: State, img: Layer, n: nat) returns (h: seq<Layer>)
    requires Init(s0) && MatchedSteps(s0, es, s)
    requires Lookups(es) == [Some((img, n))] && n > 0 && Errors(es, 0) == 0
    requires forall e: Event :: !e.Begin? ==> !Enabled(s, e)
    ensures s.threads == [Returned(Some(img))]
    ensures ServedWith(es, 0, h) && s.graph == s0.graph + set l | l in h
  {
    MatchedAreSteps(s0, es, s);
    OnlyCall(s0, es, s);
    QuiescentMeansReturned(s0, es, s);
    FetchEndsAsAnswered(s0, es, s, 0);
    NewCallTallies(s0, es, s, 0);
    h := FetchDownloads(s0, es, s, 0);
    var k :| 0 <= k < |es| && GaveHistory(es[k], 0, h) && Quiet(es[k + 1..], 0);
    OneHistory(es, h, k);
  }
}
