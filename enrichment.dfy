/**
 * What one lookup does to an annotation's features (MapdbLookup.doLookup,
 * MapdbLookup.java:220-232), and what a run of lookups over the selected
 * annotations does, with the interruption check after each lookup
 * (MapdbLookup.java:194-213).
 */
module Enrichment {
  import opened Base
  import opened Gate
  import opened MapDb
  import opened Params
  import opened Selection

  /** The lookup key: the cleaned covered text when no key feature is set,
      otherwise the key feature's value, which must be a string or null. */
  function KeyFor(cfg: Config, doc: Document, a: Annotation, fm: FeatureMap): (r: Result<Option<string>, Error>)
    ensures cfg.keyFeature == "" ==> r == Ok(Some(doc.cleanStringFor(a)))
    ensures cfg.keyFeature != "" ==> (r == Ok(None) <==> Get(fm, cfg.keyFeature) == Null)
    ensures cfg.keyFeature != "" ==> (r.Err? <==> Get(fm, cfg.keyFeature).Other?)
    ensures r.Err? ==> r.error == KeyNotString
    ensures cfg.keyFeature != "" && r.Ok? && r.value.Some? ==> Get(fm, cfg.keyFeature) == Str(r.value.value)
  {
    if cfg.keyFeature == "" then Ok(Some(doc.cleanStringFor(a)))
    else match Get(fm, cfg.keyFeature)
      case Str(s) => Ok(Some(s))
      case Null => Ok(None)
      case Other(_) => Err(KeyNotString)
  }

  /** The feature map after one lookup with the map `store` (None: the
      processor holds no map). */
  function Enrich(cfg: Config, doc: Document, store: Option<Store>, a: Annotation, fm: FeatureMap): (r: Result<FeatureMap, Error>)
    ensures KeyFor(cfg, doc, a, fm).Err? ==> r == Err(KeyNotString)
    ensures KeyFor(cfg, doc, a, fm) == Ok(None) ==> r == Ok(fm)
    ensures KeyFor(cfg, doc, a, fm).Ok? && KeyFor(cfg, doc, a, fm).value.Some? && store.None? ==> r == Err(NullMap)
    ensures KeyFor(cfg, doc, a, fm).Ok? && KeyFor(cfg, doc, a, fm).value.Some? && store.Some? ==>
      var key := KeyFor(cfg, doc, a, fm).value.value;
      && r.Ok?
      && cfg.valueFeature in r.value
      && r.value[cfg.valueFeature] == StoreGet(store.value, key)
      && (ValidStore(store.value) ==> (r.value[cfg.valueFeature] == Null <==> key !in store.value))
      && r.value - {cfg.valueFeature} == fm - {cfg.valueFeature}
  {
    match KeyFor(cfg, doc, a, fm)
    case Err(e) => Err(e)
    case Ok(None) => Ok(fm)
    case Ok(Some(key)) =>
      if store.None? then Err(NullMap)
      else Ok(fm[cfg.valueFeature := StoreGet(store.value, key)])
  }

  /** What a run depends on besides the annotations: the parameters, the
      document, the processor's map, and the answers of isInterrupted(), the
      k-th answer being the one read after the k-th lookup (from 0). */
  datatype Env = Env(cfg: Config, doc: Document, store: Option<Store>, polls: nat -> bool)

  type Snapshot = map<Annotation, FeatureMap>

  /** The features `s` records for `a`; none when it records nothing for it. */
  function FeaturesIn(s: Snapshot, a: Annotation): FeatureMap {
    if a in s then s[a] else map[]
  }

  /** The features of every annotation, and whether the run goes on or has
      ended with an exception. */
  datatype RunState = Running(snap: Snapshot) | Stopped(snap: Snapshot, error: Error)

  /** The k-th lookup, on `a`, then the interruption check. */
  function Step(env: Env, k: nat, a: Annotation, s: Snapshot): RunState {
    match Enrich(env.cfg, env.doc, env.store, a, FeaturesIn(s, a))
    case Err(e) => Stopped(s, e)
    case Ok(fm) =>
      if env.polls(k) then Stopped(s[a := fm], Interrupted) else Running(s[a := fm])
  }

  /** One loop body: the run stops iff the lookup raises or the check after it
      fires; a lookup that raises changes nothing; otherwise the annotation
      gets the lookup's features and every other annotation keeps its own. */
  lemma StepEffect(env: Env, k: nat, a: Annotation, s: Snapshot, b: Annotation)
    ensures var e := Enrich(env.cfg, env.doc, env.store, a, FeaturesIn(s, a));
      && (Step(env, k, a, s).Stopped? <==> e.Err? || env.polls(k))
      && (e.Err? ==> Step(env, k, a, s) == Stopped(s, e.error))
      && (e.Ok? ==> FeaturesIn(Step(env, k, a, s).snap, a) == e.value)
      && (e.Ok? && env.polls(k) ==> Step(env, k, a, s).error == Interrupted)
      && (b != a ==> FeaturesIn(Step(env, k, a, s).snap, b) == FeaturesIn(s, b))
  {
  }

  /** The state after the first `k` lookups of `vs`, in order, from the features `s0`. */
  function Steps(env: Env, vs: seq<Annotation>, k: nat, s0: Snapshot): RunState
    requires k <= |vs|
  {
    if k == 0 then Running(s0)
    else match Steps(env, vs, k - 1, s0)
      case Stopped(s, e) => Stopped(s, e)
      case Running(s) => Step(env, k - 1, vs[k - 1], s)
  }

  /** The whole run over `vs`. */
  function Run(env: Env, vs: seq<Annotation>, s0: Snapshot): RunState {
    Steps(env, vs, |vs|, s0)
  }

  /** What the lookups from position k on do to the state `st`: nothing once
      the run has stopped. */
  function Continue(env: Env, vs: seq<Annotation>, k: nat, st: RunState): RunState
    requires k <= |vs|
    decreases |vs| - k
  {
    if k == |vs| || st.Stopped? then st
    else Continue(env, vs, k + 1, Step(env, k, vs[k], st.snap))
  }

  /** Continuing a running state is taking the next step, then continuing. */
  lemma ContinueStep(env: Env, vs: seq<Annotation>, k: nat, st: RunState)
    requires k < |vs| && st.Running?
    ensures Continue(env, vs, k, st) == Continue(env, vs, k + 1, Step(env, k, vs[k], st.snap))
  {
  }

  /** Continuing a stopped state leaves it as it is. */
  lemma ContinueStopped(env: Env, vs: seq<Annotation>, k: nat, st: RunState)
    requires k <= |vs| && st.Stopped?
    ensures Continue(env, vs, k, st) == st
  {
  }

  /** The state after k lookups, continued with the remaining ones, is the
      whole run. */
  lemma {:induction false} ContinueFromSteps(env: Env, vs: seq<Annotation>, k: nat, s0: Snapshot)
    requires k <= |vs|
    ensures Continue(env, vs, k, Steps(env, vs, k, s0)) == Run(env, vs, s0)
    decreases |vs| - k
  {
    if k < |vs| {
      var st := Steps(env, vs, k, s0);
      if st.Stopped? {
        ContinueStopped(env, vs, k, st);
        StoppedIsFinal(env, vs, k, |vs|, s0);
      } else {
        ContinueStep(env, vs, k, st);
        assert Steps(env, vs, k + 1, s0) == Step(env, k, vs[k], st.snap);
        ContinueFromSteps(env, vs, k + 1, s0);
      }
    }
  }

  /** Once a lookup raises or the interruption check fires, the run is over:
      the rest of the annotations change nothing and the exception stands. */
  lemma {:induction false} StoppedIsFinal(env: Env, vs: seq<Annotation>, n: nat, m: nat, s0: Snapshot)
    requires n <= m <= |vs| && Steps(env, vs, n, s0).Stopped?
    ensures Steps(env, vs, m, s0) == Steps(env, vs, n, s0)
  {
    if m > n { StoppedIsFinal(env, vs, n, m - 1, s0); }
  }

  /** No lookup forgets an annotation: every annotation `s0` records is
      recorded after k lookups. */
  lemma {:induction false} StepsKeepRecords(env: Env, vs: seq<Annotation>, k: nat, s0: Snapshot, a: Annotation)
    requires k <= |vs| && a in s0
    ensures a in Steps(env, vs, k, s0).snap
  {
    if k > 0 { StepsKeepRecords(env, vs, k - 1, s0, a); }
  }

  /** An annotation that none of the first k lookups visits keeps its features. */
  lemma {:induction false} UnvisitedUnchanged(env: Env, vs: seq<Annotation>, k: nat, s0: Snapshot, a: Annotation)
    requires k <= |vs|
    requires forall i :: 0 <= i < k ==> vs[i] != a
    ensures FeaturesIn(Steps(env, vs, k, s0).snap, a) == FeaturesIn(s0, a)
  {
    if k > 0 {
      UnvisitedUnchanged(env, vs, k - 1, s0, a);
      StepsElsewhere(env, vs, k, s0, a);
    }
  }

  /** The k-th lookup leaves every annotation other than its own alone. */
  lemma StepsElsewhere(env: Env, vs: seq<Annotation>, k: nat, s0: Snapshot, a: Annotation)
    requires 0 < k <= |vs| && vs[k - 1] != a
    ensures FeaturesIn(Steps(env, vs, k, s0).snap, a) == FeaturesIn(Steps(env, vs, k - 1, s0).snap, a)
  {
  }

  /** When the check after the k-th lookup fires, the run ends with
      Interrupted; the k-th and every earlier lookup keep what they wrote and
      an annotation first visited later keeps its features. */
  lemma InterruptedAfter(env: Env, vs: seq<Annotation>, s0: Snapshot, k: nat)
    requires k < |vs| && Steps(env, vs, k, s0).Running?
    requires Enrich(env.cfg, env.doc, env.store, vs[k], FeaturesIn(Steps(env, vs, k, s0).snap, vs[k])).Ok?
    requires env.polls(k)
    ensures Run(env, vs, s0).Stopped? && Run(env, vs, s0).error == Interrupted
    ensures Run(env, vs, s0).snap ==
      Steps(env, vs, k, s0).snap[vs[k] := Enrich(env.cfg, env.doc, env.store, vs[k], FeaturesIn(Steps(env, vs, k, s0).snap, vs[k])).value]
    ensures forall a :: (forall i :: 0 <= i <= k ==> vs[i] != a) ==> FeaturesIn(Run(env, vs, s0).snap, a) == FeaturesIn(s0, a)
  {
    StoppedIsFinal(env, vs, k + 1, |vs|, s0);
    forall a | forall i :: 0 <= i <= k ==> vs[i] != a
      ensures FeaturesIn(Run(env, vs, s0).snap, a) == FeaturesIn(s0, a)
    {
      UnvisitedUnchanged(env, vs, k + 1, s0, a);
    }
  }

  /** A run only gets past k lookups normally when no interruption check
      fired among them: interruption never ends a run silently. */
  lemma {:induction false} CompletedMeansNotInterrupted(env: Env, vs: seq<Annotation>, k: nat, s0: Snapshot)
    requires k <= |vs| && Steps(env, vs, k, s0).Running?
    ensures forall i :: 0 <= i < k ==> !env.polls(i)
  {
    if k > 0 {
      CompletedMeansNotInterrupted(env, vs, k - 1, s0);
    }
  }

  /** With the covered text as key and a map present, each of the first k
      lookups that completed leaves its annotation with the map's value for its
      cleaned covered text (null when the map has no such key), whatever the
      annotation held before. */
  lemma {:induction false} CoveredTextRun(env: Env, vs: seq<Annotation>, k: nat, s0: Snapshot)
    requires env.cfg.keyFeature == "" && env.store.Some?
    requires k <= |vs| && Steps(env, vs, k, s0).Running?
    ensures forall i :: 0 <= i < k ==>
      && env.cfg.valueFeature in FeaturesIn(Steps(env, vs, k, s0).snap, vs[i])
      && FeaturesIn(Steps(env, vs, k, s0).snap, vs[i])[env.cfg.valueFeature]
         == StoreGet(env.store.value, env.doc.cleanStringFor(vs[i]))
  {
    if k > 0 {
      CoveredTextRun(env, vs, k - 1, s0);
    }
  }

  /** With a containing type, an input annotation outside every containing
      span is never visited, so its features never change. */
  lemma OutsideSpansUntouched(env: Env, s0: Snapshot, a: Annotation)
    requires env.cfg.inputType != "" && env.cfg.containingType != ""
    requires forall i :: 0 <= i < |ContainingAnns(env.cfg, env.doc)| ==> !Within(a, ContainingAnns(env.cfg, env.doc)[i])
    ensures FeaturesIn(Run(env, Select(env.cfg, env.doc).value, s0).snap, a) == FeaturesIn(s0, a)
  {
    var vs := Select(env.cfg, env.doc).value;
    SelectWithContaining(env.cfg, env.doc, a);
    UnvisitedUnchanged(env, vs, |vs|, s0, a);
  }

  /** With the declared defaults and a map present, a lookup keys on the
      cleaned covered text and writes the map's value for it into "value",
      leaving every other feature as it was. */
  lemma DefaultsLookup(file: DbFile, doc: Document, store: Store, a: Annotation, fm: FeatureMap)
    ensures var r := Enrich(Defaults(file), doc, Some(store), a, fm);
      && r.Ok?
      && "value" in r.value
      && r.value["value"] == StoreGet(store, doc.cleanStringFor(a))
      && r.value - {"value"} == fm - {"value"}
  {
  }
}
