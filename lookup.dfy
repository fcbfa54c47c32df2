/**
 * The MapdbLookup processing resource (MapdbLookup.java): one instance per
 * duplicate, with its parameters, its view of the shared DB and map, and the
 * per-document lookup.
 */
module Lookup {
  import opened Base
  import opened Gate
  import opened MapDb
  import opened Params
  import opened Selection
  import opened Enrichment
  import opened Sharing

  class MapdbLookup {
    const duplicateId: nat
    const config: Config
    const shared: SharedData
    var db: Db?
    var hmap: Option<Store>

    constructor (duplicateId: nat, config: Config, shared: SharedData)
      ensures this.duplicateId == duplicateId && this.config == config && this.shared == shared
      ensures db == null && hmap == None
    {
      this.duplicateId := duplicateId;
      this.config := config;
      this.shared := shared;
      db := null;
      hmap := None;
    }

    /** doLookup: derive the key and, for a non-null key, write the map's value
        for it (null when absent) into the value feature. */
    method DoLookup(doc: Document, a: Annotation) returns (r: Outcome)
      modifies a
      ensures match Enrich(config, doc, hmap, a, old(a.features))
        case Ok(fm) => a.features == fm && r == Pass
        case Err(e) => a.features == old(a.features) && r == Fail(e)
    {
      var fm := a.features;
      var key: Option<string>;
      if config.keyFeature == "" {
        key := Some(doc.cleanStringFor(a));
      } else {
        match Get(fm, config.keyFeature)
        case Str(s) => key := Some(s);
        case Null => key := None;
        case Other(_) => return Fail(KeyNotString);
      }
      if key.Some? {
        if hmap.None? {
          return Fail(NullMap);
        }
        var val := StoreGet(hmap.value, key.value);
        a.features := fm[config.valueFeature := val];
      }
      r := Pass;
    }

    /** process: look up every selected annotation in order, checking for
        interruption after each lookup. `polls(k)` is what isInterrupted()
        answers after the k-th lookup. */
    method Process(doc: Document, polls: nat -> bool) returns (r: Outcome)
      modifies Candidates(config, doc)
      ensures Select(config, doc).Err? ==>
        r == Fail(Select(config, doc).error) && FeaturesAre(Candidates(config, doc), old(FeaturesOf(Candidates(config, doc))))
      ensures Select(config, doc).Ok? ==>
        var run := Run(Env(config, doc, hmap, polls), Select(config, doc).value, old(FeaturesOf(Candidates(config, doc))));
        && FeaturesAre(Candidates(config, doc), run.snap)
        && r == if run.Running? then Pass else Fail(run.error)
    {
      var inputAS := InputSet(config, doc);
      if config.inputType == "" {
        r := Fail(EmptyInputType);
      } else {
        var inputAnns := OfType(inputAS, config.inputType);
        ghost var cands := Candidates(config, doc);
        ghost var s0 := FeaturesOf(cands);
        ghost var vs := Select(config, doc).value;
        ghost var env := Env(config, doc, hmap, polls);
        assert s0 == old(FeaturesOf(Candidates(config, doc)));
        assert FeaturesAre(cands, s0) && forall b :: b in vs ==> b in cands;
        ContinueFromSteps(env, vs, 0, s0);
        ghost var goal := Run(env, vs, s0);
        if config.containingType == "" {
          r := LookupAll(doc, polls, inputAnns, env, vs, cands, s0, goal);
        } else {
          var containingAnns := OfType(inputAS, config.containingType);
          r := LookupContained(doc, polls, containingAnns, inputAnns, env, vs, cands, s0, goal);
        }
      }
    }

    /** The branch of process without a containing type: the loop body on
        every input annotation in document order. `goal` is where the run
        from `s0` ends. */
    method LookupAll(doc: Document, polls: nat -> bool, inputAnns: seq<Annotation>, ghost env: Env,
                     ghost vs: seq<Annotation>, ghost cands: set<Annotation>, ghost s0: Snapshot, ghost goal: RunState)
      returns (r: Outcome)
      requires env == Env(config, doc, hmap, polls)
      requires vs == inputAnns
      requires forall b :: b in vs ==> b in cands
      requires FeaturesAre(cands, s0)
      requires Continue(env, vs, 0, Running(s0)) == goal
      modifies cands
      ensures FeaturesAre(cands, goal.snap)
      ensures r == if goal.Running? then Pass else Fail(goal.error)
    {
      var k;
      ghost var st;
      assert vs[0..|inputAnns|] == inputAnns;
      r, k, st := LookupEach(doc, polls, inputAnns, 0, env, vs, cands, Running(s0), goal);
    }

    /** The branch of process with a containing type: for each containing
        annotation in order, the loop body on the input annotations inside its
        span. */
    method LookupContained(doc: Document, polls: nat -> bool, containingAnns: seq<Annotation>, inputAnns: seq<Annotation>,
                           ghost env: Env, ghost vs: seq<Annotation>, ghost cands: set<Annotation>, ghost s0: Snapshot,
                           ghost goal: RunState)
      returns (r: Outcome)
      requires env == Env(config, doc, hmap, polls)
      requires vs == ContainedVisits(containingAnns, inputAnns)
      requires forall b :: b in vs ==> b in cands
      requires FeaturesAre(cands, s0)
      requires Continue(env, vs, 0, Running(s0)) == goal
      modifies cands
      ensures FeaturesAre(cands, goal.snap)
      ensures r == if goal.Running? then Pass else Fail(goal.error)
    {
      ghost var cs := containingAnns;
      ghost var st := Running(s0);
      var k := 0;
      r := Pass;
      for j := 0 to |containingAnns|
        invariant k == |ContainedVisits(cs[..j], inputAnns)| <= |vs|
        invariant st.Running? && FeaturesAre(cands, st.snap) && Continue(env, vs, k, st) == goal
        invariant r == Pass
      {
        var containedAnns := Contained(inputAnns, containingAnns[j]);
        assert k + |containedAnns| == |ContainedVisits(cs[..j + 1], inputAnns)| <= |vs|
            && vs[k..k + |containedAnns|] == containedAnns by {
          ContainedVisitsAt(cs, j, inputAnns);
        }
        r, k, st := LookupEach(doc, polls, containedAnns, k, env, vs, cands, st, goal);
        if r.Fail? {
          return;
        }
      }
      assert cs[..|cs|] == cs;
    }

    /** The loop body of process over `anns`, which are the selected
        annotations from position k0 on: each lookup is followed by the
        interruption check. Returns how many lookups have been done in all,
        and the state they leave. */
    method LookupEach(doc: Document, polls: nat -> bool, anns: seq<Annotation>, k0: nat, ghost env: Env,
                      ghost vs: seq<Annotation>, ghost cands: set<Annotation>, ghost st0: RunState, ghost goal: RunState)
      returns (r: Outcome, k: nat, ghost st: RunState)
      requires env == Env(config, doc, hmap, polls)
      requires k0 + |anns| <= |vs| && vs[k0..k0 + |anns|] == anns
      requires forall b :: b in vs ==> b in cands
      requires st0.Running? && FeaturesAre(cands, st0.snap) && Continue(env, vs, k0, st0) == goal
      modifies cands
      ensures r.Fail? ==> goal == Stopped(goal.snap, r.error) && FeaturesAre(cands, goal.snap)
      ensures r.Pass? ==> k == k0 + |anns|
      ensures r.Pass? ==> st.Running? && FeaturesAre(cands, st.snap) && Continue(env, vs, k, st) == goal
    {
      k := k0;
      st := st0;
      r := Pass;
      for i := 0 to |anns|
        invariant k == k0 + i && r == Pass
        invariant st.Running? && FeaturesAre(cands, st.snap) && Continue(env, vs, k, st) == goal
      {
        SliceAt(vs, k0, anns, i);
        r, st := LookupAt(doc, polls, k, anns[i], env, vs, cands, st);
        k := k + 1;
        if r.Fail? {
          ContinueStopped(env, vs, k, st);
          return;
        }
      }
    }

    /** One iteration of process's loops: doLookup on `a`, the k-th selected
        annotation, then the interruption check; `next` is the state after. */
    method LookupAt(doc: Document, polls: nat -> bool, k: nat, a: Annotation, ghost env: Env,
                    ghost vs: seq<Annotation>, ghost cands: set<Annotation>, ghost st: RunState)
      returns (r: Outcome, ghost next: RunState)
      requires env == Env(config, doc, hmap, polls)
      requires k < |vs| && a == vs[k] && forall b :: b in vs ==> b in cands
      requires st.Running? && FeaturesAre(cands, st.snap)
      modifies a
      ensures next == Step(env, k, a, st.snap)
      ensures Continue(env, vs, k, st) == Continue(env, vs, k + 1, next)
      ensures FeaturesAre(cands, next.snap)
      ensures r == if next.Running? then Pass else Fail(next.error)
    {
      r := DoLookup(doc, a);
      if r.Pass? && polls(k) {
        r := Fail(Interrupted);
      }
      next := Step(env, k, a, st.snap);
      ContinueStep(env, vs, k, st);
    }

    /** beforeFirstDocument: under the lock, reuse the DB and map of the shared
        slot, or open the DB, install it, then open the named map and install it. */
    method BeforeFirstDocument() returns (r: Outcome)
      requires shared.Valid()
      modifies this, shared
      ensures shared.Valid()
      ensures var t := BeforeFirst(old(shared.View()), old(hmap), OpenHashMap(config.mapDbFile, config.mapName));
        shared.View() == t.slot && hmap == t.instanceMap && r == t.outcome
      ensures db == shared.db
      ensures old(shared.db) != null ==> shared.db == old(shared.db)
      ensures old(shared.db) == null ==>
        && fresh(shared.db) && shared.db.Valid() && !shared.db.closed
        && shared.db.file == config.mapDbFile
        && shared.db.mmap == (config.loadingMode.None? || config.loadingMode.value == MemoryMapped)
    {
      db := shared.db;
      if db != null {
        hmap := shared.hmap;
        r := Pass;
      } else {
        if config.loadingMode.None? || config.loadingMode.value == MemoryMapped {
          db := new Db.Make(config.mapDbFile, true);
        } else {
          db := new Db.Make(config.mapDbFile, false);
        }
        shared.db := db;
        shared.opens := shared.opens + 1;
        var named := OpenHashMap(db.file, config.mapName);
        if named.None? {
          return Fail(MapMissing);
        }
        hmap := named;
        shared.hmap := named;
        r := Pass;
      }
    }

    /** cleanup: only duplicate 0 closes the DB, and only an open one. */
    method Cleanup()
      requires db != null ==> db.Valid()
      modifies if db != null then {db} else {}
      ensures db != null ==> db.closed == (old(db.closed) || duplicateId == 0)
      ensures db != null ==>
        db.closes == old(db.closes) + if CleanupCloses(duplicateId, true, old(db.closed)) then 1 else 0
      ensures db != null ==> db.Valid()
    {
      if duplicateId == 0 && db != null && !db.closed {
        db.Close();
      }
    }
  }
}
