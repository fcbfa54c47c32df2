# MapdbLookup in Dafny

A model of `MapdbLookup`, the GATE processing resource that looks up
annotations in a read-only MapDB hash map and writes what it finds into a
feature of each annotation.

For each document, `process` does the following:
- picks the input annotation set: the default set, or the named one;
- rejects an empty input annotation type;
- visits the input annotations in one of two ways:
  - without a containing type, every input annotation of the input type;
  - with a containing type, for each containing annotation in order, the
    input annotations inside its span;
- runs `doLookup` on each visited annotation, then checks for interruption.

`doLookup` derives a key. It is the cleaned covered text when no key feature
is set, otherwise the key feature's value, which must be a string or null. A
null key writes nothing. Any other key writes the map's value for it into the
value feature, and that value is null when the key is missing.

`beforeFirstDocument` runs under a process-wide lock. The first duplicate to
find no `"db"` in the shared data opens the MapDB file, installs the DB, then
opens the named map and installs it. Later duplicates take both from the
shared data. `cleanup` closes the DB only in duplicate 0, and only when the DB
is present and not yet closed.

The modules follow that structure:
- `Base`: Option and Result.
- `Gate`: the parts of the GATE document model the stage uses: feature
  values, feature maps, the `Annotation` class whose feature map changes in
  place, documents, `AnnotationSet.get` and `getContainedAnnotations`.
- `MapDb`: maps, files of named maps, and the `Db` class with its `closed`
  state.
- `Params`: the parameters as a `Config` record, `LoadingMode`, the
  exceptions and how a call ends.
- `Selection`: which annotations `process` visits, and in which order.
- `Enrichment`: what one lookup does to a feature map (`Enrich`), and what a
  run of lookups with interruption checks does to the features of all
  annotations (`Steps`, `Run`, `Continue`).
- `Sharing`: the shared slot and what `beforeFirstDocument` and `cleanup` do
  to it across duplicates.
- `Lookup`: the class `MapdbLookup`, whose methods update annotations, the
  instance's `db` and `map` fields, and the shared slot in place. Each method
  is proved against the functions above.

There is no reference count and no release: `afterLastDocument` is empty
(MapdbLookup.java:259-260), and `cleanup` closes the DB in duplicate 0
whatever the other duplicates do. When the named map is missing, only the
opening duplicate raises. It installs `"db"` before it opens the map
(MapdbLookup.java:250-251), so later duplicates find `"db"` without `"map"`,
hold no map (MapdbLookup.java:241), and raise at their first lookup with a
non-null key (MapdbLookup.java:229).

## Model

| member | source | states |
|---|---|---|
| Gate.OfType | src/com/jpetrak/gate/jdbclookup/MapdbLookup.java:182 | the annotations of one type keep their multiplicity in the set; all others are dropped |
| Gate.Contained | src/com/jpetrak/gate/jdbclookup/MapdbLookup.java:205 | the annotations inside the containing span keep their multiplicity; all others are dropped |
| MapDb.Db.Make | src/com/jpetrak/gate/jdbclookup/MapdbLookup.java:244-249 | a newly made DB is open, never closed, and has the file and mmap flag it was made with |
| MapDb.StoreGet | src/com/jpetrak/gate/jdbclookup/MapdbLookup.java:229 | map.get gives the key's value when the map has the key; in a map that holds no nulls it gives null iff the key is absent |
| MapDb.OpenHashMap | src/com/jpetrak/gate/jdbclookup/MapdbLookup.java:251 | opening the named map succeeds iff the file has a map of that name, and gives that map |
| MapDb.Db.Close | src/com/jpetrak/gate/jdbclookup/MapdbLookup.java:268 | close() is only called on an open DB; afterwards the DB is closed, the close is counted, and it has been closed exactly once |
| Selection.InputSet | src/com/jpetrak/gate/jdbclookup/MapdbLookup.java:170-176 | an empty set name gives the default set; any other name gives the named set |
| Selection.Select | src/com/jpetrak/gate/jdbclookup/MapdbLookup.java:170-212 | an empty input type is the only error, and it is EmptyInputType; otherwise every visited annotation is an input annotation of the input type |
| Selection.SelectWithoutContaining | src/com/jpetrak/gate/jdbclookup/MapdbLookup.java:194-201 | without a containing type the visits are the input-type annotations in set order, each exactly once, and nothing else in the set |
| Selection.ContainedVisitsMembers | src/com/jpetrak/gate/jdbclookup/MapdbLookup.java:204-212 | an annotation is visited iff it is an input annotation and at least one containing span includes it |
| Selection.ContainedVisitsWithin | src/com/jpetrak/gate/jdbclookup/MapdbLookup.java:204-206 | every annotation visited in the containing loop is an input annotation |
| Selection.ContainedVisitsCount | src/com/jpetrak/gate/jdbclookup/MapdbLookup.java:204-212 | an input annotation is visited once for each containing annotation whose span includes it, without de-duplication |
| Selection.CoveringZero | src/com/jpetrak/gate/jdbclookup/MapdbLookup.java:204-205 | the count of containing spans around an annotation is zero iff no containing span includes it |
| Selection.CoveringTwo | src/com/jpetrak/gate/jdbclookup/MapdbLookup.java:204-205 | two different containing spans around an annotation count at least twice |
| Selection.ContainedVisitsAppend | src/com/jpetrak/gate/jdbclookup/MapdbLookup.java:204-212 | the visits for a concatenation of containing annotations are the concatenated visits |
| Selection.ContainedVisitsAt | src/com/jpetrak/gate/jdbclookup/MapdbLookup.java:204-211 | the annotations inside the j-th containing span are visited right after those of the containing annotations before it, in order |
| Selection.SelectWithContaining | src/com/jpetrak/gate/jdbclookup/MapdbLookup.java:202-212 | with a containing type an annotation is visited iff it is an input annotation inside some containing span |
| Selection.SelectVisitsTwice | src/com/jpetrak/gate/jdbclookup/MapdbLookup.java:204-211 | an input annotation inside two containing spans is visited at least twice |
| Selection.DefaultsVisitLookups | src/com/jpetrak/gate/jdbclookup/MapdbLookup.java:47-88 | with the declared defaults (no set name, input type "Lookup", no containing type) process visits every "Lookup" annotation of the default set, in order |
| Enrichment.KeyFor | src/com/jpetrak/gate/jdbclookup/MapdbLookup.java:221-227 | without a key feature the key is the cleaned covered text; otherwise a string value is the key, null gives no key, and any other value is KeyNotString |
| Enrichment.Enrich | src/com/jpetrak/gate/jdbclookup/MapdbLookup.java:220-232 | a bad key raises and no key changes nothing; with a key and no map the lookup raises NullMap; with a key and a map, the value feature is set to the map's value, which is null iff the key is absent, and every other feature is unchanged |
| Enrichment.StepEffect | src/com/jpetrak/gate/jdbclookup/MapdbLookup.java:196-200 | one loop body stops the run iff doLookup raises or the interruption check after it fires; a raising lookup changes nothing; otherwise the annotation gets the lookup's features, the check gives Interrupted, and every other annotation keeps its features |
| Enrichment.ContinueFromSteps | src/com/jpetrak/gate/jdbclookup/MapdbLookup.java:194-212 | the loop state after k lookups, continued with the remaining ones, is the whole run |
| Enrichment.StoppedIsFinal | src/com/jpetrak/gate/jdbclookup/MapdbLookup.java:197-200 | once a lookup raises or the interruption check fires, later lookups change nothing and the exception stands |
| Enrichment.StepsKeepRecords | src/com/jpetrak/gate/jdbclookup/MapdbLookup.java:196-200 | lookups never remove an annotation from the recorded state |
| Enrichment.StepsElsewhere | src/com/jpetrak/gate/jdbclookup/MapdbLookup.java:220-232 | a lookup changes the features of its own annotation only |
| Enrichment.UnvisitedUnchanged | src/com/jpetrak/gate/jdbclookup/MapdbLookup.java:194-212 | an annotation that none of the first k lookups visits keeps its features |
| Enrichment.InterruptedAfter | src/com/jpetrak/gate/jdbclookup/MapdbLookup.java:197-200 | when the check after lookup k fires, the run ends with Interrupted; lookup k and all earlier ones keep what they wrote; an annotation first visited later is untouched |
| Enrichment.CompletedMeansNotInterrupted | src/com/jpetrak/gate/jdbclookup/MapdbLookup.java:198-200 | a run gets past k lookups normally only if none of the first k checks fired |
| Enrichment.CoveredTextRun | src/com/jpetrak/gate/jdbclookup/MapdbLookup.java:223-230 | with the covered text as key and a map present, each completed lookup leaves the map's value for the annotation's cleaned text in the value feature |
| Enrichment.OutsideSpansUntouched | src/com/jpetrak/gate/jdbclookup/MapdbLookup.java:202-212 | with a containing type, an annotation outside every containing span keeps its features |
| Enrichment.DefaultsLookup | src/com/jpetrak/gate/jdbclookup/MapdbLookup.java:90-117 | with the declared defaults (no key feature, value feature "value") and a map, a lookup writes the map's value for the cleaned covered text into "value" and leaves every other feature as it was |
| Sharing.BeforeFirst | src/com/jpetrak/gate/jdbclookup/MapdbLookup.java:236-256 | afterwards the slot holds a DB; the DB is opened only when the slot had none; a filled slot is reused unchanged along with its map; an opening call succeeds iff the named map exists and then installs it; on success the instance's map is the slot's map |
| Sharing.StartsKeepFilledSlot | src/com/jpetrak/gate/jdbclookup/MapdbLookup.java:238-241 | once the slot holds a DB, further calls leave it as it is |
| Sharing.OpenedAtMostOnce | src/com/jpetrak/gate/jdbclookup/MapdbLookup.java:237-255 | across any number of calls on one slot the DB is opened exactly once (never without calls), and the slot keeps what the first call installed |
| Sharing.LaterStartsReuse | src/com/jpetrak/gate/jdbclookup/MapdbLookup.java:238-241 | every call after the first ends normally, changes nothing and hands out the first call's map |
| Sharing.ClosedStaysClosed | src/com/jpetrak/gate/jdbclookup/MapdbLookup.java:268 | cleanups never close a DB that is already closed |
| Sharing.NonOpenersNeverClose | src/com/jpetrak/gate/jdbclookup/MapdbLookup.java:268 | cleanups by duplicates other than 0 never close the DB, whatever its state |
| Sharing.CleanupsCloseOnce | src/com/jpetrak/gate/jdbclookup/MapdbLookup.java:267-269 | any sequence of cleanups closes an open DB exactly once if duplicate 0 is among the callers, and never otherwise |
| Sharing.SharedData.constructor | src/com/jpetrak/gate/jdbclookup/MapdbLookup.java:236-238 | the shared data starts without a DB or map and with no opens |
| Lookup.MapdbLookup.constructor | src/com/jpetrak/gate/jdbclookup/MapdbLookup.java:161-162 | a new instance holds no DB and no map |
| Lookup.MapdbLookup.DoLookup | src/com/jpetrak/gate/jdbclookup/MapdbLookup.java:220-232 | the annotation's features become what Enrich gives, or stay as they were when it raises |
| Lookup.MapdbLookup.Process | src/com/jpetrak/gate/jdbclookup/MapdbLookup.java:168-218 | an empty input type raises with no feature changed; otherwise the candidates hold the features of the run over the selected sequence, and process raises iff that run stopped, with its exception |
| Lookup.MapdbLookup.LookupAll | src/com/jpetrak/gate/jdbclookup/MapdbLookup.java:194-201 | the loop over all input annotations ends in the run's state and raises iff the run stopped |
| Lookup.MapdbLookup.LookupContained | src/com/jpetrak/gate/jdbclookup/MapdbLookup.java:202-212 | the nested loop over containing annotations ends in the run's state and raises iff the run stopped |
| Lookup.MapdbLookup.LookupEach | src/com/jpetrak/gate/jdbclookup/MapdbLookup.java:196-201 | the inner loop either raises with the run's final exception and features, or does all its lookups and leaves a running state from which the rest of the run continues |
| Lookup.MapdbLookup.LookupAt | src/com/jpetrak/gate/jdbclookup/MapdbLookup.java:197-200 | one loop body performs one run step: doLookup, then the interruption check |
| Lookup.MapdbLookup.BeforeFirstDocument | src/com/jpetrak/gate/jdbclookup/MapdbLookup.java:236-256 | the instance's map, the shared slot and the outcome are what BeforeFirst gives; the instance's db is the shared one; an existing DB is kept; a new DB is fresh, open, on the configured file, memory-mapped unless file-only mode is set |
| Lookup.MapdbLookup.Cleanup | src/com/jpetrak/gate/jdbclookup/MapdbLookup.java:267-269 | duplicate 0 leaves its DB closed; any other duplicate leaves it as it was; the DB is closed once more only if it was open and the caller is duplicate 0, so it is never closed twice |

## Left out

- JdbcLR (src/main/java/com/jpetrak/gate/jdbclookup/JdbcLR.java) is not part of this model: it is JDBC plumbing with I/O and foreign calls.
- Reading the MapDB file is I/O. A file is a map from map names to maps, and making a DB on it always succeeds. Only a missing named map is modelled as a failure (MapMissing).
- The loading mode is kept as the DB's `mmap` tag. It changes nothing the model observes.
- The lock behind `synchronized (syncObject)` is not modelled. Each call of beforeFirstDocument is one atomic step, and cleanup calls come one after another.
- `fireStatusChanged` and `fireProcessFinished` are UI events, and the INFO lines on standard error are logging. Neither is modelled.
- The parameter getters and setters are folded into the `Config` record. A null string parameter is the empty string, because the code treats null and empty alike for every name it tests. A null loading mode is `None`.
- A null value feature name and a null map name are not modelled.
- `Utils.cleanStringFor` is an abstract function carried by the document. `AnnotationSet.get` is taken to keep the set's enumeration order. `gate.Utils.getContainedAnnotations` is taken to return the annotations whose span lies inside the containing span, in the input set's order.
- `Document.getAnnotations(name)` creates a missing named set. The model reads a missing set as empty and does not add it to the document.
- doLookup reads the covered text from the processor's current document rather than its `doc` parameter. The model uses one document for both, which is what the processor passes.
- A run state records features per annotation. An annotation the state does not record reads as having no features. Process starts from the features of all input annotations, so every visited annotation is recorded.
- The interruption flag is a parameter of process: `polls(k)` is what isInterrupted() answers after the k-th lookup.
- afterLastDocument does nothing in the code, so it has no counterpart. There is no reference counting or release.
