/**
 * The sharedData slot that the duplicates of one MapdbLookup resource share,
 * what beforeFirstDocument does to it (MapdbLookup.java:236-256), and when
 * cleanup closes the DB (MapdbLookup.java:267-269). Each synchronized block is
 * one atomic step. There is no reference count: afterLastDocument does nothing.
 */
module Sharing {
  import opened Base
  import opened MapDb
  import opened Params

  /** The slot as a value: whether "db" holds a DB, what "map" holds, and how
      many DBs have been opened into it. */
  datatype Slot = Slot(hasDb: bool, sharedMap: Option<Store>, opens: nat)

  const EmptySlot := Slot(false, None, 0)

  /** The slot after one beforeFirstDocument, the calling instance's map, and
      how the call ended. */
  datatype Start = Start(slot: Slot, instanceMap: Option<Store>, outcome: Outcome)

  /** One beforeFirstDocument on the slot `s`, for an instance holding
      `instanceMap`; `named` is what opening the configured map in the file
      gives. The first caller to find no DB opens one and installs it before it
      opens the map; later callers take both from the slot. */
  function BeforeFirst(s: Slot, instanceMap: Option<Store>, named: Option<Store>): (t: Start)
    ensures t.slot.hasDb
    ensures t.slot.opens == if s.hasDb then s.opens else s.opens + 1
    ensures s.hasDb ==> t.slot == s && t.instanceMap == s.sharedMap && t.outcome == Pass
    ensures !s.hasDb ==> (t.outcome == Pass <==> named.Some?)
    ensures t.outcome == Pass ==> t.instanceMap == t.slot.sharedMap
    ensures !s.hasDb && named.Some? ==> t.slot.sharedMap == named
    ensures t.outcome.Fail? ==> t.outcome.error == MapMissing && t.slot.sharedMap == s.sharedMap && t.instanceMap == instanceMap
  {
    if s.hasDb then Start(s, s.sharedMap, Pass)
    else match named
      case Some(m) => Start(Slot(true, Some(m), s.opens + 1), Some(m), Pass)
      case None => Start(Slot(true, s.sharedMap, s.opens + 1), instanceMap, Fail(MapMissing))
  }

  /** The slot after `n` duplicates, each holding no map yet, have run
      beforeFirstDocument one after the other. */
  function AfterStarts(s: Slot, named: Option<Store>, n: nat): Slot {
    if n == 0 then s else BeforeFirst(AfterStarts(s, named, n - 1), None, named).slot
  }

  /** Once the slot holds a DB, further beforeFirstDocument calls leave it as it is. */
  lemma {:induction false} StartsKeepFilledSlot(s: Slot, named: Option<Store>, n: nat)
    requires s.hasDb
    ensures AfterStarts(s, named, n) == s
  {
    if n > 0 { StartsKeepFilledSlot(s, named, n - 1); }
  }

  /** However many duplicates run beforeFirstDocument on one slot, the DB is
      opened once (none if there is no call), and the slot keeps what the first
      call installed: the named map, or no map if opening it failed. */
  lemma OpenedAtMostOnce(named: Option<Store>, n: nat)
    ensures AfterStarts(EmptySlot, named, n).opens == if n == 0 then 0 else 1
    ensures n > 0 ==> AfterStarts(EmptySlot, named, n) == Slot(true, named, 1)
  {
    if n > 0 {
      var first := AfterStarts(EmptySlot, named, 1);
      assert AfterStarts(EmptySlot, named, 0) == EmptySlot;
      assert first == Slot(true, named, 1);
      StartsKeepFilledSlot(first, named, n - 1);
      AfterStartsSplit(EmptySlot, named, 1, n - 1);
    }
  }

  /** Running m and then k more calls is running m + k calls. */
  lemma {:induction false} AfterStartsSplit(s: Slot, named: Option<Store>, m: nat, k: nat)
    ensures AfterStarts(AfterStarts(s, named, m), named, k) == AfterStarts(s, named, m + k)
  {
    if k > 0 { AfterStartsSplit(s, named, m, k - 1); }
  }

  /** Every duplicate that starts after the first ends normally with the
      first's map: the same map when it opened, none when opening it failed. */
  lemma LaterStartsReuse(named: Option<Store>, n: nat, instanceMap: Option<Store>)
    requires n > 0
    ensures var s := AfterStarts(EmptySlot, named, n);
      BeforeFirst(s, instanceMap, named) == Start(s, named, Pass)
  {
    OpenedAtMostOnce(named, n);
  }

  /** Whether cleanup closes the DB: only duplicate 0, only with a DB, only if
      it is not closed yet. */
  predicate CleanupCloses(duplicateId: nat, hasDb: bool, closed: bool) {
    duplicateId == 0 && hasDb && !closed
  }

  /** How many times the shared DB is closed when the duplicates `dups` call
      cleanup one after the other, starting from `closed`. */
  function Closes(dups: seq<nat>, closed: bool): nat {
    if dups == [] then 0
    else
      var c := CleanupCloses(dups[0], true, closed);
      (if c then 1 else 0) + Closes(dups[1..], closed || c)
  }

  /** A closed DB is never closed again. */
  lemma {:induction false} ClosedStaysClosed(dups: seq<nat>)
    ensures Closes(dups, true) == 0
  {
    if dups != [] { ClosedStaysClosed(dups[1..]); }
  }

  /** Cleanups by duplicates other than 0 never close the DB, whatever state
      it is in. */
  lemma {:induction false} NonOpenersNeverClose(dups: seq<nat>, closed: bool)
    requires forall i :: 0 <= i < |dups| ==> dups[i] != 0
    ensures Closes(dups, closed) == 0
  {
    if dups != [] {
      NonOpenersNeverClose(dups[1..], closed);
    }
  }

  /** Any sequence of cleanups closes an open DB once if duplicate 0 is among
      the callers, and never otherwise, however often each one is called. */
  lemma {:induction false} CleanupsCloseOnce(dups: seq<nat>)
    ensures Closes(dups, false) == if 0 in dups then 1 else 0
  {
    if dups != [] {
      if dups[0] == 0 {
        ClosedStaysClosed(dups[1..]);
      } else {
        CleanupsCloseOnce(dups[1..]);
        assert 0 in dups <==> 0 in dups[1..];
      }
    }
  }

  /** sharedData of one resource, shared by its duplicates: the "db" and "map"
      entries, and the number of DBs opened into it. */
  class SharedData {
    var db: Db?
    var hmap: Option<Store>
    ghost var opens: nat

    /** A DB was opened exactly when the slot holds one; a map only comes with a DB. */
    ghost predicate Valid()
      reads this
    {
      && opens == (if db != null then 1 else 0)
      && (hmap.Some? ==> db != null)
    }

    ghost function View(): Slot
      reads this
    {
      Slot(db != null, hmap, opens)
    }

    constructor ()
      ensures Valid() && View() == EmptySlot
    {
      db := null;
      hmap := None;
      opens := 0;
    }
  }
}
