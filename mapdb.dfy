/**
 * The part of MapDB that the lookup stage uses: a read-only file of named hash
 * maps, opened as a DB that can be closed.
 */
module MapDb {
  import opened Base
  import opened Gate

  /** A read-only HTreeMap<String, Object>. */
  type Store = map<string, Value>

  /** The content of a MapDB file: its named maps. */
  type DbFile = map<string, Store>

  /** An HTreeMap never stores null as a value. */
  ghost predicate ValidStore(st: Store) {
    forall k :: k in st ==> st[k] != Null
  }

  /** HTreeMap.get: a missing key gives null. */
  function StoreGet(st: Store, key: string): (r: Value)
    ensures key in st ==> r == st[key]
    ensures ValidStore(st) ==> (r == Null <==> key !in st)
  {
    if key in st then st[key] else Null
  }

  /** db.hashMap(name).open(): the named map, or None when the file has no map of that name. */
  function OpenHashMap(file: DbFile, name: string): (r: Option<Store>)
    ensures r.Some? <==> name in file
    ensures r.Some? ==> r.value == file[name]
  {
    if name in file then Some(file[name]) else None
  }

  /** An open MapDB DB. `closes` counts the calls of close(). */
  class Db {
    const file: DbFile
    const mmap: bool
    var closed: bool
    ghost var closes: nat

    /** Closed exactly when close() has been called once. */
    ghost predicate Valid()
      reads this
    {
      closes == if closed then 1 else 0
    }

    /** DBMaker.fileDB(file)[.fileMmapEnable()].readOnly().make() */
    constructor Make(file: DbFile, mmap: bool)
      ensures Valid() && !closed && closes == 0
      ensures this.file == file && this.mmap == mmap
    {
      this.file := file;
      this.mmap := mmap;
      closed := false;
      closes := 0;
    }

    /** db.close(), on an open DB; a DB is never closed twice. */
    method Close()
      requires Valid() && !closed
      modifies this
      ensures Valid() && closed && closes == old(closes) + 1
    {
      closed := true;
      closes := closes + 1;
    }
  }
}
