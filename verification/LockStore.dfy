/**
 * FileLockStore for one endpoint: one lock file, and a cache whose indexed set Create and Unlock mutate in place
 * before they write. The JSON codec and case folding are parameters; every I/O failure is a parameter too.
 */
module LockStores {
  import opened ByteText
  import opened Locks
  import opened LockSets

  datatype Codec = Codec(marshal: seq<Lock> -> Option<Text>, parse: Text -> Option<seq<Lock>>)

  /** Parsing what was marshalled gives it back. */
  ghost predicate CodecLaw(c: Codec) {
    forall s: seq<Lock> {:trigger c.marshal(s)} :: c.marshal(s).Some? ==> c.parse(c.marshal(s).value) == Some(s)
  }

  /** What os.SameFile, ModTime and Size compare. */
  datatype Info = Info(identity: nat, modTime: int, size: nat)

  class LockFile {
    var contents: Option<Text>
    var info: Info
  }

  /** The sorted locks a lock file stands for: none when absent, no answer when it does not parse. */
  function FileLocks(c: Codec, contents: Option<Text>): (s: Option<seq<Lock>>) {
    match contents
    case None => Some([])
    case Some(data) => match c.parse(data) case None => None case Some(s) => Some(Sort(s))
  }

  /** No lock in the file has this ID: what a new UUID is taken to be. */
  ghost predicate Unused(c: Codec, contents: Option<Text>, id: Text) {
    FileLocks(c, contents).Some? ==> forall l :: l in FileLocks(c, contents).value ==> l.id != id
  }

  ghost predicate WellKept(c: Codec, contents: Option<Text>) {
    contents.Some? && c.parse(contents.value).Some? ==> Unique(c.parse(contents.value).value)
  }

  /**
   * Where a call fails: taking the lock, List's first stat, the stat and read under the lock, the temp-file write or
   * rename, or the stat after it.
   */
  datatype Faults = Faults(acquire: bool, glance: bool, stat: bool, read: bool, write: bool, restat: bool)

  datatype Cached = Cached(locks: LockSet, data: Text, info: Info)

  datatype CreateOutcome = Created(lock: Lock) | Exists(lock: Lock) | CreateFailed

  datatype UnlockOutcome = Unlocked(lock: Lock) | NotFound | NotOwner | UnlockFailed

  ghost predicate Holds(s: seq<Lock>, l: Lock) {
    l in s
  }

  /** The call never got as far as the locks in the file. */
  ghost predicate Unreadable(c: Codec, contents: Option<Text>, faults: Faults) {
    faults.acquire || faults.stat || (contents.Some? && (faults.read || c.parse(contents.value).None?))
  }

  class FileLockStore {
    const codec: Codec
    const fold: Text -> Text
    var cache: Option<Cached>

    constructor (codec: Codec, fold: Text -> Text)
      ensures Valid() && cache == None && this.codec == codec && this.fold == fold
    {
      this.codec, this.fold, cache := codec, fold, None;
    }

    ghost function Footprint(): set<object>
      reads this, if cache.Some? then {cache.value.locks} else {}
    {
      {this} + if cache.Some? then {cache.value.locks, cache.value.locks.slots} else {}
    }

    /** The cache entry is gone, or its set is exactly the sorted, indexed parse of its stored bytes. */
    ghost predicate Valid()
      reads this, if cache.Some? then {cache.value.locks, cache.value.locks.slots} else {}
    {
      cache.Some? ==> Faithful(codec, cache.value)
    }

    method ReadLocks(file: LockFile, faults: Faults) returns (locks: LockSet?)
      requires Valid() && WellKept(codec, file.contents)
      modifies this
      ensures Valid() && fresh(Footprint() - old(Footprint()))
      ensures locks == null <==>
                faults.stat || (file.contents.Some? && (faults.read || codec.parse(file.contents.value).None?))
      ensures locks != null ==>
                && locks.Valid() && FileLocks(codec, file.contents) == Some(locks.Contents())
                && (cache.Some? ==> cache.value.locks == locks)
                && (locks in old(Footprint()) || fresh(locks))
                && (locks.slots in old(Footprint()) || fresh(locks.slots))
    {
      if faults.stat {
        return null;
      }
      if file.contents.None? {
        cache := None;
        locks := new LockSet([]);
        return;
      }
      if faults.read {
        return null;
      }
      var data := file.contents.value;
      if cache.Some? && cache.value.data == data {
        locks := cache.value.locks;
        cache := Some(Cached(locks, data, file.info));
        return;
      }
      var parsed := codec.parse(data);
      if parsed.None? {
        return null;
      }
      locks := new LockSet(parsed.value);
      cache := Some(Cached(locks, data, file.info));
    }

    /** Writes the set the caller changed in place, and caches it or drops the cache. */
    method SaveLocks(file: LockFile, locks: LockSet, faults: Faults, newInfo: Info) returns (ok: bool)
      requires CodecLaw(codec) && locks.Valid()
      requires cache.Some? ==> cache.value.locks == locks
      modifies this, file
      ensures Valid() && Footprint() <= {this, locks, locks.slots}
      ensures ok <==> codec.marshal(locks.Contents()).Some? && !faults.write
      ensures ok ==> file.contents == codec.marshal(locks.Contents()) && file.info == newInfo
      ensures ok ==> FileLocks(codec, file.contents) == Some(locks.Contents()) && WellKept(codec, file.contents)
      ensures !ok ==> file.contents == old(file.contents) && file.info == old(file.info) && cache == None
    {
      var data := codec.marshal(locks.slots[..locks.n]);
      if data.None? {
        cache := None;
        return false;
      }
      if faults.write {
        cache := None;
        return false;
      }
      file.contents, file.info := data, newInfo;
      SortIsIdempotent(locks.Contents());
      cache := if faults.restat then None else Some(Cached(locks, data.value, newInfo));
      return true;
    }

    method Create(path: Text, owner: Text, id: Text, now: Text, file: LockFile, faults: Faults, newInfo: Info)
      returns (r: CreateOutcome)
      requires Valid() && CodecLaw(codec) && WellKept(codec, file.contents) && Unused(codec, file.contents, id)
      modifies Footprint(), file
      ensures Valid() && fresh(Footprint() - old(Footprint())) && WellKept(codec, file.contents)
      ensures !r.Created? ==> file.contents == old(file.contents) && file.info == old(file.info)
      ensures Unreadable(codec, old(file.contents), faults) ==> r == CreateFailed
      ensures !Unreadable(codec, old(file.contents), faults) ==>
                && FileLocks(codec, old(file.contents)).Some?
                && CreateDecides(codec, FileLocks(codec, old(file.contents)).value, file.contents,
                                 Lock(id, path, now, owner), faults.write, r)
    {
      r := CreateFailed;
      if !faults.acquire {
        var locks := ReadLocks(file, faults);
        if locks != null {
          r := CreateIn(locks, Lock(id, path, now, owner), file, faults, newInfo);
        }
      }
    }

    /** Create once the locks are read: check the path, change the set in place, then write it. */
    method CreateIn(locks: LockSet, lock: Lock, file: LockFile, faults: Faults, newInfo: Info)
      returns (r: CreateOutcome)
      requires CodecLaw(codec) && locks.Valid() && Valid() && WellKept(codec, file.contents)
      requires cache.Some? ==> cache.value.locks == locks
      requires forall l :: l in locks.Contents() ==> l.id != lock.id
      modifies this, file, locks, locks.slots
      ensures Valid() && Footprint() <= {this, locks, locks.slots} && WellKept(codec, file.contents)
      ensures locks.slots == old(locks.slots) || fresh(locks.slots)
      ensures CreateDecides(codec, old(locks.Contents()), file.contents, lock, faults.write, r)
      ensures !r.Created? ==> file.contents == old(file.contents) && file.info == old(file.info)
    {
      var existing := locks.FindPath(lock.path);
      if existing.Some? {
        r := Exists(existing.value);
      } else {
        locks.UnusedID(lock.id);
        locks.Add(lock);
        var ok := SaveLocks(file, locks, faults, newInfo);
        r := if ok then Created(lock) else CreateFailed;
      }
    }

    method Unlock(id: Text, requester: Text, force: bool, file: LockFile, faults: Faults, newInfo: Info)
      returns (r: UnlockOutcome)
      requires Valid() && CodecLaw(codec) && WellKept(codec, file.contents)
      modifies Footprint(), file
      ensures Valid() && fresh(Footprint() - old(Footprint())) && WellKept(codec, file.contents)
      ensures !r.Unlocked? ==> file.contents == old(file.contents) && file.info == old(file.info)
      ensures Unreadable(codec, old(file.contents), faults) ==> r == UnlockFailed
      ensures !Unreadable(codec, old(file.contents), faults) ==>
                && FileLocks(codec, old(file.contents)).Some?
                && UnlockDecides(codec, fold, FileLocks(codec, old(file.contents)).value, file.contents,
                                 id, requester, force, faults.write, r)
    {
      r := UnlockFailed;
      if !faults.acquire {
        var locks := ReadLocks(file, faults);
        if locks != null {
          r := UnlockIn(locks, id, requester, force, file, faults, newInfo);
        }
      }
    }

    /** Unlock once the locks are read. */
    method UnlockIn(locks: LockSet, id: Text, requester: Text, force: bool, file: LockFile, faults: Faults,
                    newInfo: Info)
      returns (r: UnlockOutcome)
      requires CodecLaw(codec) && locks.Valid() && Valid() && WellKept(codec, file.contents)
      requires cache.Some? ==> cache.value.locks == locks
      modifies this, file, locks, locks.slots
      ensures Valid() && Footprint() <= {this, locks, locks.slots} && WellKept(codec, file.contents)
      ensures locks.slots == old(locks.slots)
      ensures UnlockDecides(codec, fold, old(locks.Contents()), file.contents, id, requester, force, faults.write, r)
      ensures !r.Unlocked? ==> file.contents == old(file.contents) && file.info == old(file.info)
    {
      var held := locks.FindID(id);
      if held.None? {
        r := NotFound;
      } else {
        var lock := held.value;
        assert Holds(locks.Contents(), lock);
        if !force && fold(lock.owner) != fold(requester) {
          r := NotOwner;
        } else {
          var ok := RemoveAndSave(lock, locks, file, faults, newInfo);
          r := if ok then Unlocked(lock) else UnlockFailed;
        }
      }
    }

    /** The tail of Unlock: change the set in place, then write it. */
    method RemoveAndSave(lock: Lock, locks: LockSet, file: LockFile, faults: Faults, newInfo: Info) returns (ok: bool)
      requires CodecLaw(codec) && locks.Valid() && lock in locks.Contents()
      requires cache.Some? ==> cache.value.locks == locks
      modifies this, file, locks, locks.slots
      ensures Valid() && Footprint() <= {this, locks, locks.slots} && locks.slots == old(locks.slots)
      ensures ok <==> codec.marshal(Delete(old(locks.Contents()), lock)).Some? && !faults.write
      ensures ok ==> FileLocks(codec, file.contents) == Some(Delete(old(locks.Contents()), lock))
      ensures ok ==> WellKept(codec, file.contents)
      ensures !ok ==> file.contents == old(file.contents) && file.info == old(file.info)
    {
      locks.OnlyOneHasItsID(lock);
      locks.Remove(lock);
      ok := SaveLocks(file, locks, faults, newInfo);
    }

    /** If the file has the metadata that the cache recorded, it has the bytes too. */
    ghost predicate Honest(file: LockFile)
      reads this, file
    {
      cache.Some? && file.contents.Some? && cache.value.info == file.info ==> cache.value.data == file.contents.value
    }

    /** loadLocks: unchanged metadata answers from the cache without reading the file. */
    method LoadLocks(file: LockFile, faults: Faults) returns (locks: LockSet?)
      requires Valid() && WellKept(codec, file.contents)
      modifies this
      ensures Valid() && fresh(Footprint() - old(Footprint()))
      ensures !Unreadable(codec, file.contents, faults) ==> locks != null
      ensures locks != null ==> locks.Valid()
      ensures locks != null && old(Honest(file)) ==> FileLocks(codec, file.contents) == Some(locks.Contents())
      ensures locks != null && !old(Honest(file)) ==>
                || FileLocks(codec, file.contents) == Some(locks.Contents())
                || FileLocks(codec, Some(old(cache).value.data)) == Some(locks.Contents())
    {
      locks := null;
      if cache.Some? && !faults.glance && file.contents.Some? && cache.value.info == file.info {
        locks := cache.value.locks;
      } else if !faults.acquire {
        locks := ReadLocks(file, faults);
      }
    }

    /**
     * List: with honest metadata the reference listing of the file's locks, on a page of the caller's own; with any
     * metadata a page of the caller's own.
     */
    method List(opts: ListOptions, file: LockFile, faults: Faults)
      returns (loaded: bool, ok: bool, page: array<Lock>, next: Text)
      requires Valid() && WellKept(codec, file.contents)
      modifies this
      ensures Valid() && fresh(Footprint() - old(Footprint()))
      ensures fresh(page) && page !in Footprint()
      ensures !Unreadable(codec, file.contents, faults) ==> loaded
      ensures loaded && old(Honest(file)) ==>
                && FileLocks(codec, file.contents).Some?
                && (ok <==> Listing(FileLocks(codec, file.contents).value, opts).Some?)
                && (ok ==> Listing(FileLocks(codec, file.contents).value, opts) == Some(Page(page[..], next)))
                && (ok ==> IsPageOf(Elems(FileLocks(codec, file.contents).value), opts, page[..], next))
      ensures loaded ==> (ok <==> opts.cursor == [] || IsCursor(opts.cursor))
    {
      var locks := LoadLocks(file, faults);
      if locks == null {
        page := new Lock[0];
        return false, false, page, [];
      }
      loaded := true;
      ok, page, next := locks.List(opts);
    }
  }

  ghost predicate Faithful(c: Codec, entry: Cached)
    reads entry.locks, entry.locks.slots
  {
    && entry.locks.Valid()
    && c.parse(entry.data).Some?
    && Unique(c.parse(entry.data).value)
    && entry.locks.Contents() == Sort(c.parse(entry.data).value)
  }

  /** Create on a file holding s: the outcome and the file after it. */
  ghost predicate CreateDecides(c: Codec, s: seq<Lock>, after: Option<Text>, lock: Lock, writeFails: bool,
                                r: CreateOutcome) {
    match r
    case Exists(l) => Holds(s, l) && l.path == lock.path
    case Created(l) =>
      && l == lock && (forall x :: x in s ==> x.path != lock.path) && !writeFails
      && FileLocks(c, after) == Some(Insert(s, lock))
    case CreateFailed =>
      (forall x :: x in s ==> x.path != lock.path) && (writeFails || c.marshal(Insert(s, lock)).None?)
  }

  /** Unlock likewise: the lock leaves only when its folded owner asks or the unlock is forced. */
  ghost predicate UnlockDecides(c: Codec, fold: Text -> Text, s: seq<Lock>, after: Option<Text>, id: Text,
                                requester: Text, force: bool, writeFails: bool, r: UnlockOutcome) {
    match r
    case NotFound => forall x :: x in s ==> x.id != id
    case NotOwner => !force && exists x :: Holds(s, x) && x.id == id && fold(x.owner) != fold(requester)
    case Unlocked(l) =>
      && Holds(s, l) && l.id == id && (force || fold(l.owner) == fold(requester)) && !writeFails
      && FileLocks(c, after) == Some(Delete(s, l))
    case UnlockFailed =>
      exists x :: Holds(s, x) && x.id == id && (force || fold(x.owner) == fold(requester))
                  && (writeFails || c.marshal(Delete(s, x)).None?)
  }

  // ---- a page already returned ----

  /** A call of the store with everything that decides what it does. */
  datatype Call =
    | CreateCall(path: Text, owner: Text, id: Text, now: Text, faults: Faults, newInfo: Info)
    | UnlockCall(id: Text, requester: Text, force: bool, faults: Faults, newInfo: Info)
    | ListCall(opts: ListOptions, faults: Faults)

  /** Every Create gets a UUID of its own that no lock in the file has. */
  ghost predicate NewIds(c: Codec, contents: Option<Text>, calls: seq<Call>) {
    && (forall i :: 0 <= i < |calls| && calls[i].CreateCall? ==> Unused(c, contents, calls[i].id))
    && (forall i, j :: 0 <= i < j < |calls| && calls[i].CreateCall? && calls[j].CreateCall? ==>
          calls[i].id != calls[j].id)
  }

  /** Creating a lock uses its own ID only. */
  lemma CreateUses(c: Codec, s: seq<Lock>, after: Option<Text>, lock: Lock, writeFails: bool, r: CreateOutcome,
                   id: Text)
    requires CreateDecides(c, s, after, lock, writeFails, r) && r.Created?
    requires id != lock.id && forall l :: l in s ==> l.id != id
    ensures Unused(c, after, id)
  {
    InsertElems(s, lock);
    forall l | l in Insert(s, lock) ensures l.id != id {
      assert l in Elems(Insert(s, lock));
    }
  }

  /** Unlocking uses none. */
  lemma UnlockUses(c: Codec, fold: Text -> Text, s: seq<Lock>, after: Option<Text>, id: Text, requester: Text,
                   force: bool, writeFails: bool, r: UnlockOutcome, id': Text)
    requires UnlockDecides(c, fold, s, after, id, requester, force, writeFails, r) && r.Unlocked?
    requires forall l :: l in s ==> l.id != id'
    ensures Unused(c, after, id')
  {}

  /** One call, whatever it is: the store stays valid, its storage its own, and only a Create uses an ID. */
  method Perform(store: FileLockStore, file: LockFile, call: Call)
    requires store.Valid() && CodecLaw(store.codec) && WellKept(store.codec, file.contents)
    requires call.CreateCall? ==> Unused(store.codec, file.contents, call.id)
    modifies store.Footprint(), file
    ensures store.Valid() && WellKept(store.codec, file.contents)
    ensures fresh(store.Footprint() - old(store.Footprint()))
    ensures forall id :: old(Unused(store.codec, file.contents, id)) && (call.CreateCall? ==> id != call.id) ==>
              Unused(store.codec, file.contents, id)
  {
    ghost var before := file.contents;
    match call {
      case CreateCall(path, owner, id, now, faults, newInfo) =>
        var r := store.Create(path, owner, id, now, file, faults, newInfo);
        if r.Created? {
          forall id' | Unused(store.codec, before, id') && id' != id ensures Unused(store.codec, file.contents, id') {
            CreateUses(store.codec, FileLocks(store.codec, before).value, file.contents, Lock(id, path, now, owner),
                       faults.write, r, id');
          }
        }
      case UnlockCall(id, requester, force, faults, newInfo) =>
        var r := store.Unlock(id, requester, force, file, faults, newInfo);
        if r.Unlocked? {
          forall id' | Unused(store.codec, before, id') ensures Unused(store.codec, file.contents, id') {
            UnlockUses(store.codec, store.fold, FileLocks(store.codec, before).value, file.contents, id, requester,
                       force, faults.write, r, id');
          }
        }
      case ListCall(opts, faults) =>
        var _, _, _, _ := store.List(opts, file, faults);
    }
  }

  /**
   * A page already returned keeps its contents through any sequence of later calls of the store it came from, whatever
   * they are, wherever they fail and whatever metadata the file gets.
   */
  method PageSurvivesUpdates(store: FileLockStore, file: LockFile, opts: ListOptions, faults: Faults, calls: seq<Call>)
    returns (before: seq<Lock>, page: array<Lock>)
    requires store.Valid() && CodecLaw(store.codec) && WellKept(store.codec, file.contents)
    requires NewIds(store.codec, file.contents, calls)
    modifies store.Footprint(), file
    ensures page[..] == before && fresh(page) && store.Valid()
    ensures old(store.Honest(file)) && !Unreadable(store.codec, old(file.contents), faults) ==>
              && FileLocks(store.codec, old(file.contents)).Some?
              && var listing := Listing(FileLocks(store.codec, old(file.contents)).value, opts);
                 listing.Some? ==> before == listing.value.locks
  {
    var _, _, p, _ := store.List(opts, file, faults);
    page, before := p, p[..];
    for i := 0 to |calls|
      invariant store.Valid() && WellKept(store.codec, file.contents)
      invariant page[..] == before && fresh(page) && page !in store.Footprint()
      invariant fresh(store.Footprint() - old(store.Footprint()))
      invariant NewIds(store.codec, file.contents, calls[i..])
    {
      assert calls[i..][0] == calls[i];
      Perform(store, file, calls[i]);
      ghost var later := calls[i + 1..];
      forall k | 0 <= k < |later| && later[k].CreateCall? ensures Unused(store.codec, file.contents, later[k].id) {
        assert later[k] == calls[i..][k + 1];
      }
    }
  }
}
