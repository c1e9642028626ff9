/**
 * Any number of processes sharing one lock file: every Create, Unlock and List runs as a sequence of small steps
 * (mutex, file lock, stat, read, change in place, temp file, rename, stat, release) that interleave freely with the
 * others, may fail, and may be cut short by a crash of the whole process.
 */
module LockProtocol {
  import opened ByteText
  import opened Locks
  import opened LockCursor
  import opened LockSets
  import opened LockStores

  /** The JSON codec, strings.EqualFold's folding, and the process each worker (goroutine) runs in. */
  datatype Config = Config(codec: Codec, fold: Text -> Text, proc: nat -> nat)

  /** One state the lock file has had: its bytes and what stat reports for it. */
  datatype Version = Version(data: Text, info: Info)

  /** UnlockHandler forces an unlock when the client asked for it and is a maintainer. */
  datatype Op = CreateOp(path: Text, owner: Text) | UnlockOp(id: Text, requester: Text, asked: bool, maintainer: bool)
              | ListOp(opts: ListOptions)

  datatype Change = Added(lock: Lock) | Removed(lock: Lock, requester: Text, asked: bool, maintainer: bool)

  datatype Commit = Commit(call: nat, change: Change)

  /** A listing has no page when its cursor was bad. */
  datatype Outcome = Done(change: Change) | Conflict(existing: Lock) | Missing | Denied | Failed
                   | Listed(page: Option<Page>)

  datatype Entry = Entry(locks: seq<Lock>, data: Text, info: Info)

  datatype Pc =
    | Queued
    | HasMutex
    | Peeked(entry: Entry)
    | HasFile
    | Statted(info: Info)
    | Loaded(locks: seq<Lock>)
    | Changed(locks: seq<Lock>, change: Change)
    | Staged(locks: seq<Lock>, change: Change, data: Text)
    | Renamed(locks: seq<Lock>, change: Change, data: Text)
    | Leaving(outcome: Outcome)

  datatype Worker = Worker(call: nat, op: Op, pc: Pc, since: nat)

  /** A finished call: its outcome and the number of commits when it started and when it ended. */
  datatype Record = Record(outcome: Outcome, since: nat, until: nat)

  /** `issued` holds what every call asked for, by call number; `history` the commits in rename order. */
  datatype State = State(
    versions: seq<Version>,
    exclusive: Option<nat>,
    shared: set<nat>,
    writer: map<nat, nat>,
    caches: map<nat, Entry>,
    workers: map<nat, Worker>,
    usedIds: set<Text>,
    issued: seq<Op>,
    history: seq<Commit>,
    results: map<nat, Record>)

  ghost function Current(s: State): Option<Text> {
    CurrentOf(s.versions)
  }

  /** The sorted locks in the file right now. */
  ghost function Locked(c: Config, s: State): Option<seq<Lock>> {
    LockedIn(c, s.versions)
  }

  function Apply(s: seq<Lock>, change: Change): seq<Lock> {
    match change
    case Added(l) => Insert(s, l)
    case Removed(l, _, _, _) => Delete(s, l)
  }

  /** What a commit does to the abstract set of locks. */
  function ApplySet(s: set<Lock>, change: Change): set<Lock> {
    match change
    case Added(l) => s + {l}
    case Removed(l, _, _, _) => s - {l}
  }

  /** An addition takes an unused path and ID; a removal is by the lock's folded owner or forced. */
  ghost predicate Legal(c: Config, s: set<Lock>, change: Change) {
    match change
    case Added(l) => forall x :: x in s ==> x.path != l.path && x.id != l.id
    case Removed(l, requester, asked, maintainer) =>
      l in s && ((asked && maintainer) || c.fold(l.owner) == c.fold(requester))
  }

  ghost function Fold(initial: set<Lock>, history: seq<Commit>): set<Lock> {
    if history == [] then initial
    else ApplySet(Fold(initial, history[..|history| - 1]), history[|history| - 1].change)
  }

  // ---- steps ----

  function SetPc(s: State, w: nat, pc: Pc): State
    requires w in s.workers
  {
    s.(workers := s.workers[w := s.workers[w].(pc := pc)])
  }

  ghost predicate At(s: State, w: nat, pc: Pc) {
    w in s.workers && s.workers[w].pc == pc
  }

  ghost predicate Issue(c: Config, s: State, s': State, w: nat, op: Op) {
    && w !in s.workers
    && s' == s.(workers := s.workers[w := Worker(|s.issued|, op, Queued, |s.history|)], issued := s.issued + [op])
  }

  /** The context is done, or the mutex is never taken: the call fails before touching anything. */
  ghost predicate GiveUp(c: Config, s: State, s': State, w: nat) {
    && At(s, w, Queued)
    && s' == s.(workers := s.workers - {w}, results := s.results[s.workers[w].call := Finished(s, w, Failed)])
  }

  ghost function Finished(s: State, w: nat, outcome: Outcome): Record
    requires w in s.workers
  {
    Record(outcome, s.workers[w].since, |s.history|)
  }

  /** The endpoint's read-write mutex within one process: List shares it, Create and Unlock own it. */
  ghost predicate TakeMutex(c: Config, s: State, s': State, w: nat) {
    && At(s, w, Queued)
    && var p := c.proc(w);
       && p !in s.writer
       && if s.workers[w].op.ListOp? then s' == SetPc(s, w, HasMutex)
          else
            && (forall v :: v in s.workers && c.proc(v) == p ==> s.workers[v].pc.Queued?)
            && s' == SetPc(s, w, HasMutex).(writer := s.writer[p := w])
  }

  /** The file lock across processes: shared for List, exclusive for Create and Unlock. */
  ghost predicate TakeFile(c: Config, s: State, s': State, w: nat) {
    && w in s.workers && (s.workers[w].pc.HasMutex? || s.workers[w].pc.Peeked?)
    && s.exclusive.None?
    && if s.workers[w].op.ListOp? then s' == SetPc(s, w, HasFile).(shared := s.shared + {w})
       else s.shared == {} && s' == SetPc(s, w, HasFile).(exclusive := Some(w))
  }

  /** List loads the cache entry first; another lister may replace the entry before the stat. */
  ghost predicate Peek(c: Config, s: State, s': State, w: nat) {
    && At(s, w, HasMutex) && s.workers[w].op.ListOp? && c.proc(w) in s.caches
    && s' == SetPc(s, w, Peeked(s.caches[c.proc(w)]))
  }

  /** List answers from the entry it loaded when the file's metadata is what that entry recorded. */
  ghost predicate Hit(c: Config, s: State, s': State, w: nat) {
    && w in s.workers && s.workers[w].pc.Peeked? && s.workers[w].op.ListOp?
    && var e := s.workers[w].pc.entry;
       && s.versions != [] && e.info == s.versions[|s.versions| - 1].info
       && s' == SetPc(s, w, Leaving(Listed(Listing(e.locks, s.workers[w].op.opts))))
  }

  ghost predicate Stat(c: Config, s: State, s': State, w: nat) {
    && At(s, w, HasFile)
    && s' == if s.versions == [] then SetPc(s, w, Loaded([])).(caches := s.caches - {c.proc(w)})
             else SetPc(s, w, Statted(s.versions[|s.versions| - 1].info))
  }

  ghost predicate Read(c: Config, s: State, s': State, w: nat) {
    && w in s.workers && s.workers[w].pc.Statted? && s.versions != []
    && var p, info, data := c.proc(w), s.workers[w].pc.info, s.versions[|s.versions| - 1].data;
       if p in s.caches && s.caches[p].data == data then
         s' == SetPc(s, w, Loaded(s.caches[p].locks)).(caches := s.caches[p := s.caches[p].(info := info)])
       else
         && c.codec.parse(data).Some?
         && var locks := Sort(c.codec.parse(data).value);
            s' == SetPc(s, w, Loaded(locks)).(caches := s.caches[p := Entry(locks, data, info)])
  }

  /** The calls that end without a change: a listing, a path already locked, no such lock, not the owner. */
  ghost predicate Answer(c: Config, s: State, s': State, w: nat) {
    && w in s.workers && s.workers[w].pc.Loaded?
    && var locks := s.workers[w].pc.locks;
       match s.workers[w].op
       case ListOp(opts) => s' == SetPc(s, w, Leaving(Listed(Listing(locks, opts))))
       case CreateOp(path, _) =>
         exists l :: l in locks && l.path == path && s' == SetPc(s, w, Leaving(Conflict(l)))
       case UnlockOp(id, requester, asked, maintainer) =>
         || ((forall l :: l in locks ==> l.id != id) && s' == SetPc(s, w, Leaving(Missing)))
         || (!(asked && maintainer) && s' == SetPc(s, w, Leaving(Denied))
             && exists l :: l in locks && l.id == id && c.fold(l.owner) != c.fold(requester))
  }

  /** The change the call makes to the set it loaded, with a fresh ID for a new lock. */
  ghost predicate Decides(c: Config, s: State, w: nat, change: Change)
    requires w in s.workers && s.workers[w].pc.Loaded?
  {
    var locks := s.workers[w].pc.locks;
    match s.workers[w].op
    case ListOp(_) => false
    case CreateOp(path, owner) =>
      && change.Added? && change.lock.path == path && change.lock.owner == owner
      && IsStamped(change.lock) && change.lock.id !in s.usedIds
      && forall l :: l in locks ==> l.path != path
    case UnlockOp(id, requester, asked, maintainer) =>
      && change == Removed(change.lock, requester, asked, maintainer) && change.lock in locks && change.lock.id == id
      && ((asked && maintainer) || c.fold(change.lock.owner) == c.fold(requester))
  }

  /** The loaded set is changed in place, and with it the cached set when there is one: they are the same object. */
  ghost predicate ChangeSet(c: Config, s: State, s': State, w: nat, change: Change) {
    && w in s.workers && s.workers[w].pc.Loaded? && Decides(c, s, w, change)
    && var p, locks := c.proc(w), Apply(s.workers[w].pc.locks, change);
       s' == SetPc(s, w, Changed(locks, change)).(
         usedIds := s.usedIds + {change.lock.id},
         caches := if p in s.caches then s.caches[p := s.caches[p].(locks := locks)] else s.caches)
  }

  ghost predicate Stage(c: Config, s: State, s': State, w: nat) {
    && w in s.workers && s.workers[w].pc.Changed?
    && var pc := s.workers[w].pc;
       && c.codec.marshal(pc.locks).Some?
       && s' == SetPc(s, w, Staged(pc.locks, pc.change, c.codec.marshal(pc.locks).value))
  }

  /** The commit point. The new version's metadata may be anything, even that of an earlier version. */
  ghost predicate Rename(c: Config, s: State, s': State, w: nat, info: Info) {
    && w in s.workers && s.workers[w].pc.Staged?
    && var pc := s.workers[w].pc;
       s' == SetPc(s, w, Renamed(pc.locks, pc.change, pc.data)).(
            versions := s.versions + [Version(pc.data, info)],
            history := s.history + [Commit(s.workers[w].call, pc.change)])
  }

  ghost predicate Restat(c: Config, s: State, s': State, w: nat, ok: bool) {
    && w in s.workers && s.workers[w].pc.Renamed? && s.versions != []
    && var p, pc := c.proc(w), s.workers[w].pc;
       s' == SetPc(s, w, Leaving(Done(pc.change))).(
         caches := if ok then s.caches[p := Entry(pc.locks, pc.data, s.versions[|s.versions| - 1].info)]
                   else s.caches - {p})
  }

  /** Any error before the rename. Once the set has been changed in place, the cache is dropped. */
  ghost predicate Fail(c: Config, s: State, s': State, w: nat) {
    && w in s.workers
    && var pc := s.workers[w].pc;
       if pc.Changed? || pc.Staged? then s' == SetPc(s, w, Leaving(Failed)).(caches := s.caches - {c.proc(w)})
       else (pc.HasMutex? || pc.Peeked? || pc.HasFile? || pc.Statted?) && s' == SetPc(s, w, Leaving(Failed))
  }

  ghost predicate Release(c: Config, s: State, s': State, w: nat) {
    && w in s.workers && s.workers[w].pc.Leaving?
    && s' == s.(workers := s.workers - {w},
                exclusive := if s.exclusive == Some(w) then None else s.exclusive,
                shared := s.shared - {w},
                writer := if s.workers[w].op.ListOp? then s.writer else s.writer - {c.proc(w)},
                results := s.results[s.workers[w].call := Finished(s, w, s.workers[w].pc.outcome)])
  }

  /** A process dies: its workers, cache and locks go with it; the lock file stays as it is. */
  ghost predicate Crash(c: Config, s: State, s': State, p: nat) {
    && s' == s.(workers := (map w | w in s.workers && c.proc(w) != p :: s.workers[w]),
                exclusive := if s.exclusive.Some? && c.proc(s.exclusive.value) == p then None else s.exclusive,
                shared := (set w | w in s.shared && c.proc(w) != p),
                writer := s.writer - {p},
                caches := s.caches - {p})
  }

  datatype Step = IssueStep(op: Op) | GiveUpStep | TakeMutexStep | TakeFileStep | PeekStep | HitStep | StatStep
                | ReadStep | AnswerStep | ChangeStep(change: Change) | StageStep | RenameStep(info: Info)
                | RestatStep(ok: bool)
                | FailStep | ReleaseStep | CrashStep

  /** One step of worker w (of process w for a crash). */
  ghost predicate Next(c: Config, s: State, s': State, w: nat, step: Step) {
    match step
    case IssueStep(op) => Issue(c, s, s', w, op)
    case GiveUpStep => GiveUp(c, s, s', w)
    case TakeMutexStep => TakeMutex(c, s, s', w)
    case TakeFileStep => TakeFile(c, s, s', w)
    case PeekStep => Peek(c, s, s', w)
    case HitStep => Hit(c, s, s', w)
    case StatStep => Stat(c, s, s', w)
    case ReadStep => Read(c, s, s', w)
    case AnswerStep => Answer(c, s, s', w)
    case ChangeStep(change) => ChangeSet(c, s, s', w, change)
    case StageStep => Stage(c, s, s', w)
    case RenameStep(info) => Rename(c, s, s', w, info)
    case RestatStep(ok) => Restat(c, s, s', w, ok)
    case FailStep => Fail(c, s, s', w)
    case ReleaseStep => Release(c, s, s', w)
    case CrashStep => Crash(c, s, s', w)
  }

  /** The file is absent, or parses into locks with unique IDs and paths; nobody is running yet. */
  ghost predicate Init(c: Config, s: State) {
    && CodecLaw(c.codec)
    && |s.versions| <= 1 && Locked(c, s).Some? && WellKept(c.codec, Current(s))
    && s.exclusive == None && s.shared == {} && s.writer == map[] && s.caches == map[] && s.workers == map[]
    && s.history == [] && s.results == map[] && s.issued == []
    && (forall l :: l in Locked(c, s).value ==> l.id in s.usedIds)
  }

  // ---- the invariant, each part over just the components it speaks of ----

  predicate InFile(pc: Pc) {
    pc.HasFile? || pc.Statted? || pc.Loaded? || pc.Changed? || pc.Staged? || pc.Renamed?
  }

  predicate Dirty(pc: Pc) {
    pc.Changed? || pc.Staged? || pc.Renamed?
  }

  /** The file lock admits one writer or several readers. */
  ghost predicate FileLockInv(exclusive: Option<nat>, shared: set<nat>, workers: map<nat, Worker>) {
    && (exclusive.Some? ==>
          && shared == {} && exclusive.value in workers && !workers[exclusive.value].op.ListOp?
          && (InFile(workers[exclusive.value].pc) || workers[exclusive.value].pc.Leaving?))
    && (forall w :: w in shared ==>
          w in workers && workers[w].op.ListOp? && (InFile(workers[w].pc) || workers[w].pc.Leaving?))
    && (forall w :: w in workers && InFile(workers[w].pc) ==>
          if workers[w].op.ListOp? then w in shared else exclusive == Some(w))
  }

  /** The mutex admits, in each process, one writer or several readers. */
  ghost predicate MutexInv(c: Config, writer: map<nat, nat>, workers: map<nat, Worker>) {
    && (forall p :: p in writer ==>
          writer[p] in workers && c.proc(writer[p]) == p && !workers[writer[p]].op.ListOp?
          && !workers[writer[p]].pc.Queued?)
    && (forall w :: w in workers && !workers[w].pc.Queued? ==>
          if workers[w].op.ListOp? then c.proc(w) !in writer else c.proc(w) in writer && writer[c.proc(w)] == w)
  }

  ghost predicate DirtyAt(writer: map<nat, nat>, workers: map<nat, Worker>, p: nat) {
    p in writer && writer[p] in workers && Dirty(workers[writer[p]].pc)
  }

  ghost predicate Faithful(c: Config, e: Entry) {
    c.codec.parse(e.data).Some? && e.locks == Sort(c.codec.parse(e.data).value)
  }

  /** A cache names a version the file has had; its set is that version's, unless its writer is mid-change. */
  ghost predicate CacheInv(c: Config, s: State) {
    && (forall p :: p in s.caches ==> Version(s.caches[p].data, s.caches[p].info) in s.versions)
    && (forall p :: p in s.caches ==> DirtyAt(s.writer, s.workers, p) || Faithful(c, s.caches[p]))
  }

  ghost function CurrentOf(versions: seq<Version>): Option<Text> {
    if versions == [] then None else Some(versions[|versions| - 1].data)
  }

  ghost function LockedIn(c: Config, versions: seq<Version>): Option<seq<Lock>> {
    FileLocks(c.codec, CurrentOf(versions))
  }

  /** What a worker holding the file lock knows of the file, and that it does what its call asked for. */
  ghost predicate KnowsFile(c: Config, versions: seq<Version>, usedIds: set<Text>, op: Op, pc: Pc) {
    match pc
    case Peeked(entry) => Version(entry.data, entry.info) in versions && Faithful(c, entry)
    case Statted(info) => versions != [] && versions[|versions| - 1].info == info
    case Loaded(locks) => LockedIn(c, versions) == Some(locks)
    case Changed(locks, change) => Matches(op, change) && Pending(c, versions, usedIds, locks, change)
    case Staged(locks, change, data) =>
      && Matches(op, change) && Pending(c, versions, usedIds, locks, change)
      && c.codec.marshal(locks) == Some(data)
    case Renamed(locks, change, data) =>
      && Matches(op, change) && LockedIn(c, versions) == Some(locks) && CurrentOf(versions) == Some(data)
      && c.codec.parse(data) == Some(locks) && Sort(locks) == locks
    case _ => true
  }

  /** The change is the one the call asked for. */
  ghost predicate Matches(op: Op, change: Change) {
    match op
    case ListOp(_) => false
    case CreateOp(path, owner) =>
      change.Added? && change.lock.path == path && change.lock.owner == owner && IsStamped(change.lock)
    case UnlockOp(id, requester, asked, maintainer) =>
      change == Removed(change.lock, requester, asked, maintainer) && change.lock.id == id
  }

  ghost predicate Pending(c: Config, versions: seq<Version>, usedIds: set<Text>, locks: seq<Lock>, change: Change) {
    && LockedIn(c, versions).Some? && locks == Apply(LockedIn(c, versions).value, change)
    && Legal(c, Elems(LockedIn(c, versions).value), change)
    && change.lock.id in usedIds
  }

  /** A loaded set is the cached one, so that changing it in place changes the cache too. */
  ghost predicate SharesCache(c: Config, s: State) {
    forall w :: w in s.workers && s.workers[w].pc.Loaded? && c.proc(w) in s.caches && !s.workers[w].op.ListOp? ==>
      s.caches[c.proc(w)].locks == s.workers[w].pc.locks
  }

  ghost predicate WorkersInv(c: Config, s: State) {
    forall w :: w in s.workers ==> KnowsFile(c, s.versions, s.usedIds, s.workers[w].op, s.workers[w].pc)
  }

  /** The file is the fold of the commits, each legal where it was made. */
  ghost predicate FileInv(c: Config, init: set<Lock>, versions: seq<Version>, history: seq<Commit>,
                          usedIds: set<Text>) {
    && CodecLaw(c.codec)
    && LockedIn(c, versions).Some?
    && StrictlySorted(LockedIn(c, versions).value) && Unique(LockedIn(c, versions).value)
    && Elems(LockedIn(c, versions).value) == Fold(init, history)
    && (forall l :: l in LockedIn(c, versions).value ==> l.id in usedIds)
    && (forall i :: 0 <= i < |history| ==> LegalAt(c, init, history, i))
    && VersionsInv(c, init, versions, history)
  }

  /** The version holds the locks that the first `at` commits made. */
  ghost predicate IsFold(c: Config, init: set<Lock>, v: Version, history: seq<Commit>, at: int) {
    && 0 <= at <= |history| && FileLocks(c.codec, Some(v.data)).Some?
    && StrictlySorted(FileLocks(c.codec, Some(v.data)).value)
    && Elems(FileLocks(c.codec, Some(v.data)).value) == Fold(init, history[..at])
  }

  /** Every version the file has had is the fold of a prefix of the history, one commit per version after the first. */
  ghost predicate VersionsInv(c: Config, init: set<Lock>, versions: seq<Version>, history: seq<Commit>) {
    forall i :: 0 <= i < |versions| ==> IsFold(c, init, versions[i], history, i + 1 + |history| - |versions|)
  }

  /** Equal metadata means equal bytes, in every pair of versions the file has had. */
  ghost predicate InfoInv(versions: seq<Version>) {
    forall v, v' :: v in versions && v' in versions && v.info == v'.info ==> v.data == v'.data
  }

  ghost predicate LegalAt(c: Config, init: set<Lock>, history: seq<Commit>, i: nat)
    requires i < |history|
  {
    Legal(c, Fold(init, history[..i]), history[i].change)
  }

  ghost predicate Inv(c: Config, init: set<Lock>, s: State) {
    && FileLockInv(s.exclusive, s.shared, s.workers)
    && MutexInv(c, s.writer, s.workers)
    && CacheInv(c, s)
    && SharesCache(c, s)
    && WorkersInv(c, s)
    && FileInv(c, init, s.versions, s.history, s.usedIds)
  }

  /** Most steps move one worker on under the locks it already holds. */
  predicate MovesOn(s: State, s': State, w: nat) {
    && w in s.workers && w in s'.workers
    && s'.workers == s.workers[w := s.workers[w].(pc := s'.workers[w].pc)]
    && s'.exclusive == s.exclusive && s'.shared == s.shared && s'.writer == s.writer
    && !s.workers[w].pc.Queued?
    && (|| s'.workers[w].pc.Leaving?
        || (InFile(s.workers[w].pc) && InFile(s'.workers[w].pc))
        || (s.workers[w].pc.HasMutex? && s'.workers[w].pc.Peeked? && s.workers[w].op.ListOp?))
  }

  predicate UsesLocksOnly(step: Step) {
    step.IssueStep? || step.GiveUpStep? || step.TakeMutexStep? || step.TakeFileStep? || step.ReleaseStep?
    || step.CrashStep?
  }

  lemma LockStepKeepsFile(c: Config, s: State, s': State, w: nat, step: Step)
    requires Next(c, s, s', w, step) && UsesLocksOnly(step)
    ensures s'.versions == s.versions && s'.history == s.history && s'.usedIds == s.usedIds
    ensures !step.CrashStep? ==> s'.caches == s.caches
  {}

  lemma MoveKeepsLocks(c: Config, s: State, s': State, w: nat)
    requires MovesOn(s, s', w)
    requires FileLockInv(s.exclusive, s.shared, s.workers) && MutexInv(c, s.writer, s.workers)
    ensures FileLockInv(s'.exclusive, s'.shared, s'.workers) && MutexInv(c, s'.writer, s'.workers)
  {}

  lemma IssueKeepsLocks(c: Config, s: State, s': State, w: nat, op: Op)
    requires FileLockInv(s.exclusive, s.shared, s.workers) && MutexInv(c, s.writer, s.workers)
    requires Issue(c, s, s', w, op)
    ensures FileLockInv(s'.exclusive, s'.shared, s'.workers) && MutexInv(c, s'.writer, s'.workers)
  {}

  lemma GiveUpKeepsLocks(c: Config, s: State, s': State, w: nat)
    requires FileLockInv(s.exclusive, s.shared, s.workers) && MutexInv(c, s.writer, s.workers)
    requires GiveUp(c, s, s', w)
    ensures FileLockInv(s'.exclusive, s'.shared, s'.workers) && MutexInv(c, s'.writer, s'.workers)
  {}

  lemma TakeMutexKeepsFileLock(c: Config, s: State, s': State, w: nat)
    requires FileLockInv(s.exclusive, s.shared, s.workers) && TakeMutex(c, s, s', w)
    ensures FileLockInv(s'.exclusive, s'.shared, s'.workers)
  {}

  /** Taking the mutex as the first active worker of its process, or as one more reader. */
  lemma MutexTaken(c: Config, writer: map<nat, nat>, workers: map<nat, Worker>, w: nat)
    requires MutexInv(c, writer, workers) && w in workers && workers[w].pc.Queued? && c.proc(w) !in writer
    ensures workers[w].op.ListOp? ==> MutexInv(c, writer, workers[w := workers[w].(pc := HasMutex)])
    ensures !workers[w].op.ListOp? && (forall v :: v in workers && c.proc(v) == c.proc(w) ==> workers[v].pc.Queued?) ==>
              MutexInv(c, writer[c.proc(w) := w], workers[w := workers[w].(pc := HasMutex)])
  {}

  lemma TakeMutexKeepsMutex(c: Config, s: State, s': State, w: nat)
    requires MutexInv(c, s.writer, s.workers) && TakeMutex(c, s, s', w)
    ensures MutexInv(c, s'.writer, s'.workers)
  {
    MutexTaken(c, s.writer, s.workers, w);
  }

  lemma TakeFileKeepsFileLock(c: Config, s: State, s': State, w: nat)
    requires FileLockInv(s.exclusive, s.shared, s.workers) && TakeFile(c, s, s', w)
    ensures FileLockInv(s'.exclusive, s'.shared, s'.workers)
  {}

  lemma MutexHeldOn(c: Config, writer: map<nat, nat>, workers: map<nat, Worker>, w: nat, pc: Pc)
    requires MutexInv(c, writer, workers) && w in workers && !workers[w].pc.Queued? && !pc.Queued?
    ensures MutexInv(c, writer, workers[w := workers[w].(pc := pc)])
  {}

  lemma TakeFileKeepsMutex(c: Config, s: State, s': State, w: nat)
    requires MutexInv(c, s.writer, s.workers) && TakeFile(c, s, s', w)
    ensures MutexInv(c, s'.writer, s'.workers)
  {
    MutexHeldOn(c, s.writer, s.workers, w, HasFile);
  }

  lemma ReleaseKeepsLocks(c: Config, s: State, s': State, w: nat)
    requires FileLockInv(s.exclusive, s.shared, s.workers) && MutexInv(c, s.writer, s.workers)
    requires Release(c, s, s', w)
    ensures FileLockInv(s'.exclusive, s'.shared, s'.workers) && MutexInv(c, s'.writer, s'.workers)
  {}

  lemma CrashKeepsLocks(c: Config, s: State, s': State, w: nat)
    requires FileLockInv(s.exclusive, s.shared, s.workers) && MutexInv(c, s.writer, s.workers)
    requires Crash(c, s, s', w)
    ensures FileLockInv(s'.exclusive, s'.shared, s'.workers) && MutexInv(c, s'.writer, s'.workers)
  {}

  lemma LockStepKeepsWorkers(c: Config, s: State, s': State, w: nat, step: Step)
    requires WorkersInv(c, s) && Next(c, s, s', w, step) && UsesLocksOnly(step)
    ensures WorkersInv(c, s')
  {
    LockStepKeepsFile(c, s, s', w, step);
  }

  /** Steps that leave the caches alone keep them faithful while no dirty worker turns clean. */
  lemma CachesAfterLocking(c: Config, s: State, s': State)
    requires CacheInv(c, s) && SharesCache(c, s)
    requires s'.versions == s.versions && s'.caches == s.caches
    requires forall p :: DirtyAt(s.writer, s.workers, p) ==> DirtyAt(s'.writer, s'.workers, p)
    requires forall v :: v in s'.workers && s'.workers[v].pc.Loaded? ==> v in s.workers && s'.workers[v] == s.workers[v]
    ensures CacheInv(c, s') && SharesCache(c, s')
  {}

  lemma IssueKeepsCaches(c: Config, s: State, s': State, w: nat, op: Op)
    requires MutexInv(c, s.writer, s.workers) && CacheInv(c, s) && SharesCache(c, s) && Issue(c, s, s', w, op)
    ensures CacheInv(c, s') && SharesCache(c, s')
  {
    CachesAfterLocking(c, s, s');
  }

  lemma GiveUpKeepsCaches(c: Config, s: State, s': State, w: nat)
    requires MutexInv(c, s.writer, s.workers) && CacheInv(c, s) && SharesCache(c, s) && GiveUp(c, s, s', w)
    ensures CacheInv(c, s') && SharesCache(c, s')
  {
    CachesAfterLocking(c, s, s');
  }

  lemma TakeMutexKeepsCaches(c: Config, s: State, s': State, w: nat)
    requires MutexInv(c, s.writer, s.workers) && CacheInv(c, s) && SharesCache(c, s) && TakeMutex(c, s, s', w)
    ensures CacheInv(c, s') && SharesCache(c, s')
  {
    CachesAfterLocking(c, s, s');
  }

  lemma TakeFileKeepsCaches(c: Config, s: State, s': State, w: nat)
    requires MutexInv(c, s.writer, s.workers) && CacheInv(c, s) && SharesCache(c, s) && TakeFile(c, s, s', w)
    ensures CacheInv(c, s') && SharesCache(c, s')
  {
    CachesAfterLocking(c, s, s');
  }

  lemma ReleaseKeepsCaches(c: Config, s: State, s': State, w: nat)
    requires MutexInv(c, s.writer, s.workers) && CacheInv(c, s) && SharesCache(c, s) && Release(c, s, s', w)
    ensures CacheInv(c, s') && SharesCache(c, s')
  {
    CachesAfterLocking(c, s, s');
  }

  lemma CrashKeepsCaches(c: Config, s: State, s': State, p: nat)
    requires MutexInv(c, s.writer, s.workers) && CacheInv(c, s) && SharesCache(c, s) && Crash(c, s, s', p)
    ensures CacheInv(c, s') && SharesCache(c, s')
  {
    forall q | q in s'.caches
      ensures DirtyAt(s.writer, s.workers, q) ==> DirtyAt(s'.writer, s'.workers, q)
    {
      if DirtyAt(s.writer, s.workers, q) {
        assert s.writer[q] in s'.workers;
      }
    }
  }

  /** What a worker may do to the caches: touch only its own process's entry, and leave it faithful or itself dirty. */
  ghost predicate CacheMove(c: Config, s: State, s': State, w: nat) {
    && MovesOn(s, s', w)
    && var p, pc := c.proc(w), s'.workers[w].pc;
       && (forall v :: v in s.versions ==> v in s'.versions)
       && s'.caches - {p} == s.caches - {p}
       && (p in s'.caches ==>
             && Version(s'.caches[p].data, s'.caches[p].info) in s'.versions
             && ((Dirty(pc) && !s.workers[w].op.ListOp?) || Faithful(c, s'.caches[p]))
             && (pc.Loaded? ==> s'.caches[p].locks == pc.locks))
  }

  lemma MoveKeepsCaches(c: Config, s: State, s': State, w: nat)
    requires MutexInv(c, s.writer, s.workers) && CacheInv(c, s) && SharesCache(c, s)
    requires CacheMove(c, s, s', w)
    ensures CacheInv(c, s') && SharesCache(c, s')
  {
    var p := c.proc(w);
    forall q | q in s'.caches
      ensures Version(s'.caches[q].data, s'.caches[q].info) in s'.versions
      ensures DirtyAt(s'.writer, s'.workers, q) || Faithful(c, s'.caches[q])
    {
      if q != p {
        assert q in s'.caches - {p} && (s'.caches - {p})[q] == (s.caches - {p})[q];
        assert q in s.writer ==> s.writer[q] != w;
      }
    }
    forall v | v in s'.workers && s'.workers[v].pc.Loaded? && c.proc(v) in s'.caches && !s'.workers[v].op.ListOp?
      ensures s'.caches[c.proc(v)].locks == s'.workers[v].pc.locks
    {
      if v != w {
        assert c.proc(v) != p;
        assert c.proc(v) in s'.caches - {p} && (s'.caches - {p})[c.proc(v)] == (s.caches - {p})[c.proc(v)];
      }
    }
  }

  /** Moving one worker keeps what the others know: the file changes only under the exclusive lock. */
  lemma MoveKeepsWorkers(c: Config, s: State, s': State, w: nat)
    requires FileLockInv(s.exclusive, s.shared, s.workers) && WorkersInv(c, s) && MovesOn(s, s', w)
    requires s.usedIds <= s'.usedIds
    requires s'.versions == s.versions || (InFile(s.workers[w].pc) && !s.workers[w].op.ListOp?)
    requires forall v :: v in s.versions ==> v in s'.versions
    requires KnowsFile(c, s'.versions, s'.usedIds, s'.workers[w].op, s'.workers[w].pc)
    ensures WorkersInv(c, s')
  {
    forall v | v in s'.workers ensures KnowsFile(c, s'.versions, s'.usedIds, s'.workers[v].op, s'.workers[v].pc) {
      if v != w && s'.versions != s.versions {
        assert !InFile(s.workers[v].pc);
      }
    }
  }

  /** The worker's own process has no other active worker when it is a writer, and no writer when it lists. */
  lemma OwnCacheIsFaithful(c: Config, s: State, w: nat)
    requires MutexInv(c, s.writer, s.workers) && CacheInv(c, s)
    requires w in s.workers && !s.workers[w].pc.Queued? && !Dirty(s.workers[w].pc) && c.proc(w) in s.caches
    ensures Faithful(c, s.caches[c.proc(w)])
  {}

  /** What a step may rely on besides the file itself. */
  ghost predicate Held(c: Config, s: State) {
    && FileLockInv(s.exclusive, s.shared, s.workers) && MutexInv(c, s.writer, s.workers)
    && CacheInv(c, s) && WorkersInv(c, s)
  }

  ghost predicate Kept(c: Config, s: State, s': State, w: nat) {
    MovesOn(s, s', w) && CacheMove(c, s, s', w) && WorkersInv(c, s')
  }

  lemma PeekKeeps(c: Config, s: State, s': State, w: nat)
    requires Held(c, s) && Peek(c, s, s', w)
    ensures Kept(c, s, s', w)
  {
    OwnCacheIsFaithful(c, s, w);
    MoveKeepsWorkers(c, s, s', w);
  }

  lemma HitKeeps(c: Config, s: State, s': State, w: nat)
    requires Held(c, s) && Hit(c, s, s', w)
    ensures Kept(c, s, s', w)
  {
    if c.proc(w) in s.caches {
      OwnCacheIsFaithful(c, s, w);
    }
    MoveKeepsWorkers(c, s, s', w);
  }

  lemma StatKeeps(c: Config, s: State, s': State, w: nat)
    requires Held(c, s) && Stat(c, s, s', w)
    ensures Kept(c, s, s', w)
  {
    if c.proc(w) in s.caches {
      OwnCacheIsFaithful(c, s, w);
    }
    MoveKeepsWorkers(c, s, s', w);
  }

  /** Reading the bytes the cache holds reuses the cached set and renews its metadata. */
  lemma RereadKeepsCaches(c: Config, s: State, s': State, w: nat)
    requires MutexInv(c, s.writer, s.workers) && CacheInv(c, s) && Read(c, s, s', w)
    requires KnowsFile(c, s.versions, s.usedIds, s.workers[w].op, s.workers[w].pc)
    requires c.proc(w) in s.caches && s.caches[c.proc(w)].data == s.versions[|s.versions| - 1].data
    ensures CacheMove(c, s, s', w)
    ensures s'.workers[w].pc.Loaded? && LockedIn(c, s.versions) == Some(s'.workers[w].pc.locks)
  {
    OwnCacheIsFaithful(c, s, w);
    var last := s.versions[|s.versions| - 1];
    assert Version(last.data, s.workers[w].pc.info) == last;
  }

  /** Reading other bytes parses and caches them. */
  lemma ParseKeepsCaches(c: Config, s: State, s': State, w: nat)
    requires Read(c, s, s', w)
    requires KnowsFile(c, s.versions, s.usedIds, s.workers[w].op, s.workers[w].pc)
    requires c.proc(w) in s.caches ==> s.caches[c.proc(w)].data != s.versions[|s.versions| - 1].data
    ensures CacheMove(c, s, s', w)
    ensures s'.workers[w].pc.Loaded? && LockedIn(c, s.versions) == Some(s'.workers[w].pc.locks)
  {
    var last := s.versions[|s.versions| - 1];
    assert Version(last.data, s.workers[w].pc.info) == last;
  }

  lemma ReadKeepsCaches(c: Config, s: State, s': State, w: nat)
    requires MutexInv(c, s.writer, s.workers) && CacheInv(c, s) && Read(c, s, s', w)
    requires KnowsFile(c, s.versions, s.usedIds, s.workers[w].op, s.workers[w].pc)
    ensures CacheMove(c, s, s', w)
    ensures s'.workers[w].pc.Loaded? && LockedIn(c, s.versions) == Some(s'.workers[w].pc.locks)
  {
    if c.proc(w) in s.caches && s.caches[c.proc(w)].data == s.versions[|s.versions| - 1].data {
      RereadKeepsCaches(c, s, s', w);
    } else {
      ParseKeepsCaches(c, s, s', w);
    }
  }

  lemma ReadKeeps(c: Config, s: State, s': State, w: nat)
    requires Held(c, s) && Read(c, s, s', w)
    ensures Kept(c, s, s', w)
  {
    assert KnowsFile(c, s.versions, s.usedIds, s.workers[w].op, s.workers[w].pc);
    ReadKeepsCaches(c, s, s', w);
    MoveKeepsWorkers(c, s, s', w);
  }

  lemma AnswerKeeps(c: Config, s: State, s': State, w: nat)
    requires Held(c, s) && Answer(c, s, s', w)
    ensures Kept(c, s, s', w)
  {
    if c.proc(w) in s.caches {
      OwnCacheIsFaithful(c, s, w);
    }
    MoveKeepsWorkers(c, s, s', w);
  }

  lemma ChangeIsPending(c: Config, init: set<Lock>, s: State, w: nat, change: Change)
    requires FileInv(c, init, s.versions, s.history, s.usedIds)
    requires w in s.workers && s.workers[w].pc.Loaded? && Decides(c, s, w, change)
    requires KnowsFile(c, s.versions, s.usedIds, s.workers[w].op, s.workers[w].pc)
    ensures Matches(s.workers[w].op, change)
    ensures Pending(c, s.versions, s.usedIds + {change.lock.id}, Apply(s.workers[w].pc.locks, change), change)
  {}

  /** Changing the loaded set in place leaves the cached one naming its old version, under a dirty writer. */
  lemma ChangeKeepsCaches(c: Config, s: State, s': State, w: nat, change: Change)
    requires CacheInv(c, s) && ChangeSet(c, s, s', w, change)
    ensures CacheMove(c, s, s', w)
  {}

  lemma ChangeKeeps(c: Config, s: State, s': State, w: nat, change: Change)
    requires Held(c, s) && ChangeSet(c, s, s', w, change) && Matches(s.workers[w].op, change)
    requires Pending(c, s.versions, s.usedIds + {change.lock.id}, Apply(s.workers[w].pc.locks, change), change)
    ensures Kept(c, s, s', w)
  {
    ChangeKeepsCaches(c, s, s', w, change);
    MoveKeepsWorkers(c, s, s', w);
  }

  lemma StageKeeps(c: Config, s: State, s': State, w: nat)
    requires Held(c, s) && Stage(c, s, s', w)
    ensures Kept(c, s, s', w)
  {
    MoveKeepsWorkers(c, s, s', w);
  }

  lemma RestatKeeps(c: Config, s: State, s': State, w: nat, ok: bool)
    requires Held(c, s) && Restat(c, s, s', w, ok)
    ensures Kept(c, s, s', w)
  {
    MoveKeepsWorkers(c, s, s', w);
  }

  /** A failure before the set was changed. */
  lemma CleanFailKeeps(c: Config, s: State, s': State, w: nat)
    requires Held(c, s) && Fail(c, s, s', w) && !Dirty(s.workers[w].pc)
    ensures Kept(c, s, s', w)
  {
    if c.proc(w) in s.caches {
      OwnCacheIsFaithful(c, s, w);
    }
    MoveKeepsWorkers(c, s, s', w);
  }

  /** A failure after it was changed in place. */
  lemma DirtyFailKeeps(c: Config, s: State, s': State, w: nat)
    requires Held(c, s) && Fail(c, s, s', w) && Dirty(s.workers[w].pc)
    ensures Kept(c, s, s', w)
  {
    MoveKeepsWorkers(c, s, s', w);
  }

  lemma FailKeeps(c: Config, s: State, s': State, w: nat)
    requires Held(c, s) && Fail(c, s, s', w)
    ensures Kept(c, s, s', w)
  {
    if Dirty(s.workers[w].pc) {
      DirtyFailKeeps(c, s, s', w);
    } else {
      CleanFailKeeps(c, s, s', w);
    }
  }

  /** A legal change to a well-kept list is what the change does to its set, and leaves it well kept. */
  lemma ApplyRefines(c: Config, s: seq<Lock>, change: Change)
    requires StrictlySorted(s) && Unique(s) && Legal(c, Elems(s), change)
    ensures StrictlySorted(Apply(s, change)) && Unique(Apply(s, change))
    ensures Elems(Apply(s, change)) == ApplySet(Elems(s), change)
  {
    match change
    case Added(l) =>
      assert forall x :: x in s ==> x in Elems(s);
      InsertElems(s, l);
      InsertKeepsOrder(s, l);
      InsertKeepsUnique(s, l);
    case Removed(l, _, _, _) =>
      DeleteElems(s, l);
      DeleteKeepsOrder(s, l);
  }

  lemma LegalityStays(c: Config, init: set<Lock>, history: seq<Commit>, commit: Commit)
    requires forall i :: 0 <= i < |history| ==> LegalAt(c, init, history, i)
    requires Legal(c, Fold(init, history), commit.change)
    ensures forall i :: 0 <= i < |history + [commit]| ==> LegalAt(c, init, history + [commit], i)
  {
    var h := history + [commit];
    forall i | 0 <= i < |h| ensures LegalAt(c, init, h, i) {
      assert h[..i] == history[..i];
      if i < |history| {
        assert LegalAt(c, init, history, i);
      } else {
        assert history[..i] == history;
      }
    }
  }

  lemma FoldOneMore(init: set<Lock>, history: seq<Commit>, commit: Commit)
    ensures Fold(init, history + [commit]) == ApplySet(Fold(init, history), commit.change)
    ensures (history + [commit])[..|history| + 1] == history + [commit]
  {
    assert (history + [commit])[..|history|] == history;
  }

  /** Marshalled, a well-kept list is a version that reads back as the list itself. */
  lemma WrittenReadsBack(c: Config, versions: seq<Version>, version: Version, locks: seq<Lock>)
    requires CodecLaw(c.codec) && StrictlySorted(locks) && Unique(locks)
    requires c.codec.marshal(locks) == Some(version.data)
    ensures c.codec.parse(version.data) == Some(locks) && Sort(locks) == locks
    ensures LockedIn(c, versions + [version]) == Some(locks) == FileLocks(c.codec, Some(version.data))
  {
    SortIsIdempotent(locks);
  }

  /** Renaming the staged bytes over the file appends one legal commit to the fold. */
  lemma CommitKeepsFile(c: Config, init: set<Lock>, versions: seq<Version>, history: seq<Commit>, usedIds: set<Text>,
                        version: Version, commit: Commit, locks: seq<Lock>)
    requires FileInv(c, init, versions, history, usedIds)
    requires Pending(c, versions, usedIds, locks, commit.change) && c.codec.marshal(locks) == Some(version.data)
    ensures FileInv(c, init, versions + [version], history + [commit], usedIds)
    ensures LockedIn(c, versions + [version]) == Some(locks) && Sort(locks) == locks
    ensures c.codec.parse(version.data) == Some(locks)
  {
    var before := LockedIn(c, versions).value;
    ApplyRefines(c, before, commit.change);
    WrittenReadsBack(c, versions, version, locks);
    LegalityStays(c, init, history, commit);
    FoldOneMore(init, history, commit);
    forall l | l in locks ensures l.id in usedIds {
      assert l in Elems(locks);
      assert l in before || l == commit.change.lock;
    }
    VersionsStay(c, init, versions, history, version, commit);
  }

  /** One more version and one more commit: the earlier versions are the folds they were. */
  lemma VersionsStay(c: Config, init: set<Lock>, versions: seq<Version>, history: seq<Commit>, version: Version,
                     commit: Commit)
    requires VersionsInv(c, init, versions, history)
    requires IsFold(c, init, version, history + [commit], |history| + 1)
    ensures VersionsInv(c, init, versions + [version], history + [commit])
  {
    var vs, h := versions + [version], history + [commit];
    forall i | 0 <= i < |vs| ensures IsFold(c, init, vs[i], h, i + 1 + |h| - |vs|) {
      if i < |versions| {
        var at := i + 1 + |history| - |versions|;
        assert IsFold(c, init, versions[i], history, at);
        assert h[..at] == history[..at];
      }
    }
  }

  lemma RenameKeepsFile(c: Config, init: set<Lock>, s: State, s': State, w: nat, info: Info)
    requires FileInv(c, init, s.versions, s.history, s.usedIds)
    requires Rename(c, s, s', w, info) && KnowsFile(c, s.versions, s.usedIds, s.workers[w].op, s.workers[w].pc)
    ensures FileInv(c, init, s'.versions, s'.history, s'.usedIds)
    ensures KnowsFile(c, s'.versions, s'.usedIds, s'.workers[w].op, s'.workers[w].pc)
  {
    var pc := s.workers[w].pc;
    CommitKeepsFile(c, init, s.versions, s.history, s.usedIds, Version(pc.data, info),
                    Commit(s.workers[w].call, pc.change), pc.locks);
  }

  lemma RenameKeeps(c: Config, s: State, s': State, w: nat, info: Info)
    requires Held(c, s) && Rename(c, s, s', w, info)
    requires KnowsFile(c, s'.versions, s'.usedIds, s'.workers[w].op, s'.workers[w].pc)
    ensures Kept(c, s, s', w)
  {
    assert KnowsFile(c, s.versions, s.usedIds, s.workers[w].op, s.workers[w].pc);
    MoveKeepsWorkers(c, s, s', w);
    WriterIsExclusive(c, s, w);
  }

  /** Only a Create or Unlock call gets as far as changing the set. */
  lemma WriterIsExclusive(c: Config, s: State, w: nat)
    requires FileLockInv(s.exclusive, s.shared, s.workers) && w in s.workers && InFile(s.workers[w].pc)
    ensures !s.workers[w].op.ListOp? ==> s.exclusive == Some(w)
  {}
}
