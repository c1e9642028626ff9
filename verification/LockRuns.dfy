/**
 * What the calls of LockProtocol are told and what whole runs of it keep: every finished call is linearised within its
 * own time, and the lock file is the fold of the commits.
 */
module LockRuns {
  import opened ByteText
  import opened Locks
  import opened LockCursor
  import opened LockSets
  import opened LockStores
  import opened LockProtocol

  // ---- calls and their outcomes ----

  /** The history holds a commit of this call. */
  ghost predicate Committed(history: seq<Commit>, call: nat) {
    exists i :: 0 <= i < |history| && history[i].call == call
  }

  /** This very change by this call was committed between the two given lengths of the history. */
  ghost predicate CommittedAs(history: seq<Commit>, since: nat, until: nat, call: nat, change: Change) {
    exists i :: since <= i < until && i < |history| && history[i] == Commit(call, change)
  }

  ghost predicate IsListing(s: seq<Lock>, locks: set<Lock>, opts: ListOptions, page: Option<Page>) {
    StrictlySorted(s) && Elems(s) == locks && page == Listing(s, opts)
  }

  /** The answer without a change that a call must get while the file holds these locks; a failure may always come. */
  ghost predicate TrueOf(c: Config, locks: set<Lock>, op: Op, outcome: Outcome) {
    match outcome
    case Conflict(l) => op.CreateOp? && l in locks && l.path == op.path
    case Missing => op.UnlockOp? && forall l :: l in locks ==> l.id != op.id
    case Denied =>
      && op.UnlockOp? && !(op.asked && op.maintainer)
      && exists l :: l in locks && l.id == op.id && c.fold(l.owner) != c.fold(op.requester)
    case Listed(page) => op.ListOp? && exists s :: IsListing(s, locks, op.opts, page)
    case Failed => true
    case Done(_) => false
  }

  /** The answer was true at some moment between two lengths of the history. */
  ghost predicate TrueBetween(c: Config, init: set<Lock>, history: seq<Commit>, since: nat, until: nat, op: Op,
                              outcome: Outcome) {
    exists at :: since <= at <= until && at <= |history| && TrueOf(c, Fold(init, history[..at]), op, outcome)
  }

  /** What a call may rest on: the runs' fixed parts, and whether equal metadata has meant equal bytes so far. */
  datatype World = World(c: Config, init: set<Lock>, honest: bool)

  /** A listing answered from the cache while metadata lied may be older than the call. */
  ghost function Earliest(u: World, since: nat, outcome: Outcome): nat {
    if outcome.Listed? && !u.honest then 0 else since
  }

  /**
   * A successful call is in the history, within its own time, with a change it asked for. Any other call left no
   * trace there and was told what was true at some moment of its time; a listing while metadata lied, what had been
   * true by then.
   */
  ghost predicate OutcomeInv(u: World, history: seq<Commit>, call: nat, op: Op, since: nat, until: nat,
                             outcome: Outcome) {
    match outcome
    case Done(change) => Matches(op, change) && CommittedAs(history, since, until, call, change)
    case _ =>
      && !Committed(history, call)
      && TrueBetween(u.c, u.init, history, Earliest(u, since, outcome), until, op, outcome)
  }

  ghost predicate PcInv(u: World, history: seq<Commit>, k: Worker) {
    && k.since <= |history|
    && match k.pc
       case Renamed(_, change, _) => OutcomeInv(u, history, k.call, k.op, k.since, |history|, Done(change))
       case Leaving(outcome) => OutcomeInv(u, history, k.call, k.op, k.since, |history|, outcome)
       case _ => !Committed(history, k.call)
  }

  /** Calls are numbered as issued, and each commit is what its call, and no other commit of it, asked for. */
  ghost predicate CallIds(workers: map<nat, Worker>, issued: seq<Op>, history: seq<Commit>, results: map<nat, Record>) {
    && (forall w :: w in workers ==>
          workers[w].call < |issued| && workers[w].call !in results && workers[w].op == issued[workers[w].call])
    && (forall v, w :: v in workers && w in workers && v != w ==> workers[v].call != workers[w].call)
    && (forall k :: k in results ==> k < |issued|)
    && (forall i :: 0 <= i < |history| ==> AskedFor(issued, history[i]))
    && (forall i, j :: 0 <= i < j < |history| ==> history[i].call != history[j].call)
  }

  ghost predicate AskedFor(issued: seq<Op>, commit: Commit) {
    commit.call < |issued| && Matches(issued[commit.call], commit.change)
  }

  ghost predicate CallInv(u: World, workers: map<nat, Worker>, issued: seq<Op>, history: seq<Commit>,
                          results: map<nat, Record>) {
    && CallIds(workers, issued, history, results)
    && (forall w :: w in workers ==> PcInv(u, history, workers[w]))
    && (forall k :: k in results ==> ResultInv(u, history, k, issued[k], results[k]))
  }

  ghost predicate ResultInv(u: World, history: seq<Commit>, call: nat, op: Op, r: Record) {
    OutcomeInv(u, history, call, op, r.since, r.until, r.outcome) && r.since <= r.until <= |history|
  }

  /** What was true of a prefix of the history stays true of it. */
  lemma TruthStays(c: Config, init: set<Lock>, history: seq<Commit>, commit: Commit, since: nat, until: nat,
                   since': nat, until': nat, op: Op, outcome: Outcome)
    requires TrueBetween(c, init, history, since, until, op, outcome) && since' <= since && until <= until'
    ensures TrueBetween(c, init, history + [commit], since', until', op, outcome)
  {
    var at :| since <= at <= until && at <= |history| && TrueOf(c, Fold(init, history[..at]), op, outcome);
    assert (history + [commit])[..at] == history[..at];
  }

  lemma OthersCommit(history: seq<Commit>, commit: Commit, call: nat)
    requires commit.call != call
    ensures Committed(history + [commit], call) <==> Committed(history, call)
  {
    var h := history + [commit];
    assert forall i :: 0 <= i < |history| ==> h[i] == history[i];
    if i :| 0 <= i < |history| && history[i].call == call {
      assert h[i].call == call;
    }
  }

  /** A commit by one call changes nothing about the outcome of another. */
  lemma OutcomeStays(u: World, u': World, history: seq<Commit>, commit: Commit, call: nat, op: Op, since: nat,
                     until: nat, until': nat, outcome: Outcome)
    requires OutcomeInv(u, history, call, op, since, until, outcome) && commit.call != call && until <= until'
    requires u' == u.(honest := u'.honest) && (u'.honest ==> u.honest)
    ensures OutcomeInv(u', history + [commit], call, op, since, until', outcome)
  {
    var h := history + [commit];
    if outcome.Done? {
      var i :| since <= i < until && i < |history| && history[i] == Commit(call, outcome.change);
      assert h[i] == Commit(call, outcome.change);
    } else {
      OthersCommit(history, commit, call);
      TruthStays(u.c, u.init, history, commit, Earliest(u, since, outcome), until, Earliest(u', since, outcome), until',
                 op, outcome);
    }
  }

  lemma MoveKeepsCalls(u: World, workers: map<nat, Worker>, issued: seq<Op>, history: seq<Commit>,
                       results: map<nat, Record>, w: nat, pc: Pc)
    requires CallInv(u, workers, issued, history, results) && w in workers
    requires PcInv(u, history, workers[w].(pc := pc))
    ensures CallInv(u, workers[w := workers[w].(pc := pc)], issued, history, results)
  {}

  lemma IssueKeepsCalls(u: World, workers: map<nat, Worker>, issued: seq<Op>, history: seq<Commit>,
                        results: map<nat, Record>, w: nat, op: Op)
    requires CallInv(u, workers, issued, history, results) && w !in workers
    ensures CallInv(u, workers[w := Worker(|issued|, op, Queued, |history|)], issued + [op], history, results)
  {
    var issued' := issued + [op];
    assert forall k :: 0 <= k < |issued| ==> issued'[k] == issued[k];
    forall i | 0 <= i < |history| ensures AskedFor(issued', history[i]) && history[i].call != |issued| {
      assert AskedFor(issued, history[i]);
    }
    forall k | k in results ensures ResultInv(u, history, k, issued'[k], results[k]) {
      assert ResultInv(u, history, k, issued[k], results[k]);
    }
  }

  lemma EndKeepsCalls(u: World, workers: map<nat, Worker>, issued: seq<Op>, history: seq<Commit>,
                      results: map<nat, Record>, w: nat, outcome: Outcome)
    requires CallInv(u, workers, issued, history, results) && w in workers
    requires OutcomeInv(u, history, workers[w].call, workers[w].op, workers[w].since, |history|, outcome)
    ensures CallInv(u, workers - {w}, issued, history,
                    results[workers[w].call := Record(outcome, workers[w].since, |history|)])
  {
    assert PcInv(u, history, workers[w]);
  }

  /** A call that has not committed may fail. */
  lemma FailureIsTrue(u: World, history: seq<Commit>, k: Worker)
    requires !Committed(history, k.call) && k.since <= |history|
    ensures OutcomeInv(u, history, k.call, k.op, k.since, |history|, Failed)
  {
    assert TrueOf(u.c, Fold(u.init, history[..k.since]), k.op, Failed);
  }

  /** The commits so far keep distinct calls apart when one more call commits for the first time. */
  lemma CommitKeepsIds(workers: map<nat, Worker>, issued: seq<Op>, history: seq<Commit>, results: map<nat, Record>,
                       w: nat, change: Change, pc: Pc)
    requires CallIds(workers, issued, history, results) && w in workers && !Committed(history, workers[w].call)
    requires Matches(workers[w].op, change)
    ensures CallIds(workers[w := workers[w].(pc := pc)], issued, history + [Commit(workers[w].call, change)], results)
  {
    var h := history + [Commit(workers[w].call, change)];
    forall i, j | 0 <= i < j < |h| ensures h[i].call != h[j].call {
      assert h[i] == history[i];
      if j < |history| {
        assert h[j] == history[j];
      }
    }
  }

  /** A worker stepping up to its commit: its call was not in the history, and now is, once. */
  lemma CommitKeepsCalls(u: World, u': World, workers: map<nat, Worker>, issued: seq<Op>, history: seq<Commit>,
                         results: map<nat, Record>, w: nat, change: Change, pc: Pc)
    requires CallInv(u, workers, issued, history, results) && w in workers && workers[w].pc.Staged?
    requires pc.Renamed? && pc.change == change && Matches(workers[w].op, change)
    requires u' == u.(honest := u'.honest) && (u'.honest ==> u.honest)
    ensures CallInv(u', workers[w := workers[w].(pc := pc)], issued, history + [Commit(workers[w].call, change)],
                    results)
  {
    var commit := Commit(workers[w].call, change);
    var h := history + [commit];
    assert PcInv(u, history, workers[w]);
    CommitKeepsIds(workers, issued, history, results, w, change, pc);
    assert h[|history|] == commit;
    assert PcInv(u', h, workers[w].(pc := pc));
    forall v | v in workers && v != w ensures PcInv(u', h, workers[v]) {
      OtherWorkerStays(u, u', history, commit, workers[v]);
    }
    forall k | k in results ensures ResultInv(u', h, k, issued[k], results[k]) {
      assert ResultInv(u, history, k, issued[k], results[k]);
      OutcomeStays(u, u', history, commit, k, issued[k], results[k].since, results[k].until, results[k].until,
                   results[k].outcome);
    }
  }

  lemma OtherWorkerStays(u: World, u': World, history: seq<Commit>, commit: Commit, k: Worker)
    requires PcInv(u, history, k) && commit.call != k.call
    requires u' == u.(honest := u'.honest) && (u'.honest ==> u.honest)
    ensures PcInv(u', history + [commit], k)
  {
    match k.pc
    case Renamed(_, change, _) =>
      OutcomeStays(u, u', history, commit, k.call, k.op, k.since, |history|, |history| + 1, Done(change));
    case Leaving(o) =>
      OutcomeStays(u, u', history, commit, k.call, k.op, k.since, |history|, |history| + 1, o);
    case _ => OthersCommit(history, commit, k.call);
  }

  /** An answer taken from the locks in the file right now is true of all the commits so far. */
  lemma AnswerIsTrue(u: World, history: seq<Commit>, k: Worker, outcome: Outcome)
    requires k.since <= |history| && !Committed(history, k.call) && !outcome.Done?
    requires TrueOf(u.c, Fold(u.init, history), k.op, outcome)
    ensures OutcomeInv(u, history, k.call, k.op, k.since, |history|, outcome)
  {
    assert history[..|history|] == history;
  }

  /** With honest metadata a hit is the file as it is now, whatever happened since the cache entry was loaded. */
  lemma HitIsCurrent(c: Config, s: State, s': State, w: nat)
    requires WorkersInv(c, s) && InfoInv(s.versions) && Hit(c, s, s', w)
    ensures Locked(c, s) == Some(s.workers[w].pc.entry.locks)
  {
    var e, last := s.workers[w].pc.entry, s.versions[|s.versions| - 1];
    assert KnowsFile(c, s.versions, s.usedIds, s.workers[w].op, s.workers[w].pc);
    assert Version(e.data, e.info) in s.versions && last in s.versions;
  }

  lemma VersionIsFold(c: Config, init: set<Lock>, versions: seq<Version>, history: seq<Commit>, v: Version)
    returns (at: nat)
    requires VersionsInv(c, init, versions, history) && v in versions
    ensures IsFold(c, init, v, history, at)
  {
    var i :| 0 <= i < |versions| && versions[i] == v;
    assert IsFold(c, init, versions[i], history, i + 1 + |history| - |versions|);
    at := i + 1 + |history| - |versions|;
  }

  /** And in any case it is the file as some prefix of the commits made it. */
  lemma HitIsFold(c: Config, init: set<Lock>, s: State, s': State, w: nat) returns (at: nat)
    requires WorkersInv(c, s) && FileInv(c, init, s.versions, s.history, s.usedIds) && Hit(c, s, s', w)
    ensures at <= |s.history| && (InfoInv(s.versions) ==> at == |s.history|)
    ensures var locks := s.workers[w].pc.entry.locks;
            StrictlySorted(locks) && Elems(locks) == Fold(init, s.history[..at])
  {
    var e := s.workers[w].pc.entry;
    assert KnowsFile(c, s.versions, s.usedIds, s.workers[w].op, s.workers[w].pc);
    at := VersionIsFold(c, init, s.versions, s.history, Version(e.data, e.info));
    if InfoInv(s.versions) {
      HitIsCurrent(c, s, s', w);
      at := |s.history|;
      assert s.history[..at] == s.history;
    }
  }

  /** A listing answered from a set the file stood for after `at` commits. */
  lemma ListingIsTrue(u: World, history: seq<Commit>, k: Worker, locks: seq<Lock>, at: nat)
    requires k.op.ListOp? && k.since <= |history| && !Committed(history, k.call)
    requires at <= |history| && (u.honest ==> at == |history|)
    requires StrictlySorted(locks) && Elems(locks) == Fold(u.init, history[..at])
    ensures OutcomeInv(u, history, k.call, k.op, k.since, |history|, Listed(Listing(locks, k.op.opts)))
  {
    assert IsListing(locks, Fold(u.init, history[..at]), k.op.opts, Listing(locks, k.op.opts));
    assert TrueOf(u.c, Fold(u.init, history[..at]), k.op, Listed(Listing(locks, k.op.opts)));
  }

  ghost function WorldOf(c: Config, init: set<Lock>, versions: seq<Version>): World {
    World(c, init, InfoInv(versions))
  }

  ghost predicate Calls(c: Config, init: set<Lock>, s: State) {
    CallInv(WorldOf(c, init, s.versions), s.workers, s.issued, s.history, s.results)
  }

  lemma HitKeepsCalls(c: Config, init: set<Lock>, s: State, s': State, w: nat)
    requires Calls(c, init, s) && Hit(c, s, s', w) && WorkersInv(c, s)
    requires FileInv(c, init, s.versions, s.history, s.usedIds)
    ensures Calls(c, init, s')
  {
    var u := WorldOf(c, init, s.versions);
    assert PcInv(u, s.history, s.workers[w]);
    var at := HitIsFold(c, init, s, s', w);
    ListingIsTrue(u, s.history, s.workers[w], s.workers[w].pc.entry.locks, at);
    MoveKeepsCalls(u, s.workers, s.issued, s.history, s.results, w, s'.workers[w].pc);
  }

  /** What Answer says holds of the set of locks it was read from. */
  lemma AnsweredIsTrue(c: Config, s: State, s': State, w: nat, locks: set<Lock>)
    requires Answer(c, s, s', w) && locks == Elems(s.workers[w].pc.locks) && StrictlySorted(s.workers[w].pc.locks)
    ensures s'.workers == s.workers[w := s.workers[w].(pc := s'.workers[w].pc)] && s'.workers[w].pc.Leaving?
    ensures !s'.workers[w].pc.outcome.Done? && TrueOf(c, locks, s.workers[w].op, s'.workers[w].pc.outcome)
  {
    var op, loaded := s.workers[w].op, s.workers[w].pc.locks;
    assert forall l :: l in loaded <==> l in locks;
    if op.ListOp? {
      assert IsListing(loaded, locks, op.opts, Listing(loaded, op.opts));
    }
  }

  lemma AnswerKeepsCalls(c: Config, init: set<Lock>, s: State, s': State, w: nat)
    requires Calls(c, init, s) && Answer(c, s, s', w) && WorkersInv(c, s)
    requires FileInv(c, init, s.versions, s.history, s.usedIds)
    ensures Calls(c, init, s')
  {
    assert KnowsFile(c, s.versions, s.usedIds, s.workers[w].op, s.workers[w].pc);
    var u := WorldOf(c, init, s.versions);
    assert PcInv(u, s.history, s.workers[w]);
    AnsweredIsTrue(c, s, s', w, Fold(init, s.history));
    AnswerIsTrue(u, s.history, s.workers[w], s'.workers[w].pc.outcome);
    MoveKeepsCalls(u, s.workers, s.issued, s.history, s.results, w, s'.workers[w].pc);
  }

  predicate Loads(step: Step) {
    step.PeekStep? || step.StatStep? || step.ReadStep?
  }

  predicate Writes(step: Step) {
    step.ChangeStep? || step.StageStep? || step.RestatStep?
  }

  /** A step that neither answers nor commits: what it leads to, if an outcome, is the one already due or a failure. */
  ghost predicate Paced(s: State, s': State, w: nat) {
    && w in s.workers && w in s'.workers && s'.workers == s.workers[w := s.workers[w].(pc := s'.workers[w].pc)]
    && s'.versions == s.versions && s'.history == s.history && s'.issued == s.issued && s'.results == s.results
    && var pc, pc' := s.workers[w].pc, s'.workers[w].pc;
       if pc.Renamed? then pc' == Leaving(Done(pc.change))
       else !pc.Leaving? && !pc'.Renamed? && (pc'.Leaving? ==> pc'.outcome == Failed)
  }

  lemma LoadIsPaced(c: Config, s: State, s': State, w: nat, step: Step)
    requires Next(c, s, s', w, step) && Loads(step)
    ensures Paced(s, s', w)
  {}

  lemma WriteIsPaced(c: Config, s: State, s': State, w: nat, step: Step)
    requires Next(c, s, s', w, step) && Writes(step)
    ensures Paced(s, s', w)
  {}

  lemma FailIsPaced(c: Config, s: State, s': State, w: nat)
    requires Fail(c, s, s', w)
    ensures Paced(s, s', w)
  {}

  lemma PacedKeepsCalls(c: Config, init: set<Lock>, s: State, s': State, w: nat)
    requires Calls(c, init, s) && Paced(s, s', w)
    ensures Calls(c, init, s')
  {
    var u := WorldOf(c, init, s.versions);
    assert PcInv(u, s.history, s.workers[w]);
    if !s.workers[w].pc.Renamed? {
      FailureIsTrue(u, s.history, s.workers[w]);
    }
    MoveKeepsCalls(u, s.workers, s.issued, s.history, s.results, w, s'.workers[w].pc);
  }

  lemma CrashKeepsCalls(c: Config, u: World, s: State, s': State, p: nat)
    requires CallInv(u, s.workers, s.issued, s.history, s.results) && Crash(c, s, s', p)
    ensures CallInv(u, s'.workers, s'.issued, s'.history, s'.results)
  {}

  lemma LockingKeepsCalls(c: Config, init: set<Lock>, s: State, s': State, w: nat, step: Step)
    requires Calls(c, init, s) && Next(c, s, s', w, step) && UsesLocksOnly(step)
    ensures Calls(c, init, s')
  {
    LockStepKeepsFile(c, s, s', w, step);
    var u := WorldOf(c, init, s.versions);
    if !step.IssueStep? && !step.CrashStep? {
      assert PcInv(u, s.history, s.workers[w]);
    }
    match step
    case IssueStep(op) => IssueKeepsCalls(u, s.workers, s.issued, s.history, s.results, w, op);
    case GiveUpStep =>
      FailureIsTrue(u, s.history, s.workers[w]);
      EndKeepsCalls(u, s.workers, s.issued, s.history, s.results, w, Failed);
    case ReleaseStep => EndKeepsCalls(u, s.workers, s.issued, s.history, s.results, w, s.workers[w].pc.outcome);
    case CrashStep => CrashKeepsCalls(c, u, s, s', w);
    case TakeMutexStep => MoveKeepsCalls(u, s.workers, s.issued, s.history, s.results, w, HasMutex);
    case TakeFileStep => MoveKeepsCalls(u, s.workers, s.issued, s.history, s.results, w, HasFile);
  }

  // ---- every step keeps everything ----

  ghost predicate FullInv(c: Config, init: set<Lock>, s: State) {
    Inv(c, init, s) && Calls(c, init, s)
  }

  lemma LockingKeepsInv(c: Config, init: set<Lock>, s: State, s': State, w: nat, step: Step)
    requires FullInv(c, init, s) && Next(c, s, s', w, step) && UsesLocksOnly(step)
    ensures FullInv(c, init, s')
  {
    LockStepKeepsFile(c, s, s', w, step);
    LockStepKeepsWorkers(c, s, s', w, step);
    LockingKeepsCalls(c, init, s, s', w, step);
    match step
    case IssueStep(op) => IssueKeepsLocks(c, s, s', w, op); IssueKeepsCaches(c, s, s', w, op);
    case GiveUpStep => GiveUpKeepsLocks(c, s, s', w); GiveUpKeepsCaches(c, s, s', w);
    case TakeMutexStep =>
      TakeMutexKeepsFileLock(c, s, s', w); TakeMutexKeepsMutex(c, s, s', w); TakeMutexKeepsCaches(c, s, s', w);
    case TakeFileStep =>
      TakeFileKeepsFileLock(c, s, s', w); TakeFileKeepsMutex(c, s, s', w); TakeFileKeepsCaches(c, s, s', w);
    case ReleaseStep => ReleaseKeepsLocks(c, s, s', w); ReleaseKeepsCaches(c, s, s', w);
    case CrashStep => CrashKeepsLocks(c, s, s', w); CrashKeepsCaches(c, s, s', w);
  }

  /** From the parts of a move to the whole invariant. */
  lemma KeptIsInv(c: Config, init: set<Lock>, s: State, s': State, w: nat)
    requires Inv(c, init, s) && Kept(c, s, s', w)
    requires FileInv(c, init, s'.versions, s'.history, s'.usedIds)
    ensures Inv(c, init, s')
  {
    MoveKeepsLocks(c, s, s', w);
    MoveKeepsCaches(c, s, s', w);
  }

  /** Steps up to the loaded set. */
  lemma LoadingKeepsInv(c: Config, init: set<Lock>, s: State, s': State, w: nat, step: Step)
    requires Inv(c, init, s) && Next(c, s, s', w, step)
    requires Loads(step)
    ensures Inv(c, init, s')
  {
    match step {
      case PeekStep => PeekKeeps(c, s, s', w);
      case StatStep => StatKeeps(c, s, s', w);
      case ReadStep => ReadKeeps(c, s, s', w);
    }
    KeptIsInv(c, init, s, s', w);
  }

  /** Steps from the loaded set on, except the rename. */
  lemma WritingKeepsInv(c: Config, init: set<Lock>, s: State, s': State, w: nat, step: Step)
    requires Inv(c, init, s) && Next(c, s, s', w, step)
    requires Writes(step)
    ensures Inv(c, init, s')
  {
    assert KnowsFile(c, s.versions, s.usedIds, s.workers[w].op, s.workers[w].pc);
    match step {
      case StageStep => StageKeeps(c, s, s', w);
      case RestatStep(ok) => RestatKeeps(c, s, s', w, ok);
      case ChangeStep(change) => ChangeIsPending(c, init, s, w, change); ChangeKeeps(c, s, s', w, change);
    }
    KeptIsInv(c, init, s, s', w);
  }

  lemma FailKeepsInv(c: Config, init: set<Lock>, s: State, s': State, w: nat)
    requires Inv(c, init, s) && Fail(c, s, s', w)
    ensures Inv(c, init, s')
  {
    FailKeeps(c, s, s', w);
    KeptIsInv(c, init, s, s', w);
  }

  lemma HitKeepsInv(c: Config, init: set<Lock>, s: State, s': State, w: nat)
    requires Inv(c, init, s) && Hit(c, s, s', w)
    ensures Inv(c, init, s')
  {
    HitKeeps(c, s, s', w);
    KeptIsInv(c, init, s, s', w);
  }

  lemma AnswerKeepsInv(c: Config, init: set<Lock>, s: State, s': State, w: nat)
    requires Inv(c, init, s) && Answer(c, s, s', w)
    ensures Inv(c, init, s')
  {
    AnswerKeeps(c, s, s', w);
    KeptIsInv(c, init, s, s', w);
  }

  lemma RenameKeepsInv(c: Config, init: set<Lock>, s: State, s': State, w: nat, info: Info)
    requires FullInv(c, init, s) && Rename(c, s, s', w, info)
    ensures FullInv(c, init, s')
  {
    assert KnowsFile(c, s.versions, s.usedIds, s.workers[w].op, s.workers[w].pc);
    RenameKeepsFile(c, init, s, s', w, info);
    RenameKeeps(c, s, s', w, info);
    CommitKeepsCalls(WorldOf(c, init, s.versions), WorldOf(c, init, s'.versions), s.workers, s.issued, s.history,
                     s.results, w, s.workers[w].pc.change, s'.workers[w].pc);
    KeptIsInv(c, init, s, s', w);
  }

  /** Every step of every worker, every failure and every crash keeps the whole invariant. */
  lemma StepKeepsInv(c: Config, init: set<Lock>, s: State, s': State, w: nat, step: Step)
    requires FullInv(c, init, s) && Next(c, s, s', w, step)
    ensures FullInv(c, init, s')
  {
    if UsesLocksOnly(step) {
      LockingKeepsInv(c, init, s, s', w, step);
    } else if Loads(step) {
      LoadingKeepsInv(c, init, s, s', w, step);
      LoadIsPaced(c, s, s', w, step);
      PacedKeepsCalls(c, init, s, s', w);
    } else if Writes(step) {
      WritingKeepsInv(c, init, s, s', w, step);
      WriteIsPaced(c, s, s', w, step);
      PacedKeepsCalls(c, init, s, s', w);
    } else {
      match step
      case FailStep =>
        FailKeepsInv(c, init, s, s', w);
        FailIsPaced(c, s, s', w);
        PacedKeepsCalls(c, init, s, s', w);
      case HitStep => HitKeepsInv(c, init, s, s', w); HitKeepsCalls(c, init, s, s', w);
      case AnswerStep => AnswerKeepsInv(c, init, s, s', w); AnswerKeepsCalls(c, init, s, s', w);
      case RenameStep(info) => RenameKeepsInv(c, init, s, s', w, info);
    }
  }

  lemma InitInv(c: Config, s: State)
    requires Init(c, s)
    ensures FullInv(c, Elems(Locked(c, s).value), s)
  {
    if s.versions != [] {
      SortSorts(c.codec.parse(s.versions[0].data).value);
    }
  }

  // ---- whole runs ----

  /** A run: an initial state and, for every later state, who moved and how. */
  ghost predicate IsRun(c: Config, run: seq<State>, moves: seq<(nat, Step)>) {
    && |run| == |moves| + 1 && Init(c, run[0])
    && forall i :: 0 < i < |run| ==> RunStep(c, run, moves, i)
  }

  ghost predicate RunStep(c: Config, run: seq<State>, moves: seq<(nat, Step)>, i: nat)
    requires |run| == |moves| + 1 && 0 < i < |run|
  {
    Next(c, run[i - 1], run[i], moves[i - 1].0, moves[i - 1].1)
  }

  ghost function Initially(c: Config, run: seq<State>): set<Lock>
    requires |run| > 0
  {
    if Locked(c, run[0]).Some? then Elems(Locked(c, run[0]).value) else {}
  }

  lemma {:induction false} StatesKeepInv(c: Config, init: set<Lock>, run: seq<State>, moves: seq<(nat, Step)>, i: nat)
    requires IsRun(c, run, moves) && i < |run| && FullInv(c, init, run[0])
    ensures FullInv(c, init, run[i])
  {
    if i > 0 {
      StatesKeepInv(c, init, run, moves, i - 1);
      RunStepKeepsInv(c, init, run, moves, i);
    }
  }

  lemma RunStepKeepsInv(c: Config, init: set<Lock>, run: seq<State>, moves: seq<(nat, Step)>, i: nat)
    requires |run| == |moves| + 1 && 0 < i < |run| && RunStep(c, run, moves, i) && FullInv(c, init, run[i - 1])
    ensures FullInv(c, init, run[i])
  {
    StepKeepsInv(c, init, run[i - 1], run[i], moves[i - 1].0, moves[i - 1].1);
  }

  lemma RunKeepsInv(c: Config, run: seq<State>, moves: seq<(nat, Step)>, i: nat)
    requires IsRun(c, run, moves) && i < |run|
    ensures FullInv(c, Initially(c, run), run[i])
  {
    InitInv(c, run[0]);
    StatesKeepInv(c, Initially(c, run), run, moves, i);
  }

  /**
   * In every state of every run the lock file parses to the fold of the commits in rename order over the initial
   * locks, sorted, with unique IDs and paths, and each commit was legal where it was made.
   */
  lemma FileIsFoldOfCommits(c: Config, run: seq<State>, moves: seq<(nat, Step)>, i: nat)
    requires IsRun(c, run, moves) && i < |run|
    ensures var s := run[i];
            && Locked(c, s).Some?
            && Elems(Locked(c, s).value) == Fold(Initially(c, run), s.history)
            && StrictlySorted(Locked(c, s).value) && Unique(Locked(c, s).value)
            && forall k :: 0 <= k < |s.history| ==> LegalAt(c, Initially(c, run), s.history, k)
  {
    RunKeepsInv(c, run, moves, i);
  }

  /**
   * Every finished call is linearised within its own time. A success means that a change the call asked for was
   * committed, once, between its start and its end. Any other outcome means that the call left no trace, and that
   * at some moment between its start and its end its answer was true of the file: the path was locked by that lock,
   * no lock had the ID, the lock had another owner, or the page was cut from just the locks there were. Only a
   * listing needs equal metadata to mean equal bytes; without it the page is still of a state the file had.
   */
  lemma OutcomesTellTheTruth(c: Config, run: seq<State>, moves: seq<(nat, Step)>, i: nat, call: nat)
    requires IsRun(c, run, moves) && i < |run| && call in run[i].results
    ensures var s, init := run[i], Initially(c, run);
            var r := s.results[call];
            && call < |s.issued| && r.since <= r.until <= |s.history|
            && (forall j, k :: 0 <= j < k < |s.history| ==> s.history[j].call != s.history[k].call)
            && (r.outcome.Done? ==>
                  && Matches(s.issued[call], r.outcome.change)
                  && CommittedAs(s.history, r.since, r.until, call, r.outcome.change))
            && (!r.outcome.Done? ==>
                  && !Committed(s.history, call)
                  && TrueBetween(c, init, s.history, 0, r.until, s.issued[call], r.outcome)
                  && (r.outcome.Listed? ==> InfoInv(s.versions) ==>
                        TrueBetween(c, init, s.history, r.since, r.until, s.issued[call], r.outcome))
                  && (!r.outcome.Listed? ==>
                        TrueBetween(c, init, s.history, r.since, r.until, s.issued[call], r.outcome)))
  {
    RunKeepsInv(c, run, moves, i);
    var s := run[i];
    assert ResultInv(WorldOf(c, Initially(c, run), s.versions), s.history, call, s.issued[call], s.results[call]);
  }

  /** Every commit is a change its call asked for, and every call was issued by a step of the run. */
  lemma CommitsWereIssued(c: Config, run: seq<State>, moves: seq<(nat, Step)>, i: nat, k: nat)
    requires IsRun(c, run, moves) && i < |run| && k < |run[i].history|
    ensures AskedFor(run[i].issued, run[i].history[k])
    ensures exists m :: 0 <= m < i && IssuedAt(run, moves, m, run[i].history[k].call, run[i].issued)
  {
    RunKeepsInv(c, run, moves, i);
    assert AskedFor(run[i].issued, run[i].history[k]);
    CallWasIssued(c, run, moves, i, run[i].history[k].call);
  }

  /** Step m of the run issued this call. */
  ghost predicate IssuedAt(run: seq<State>, moves: seq<(nat, Step)>, m: nat, call: nat, issued: seq<Op>) {
    m < |moves| && m < |run| && call < |issued| && |run[m].issued| == call && moves[m].1 == IssueStep(issued[call])
  }

  lemma StepIssues(c: Config, s: State, s': State, w: nat, step: Step)
    requires Next(c, s, s', w, step)
    ensures s'.issued == if step.IssueStep? then s.issued + [step.op] else s.issued
  {
    if Loads(step) {
      LoadIsPaced(c, s, s', w, step);
    } else if Writes(step) {
      WriteIsPaced(c, s, s', w, step);
    } else if step.FailStep? {
      FailIsPaced(c, s, s', w);
    } else if !UsesLocksOnly(step) {
      OtherIssuesNothing(c, s, s', w, step);
    }
  }

  lemma OtherIssuesNothing(c: Config, s: State, s': State, w: nat, step: Step)
    requires Next(c, s, s', w, step) && (step.HitStep? || step.AnswerStep? || step.RenameStep?)
    ensures s'.issued == s.issued
  {}

  lemma {:induction false} CallWasIssued(c: Config, run: seq<State>, moves: seq<(nat, Step)>, i: nat, call: nat)
    requires IsRun(c, run, moves) && i < |run| && call < |run[i].issued|
    ensures exists m :: 0 <= m < i && IssuedAt(run, moves, m, call, run[i].issued)
  {
    assert i > 0;
    assert RunStep(c, run, moves, i);
    StepIssues(c, run[i - 1], run[i], moves[i - 1].0, moves[i - 1].1);
    if call < |run[i - 1].issued| {
      CallWasIssued(c, run, moves, i - 1, call);
      var m :| 0 <= m < i - 1 && IssuedAt(run, moves, m, call, run[i - 1].issued);
      assert IssuedAt(run, moves, m, call, run[i].issued);
    } else {
      assert IssuedAt(run, moves, i - 1, call, run[i].issued);
    }
  }

  /** Only a rename changes the file, and it adds exactly one commit: history is never rewritten. */
  lemma OnlyRenameWrites(c: Config, s: State, s': State, w: nat, step: Step)
    requires Next(c, s, s', w, step)
    ensures step.RenameStep? ==>
              && |s'.versions| == |s.versions| + 1 && s'.versions[..|s.versions|] == s.versions
              && |s'.history| == |s.history| + 1 && s'.history[..|s.history|] == s.history
    ensures !step.RenameStep? ==> s'.versions == s.versions && s'.history == s.history
  {
  }

  lemma {:induction false} HistoryGrows(c: Config, run: seq<State>, moves: seq<(nat, Step)>, i: nat, j: nat)
    requires IsRun(c, run, moves) && i <= j < |run|
    ensures |run[i].history| <= |run[j].history| && run[j].history[..|run[i].history|] == run[i].history
  {
    if i < j {
      HistoryGrows(c, run, moves, i, j - 1);
      assert RunStep(c, run, moves, j);
      OnlyRenameWrites(c, run[j - 1], run[j], moves[j - 1].0, moves[j - 1].1);
      var a, b, n := run[j - 1].history, run[j].history, |run[i].history|;
      assert b[..|a|][..n] == b[..n];
    }
  }

  lemma {:induction false} LeavesByRemoval(init: set<Lock>, h: seq<Commit>, n: nat, l: Lock)
    requires n <= |h| && l in Fold(init, h[..n]) && l !in Fold(init, h)
    ensures exists k :: n <= k < |h| && h[k].change.Removed? && h[k].change.lock == l
  {
    assert h[..|h|] == h;
    var m := |h| - 1;
    if l in Fold(init, h[..m]) {
      assert h[m].change.Removed? && h[m].change.lock == l;
    } else {
      assert h[..m][..n] == h[..n];
      LeavesByRemoval(init, h[..m], n, l);
      var k :| n <= k < m && h[..m][k].change.Removed? && h[..m][k].change.lock == l;
      assert h[k].change.Removed? && h[k].change.lock == l;
    }
  }

  /**
   * No lock is lost: one that was in the file and later is not was removed by a committed unlock, which some step of
   * the run issued for that lock's ID, on behalf of its case-folded owner or of a maintainer who asked to force it.
   */
  lemma LocksLeaveOnlyByUnlock(c: Config, run: seq<State>, moves: seq<(nat, Step)>, i: nat, j: nat, l: Lock)
    requires IsRun(c, run, moves) && i <= j < |run|
    requires Locked(c, run[i]).Some? && l in Locked(c, run[i]).value
    requires Locked(c, run[j]).Some? && l !in Locked(c, run[j]).value
    ensures exists k, m :: UnlockedBy(c, run, moves, i, j, k, m, l)
  {
    FileIsFoldOfCommits(c, run, moves, i);
    FileIsFoldOfCommits(c, run, moves, j);
    HistoryGrows(c, run, moves, i, j);
    var init, h := Initially(c, run), run[j].history;
    assert l in Elems(Locked(c, run[i]).value) && l !in Elems(Locked(c, run[j]).value);
    LeavesByRemoval(init, h, |run[i].history|, l);
    var k :| |run[i].history| <= k < |h| && h[k].change.Removed? && h[k].change.lock == l;
    assert LegalAt(c, init, h, k);
    CommitsWereIssued(c, run, moves, j, k);
    var m :| 0 <= m < j && IssuedAt(run, moves, m, h[k].call, run[j].issued);
    assert UnlockedBy(c, run, moves, i, j, k, m, l);
  }

  /** Commit k, made between states i and j, removes the lock for the call that step m issued. */
  ghost predicate UnlockedBy(c: Config, run: seq<State>, moves: seq<(nat, Step)>, i: nat, j: nat, k: nat, m: nat,
                             l: Lock) {
    && i < |run| && j < |run| && m < j && m < |moves| && |run[i].history| <= k < |run[j].history|
    && run[j].history[k].change.Removed? && run[j].history[k].change.lock == l
    && moves[m].1.IssueStep? && moves[m].1.op.UnlockOp? && |run[m].issued| == run[j].history[k].call
    && var op := moves[m].1.op;
       op.id == l.id && ((op.asked && op.maintainer) || c.fold(l.owner) == c.fold(op.requester))
  }

  // ---- one call of the store is one commit or one answer of the protocol ----

  /** What FileLockStore.Create promises is the protocol's legal addition, or its conflict. */
  lemma CreateIsCommit(c: Config, s: seq<Lock>, after: Option<Text>, lock: Lock, writeFails: bool, r: CreateOutcome)
    requires CreateDecides(c.codec, s, after, lock, writeFails, r) && IsStamped(lock)
    requires forall l :: l in s ==> l.id != lock.id
    ensures var op := CreateOp(lock.path, lock.owner);
            match r
            case Created(l) =>
              && Matches(op, Added(l)) && Legal(c, Elems(s), Added(l))
              && FileLocks(c.codec, after) == Some(Apply(s, Added(l)))
            case Exists(l) => TrueOf(c, Elems(s), op, Conflict(l))
            case CreateFailed => forall l :: l in s ==> !TrueOf(c, Elems(s), op, Conflict(l))
  {}

  /** And what Unlock promises is the legal removal, forced exactly for a maintainer who asked, or its refusal. */
  lemma UnlockIsCommit(c: Config, s: seq<Lock>, after: Option<Text>, id: Text, requester: Text, asked: bool,
                       maintainer: bool, writeFails: bool, r: UnlockOutcome)
    requires UnlockDecides(c.codec, c.fold, s, after, id, requester, asked && maintainer, writeFails, r) && Unique(s)
    ensures var op := UnlockOp(id, requester, asked, maintainer);
            match r
            case Unlocked(l) =>
              var change := Removed(l, requester, asked, maintainer);
              && Matches(op, change) && Legal(c, Elems(s), change)
              && FileLocks(c.codec, after) == Some(Apply(s, change))
            case NotFound => TrueOf(c, Elems(s), op, Missing)
            case NotOwner => TrueOf(c, Elems(s), op, Denied)
            case UnlockFailed => !TrueOf(c, Elems(s), op, Missing) && !TrueOf(c, Elems(s), op, Denied)
  {
    if r.NotOwner? {
      var x :| Holds(s, x) && x.id == id && c.fold(x.owner) != c.fold(requester);
      assert x in Elems(s);
    }
    if r.UnlockFailed? {
      var x :| Holds(s, x) && x.id == id && ((asked && maintainer) || c.fold(x.owner) == c.fold(requester));
      assert x in Elems(s);
      forall l | l in Elems(s) && l.id == id ensures l == x {
        OneOfEachID(s, l, x);
      }
    }
  }
}
