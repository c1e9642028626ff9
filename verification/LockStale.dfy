/** What honest metadata is for: without it, a listing from the cache can miss a lock created before it began. */
module LockStale {
  import opened ByteText
  import opened Locks
  import opened LockCursor
  import opened LockSets
  import opened LockStores
  import opened LockProtocol
  import opened LockRuns

  /** Nobody is running or holds anything. */
  ghost predicate Idle(s: State) {
    s.exclusive == None && s.shared == {} && s.writer == map[] && s.workers == map[]
  }

  /** The last state of a run. */
  ghost function Last(run: seq<State>): State
    requires |run| > 0
  {
    run[|run| - 1]
  }

  lemma RunGoesOn(c: Config, run: seq<State>, moves: seq<(nat, Step)>, s: State, w: nat, step: Step)
    returns (run': seq<State>, moves': seq<(nat, Step)>)
    requires IsRun(c, run, moves) && Next(c, Last(run), s, w, step)
    ensures IsRun(c, run', moves') && Last(run') == s && run'[0] == run[0]
  {
    run', moves' := run + [s], moves + [(w, step)];
    forall i | 0 < i < |run'| ensures RunStep(c, run', moves', i) {
      if i < |run| {
        assert RunStep(c, run, moves, i);
      }
    }
  }

  /** A call that is issued and takes its mutex at once. */
  lemma Begins(c: Config, run: seq<State>, moves: seq<(nat, Step)>, w: nat, op: Op)
    returns (run': seq<State>, moves': seq<(nat, Step)>)
    requires IsRun(c, run, moves) && Idle(Last(run))
    ensures IsRun(c, run', moves') && run'[0] == run[0]
    ensures var s := Last(run);
            Last(run') == s.(issued := s.issued + [op],
                             workers := map[w := Worker(|s.issued|, op, HasMutex, |s.history|)],
                             writer := if op.ListOp? then map[] else map[c.proc(w) := w])
  {
    var s := Last(run);
    var s1 := s.(issued := s.issued + [op], workers := map[w := Worker(|s.issued|, op, Queued, |s.history|)]);
    assert Issue(c, s, s1, w, op);
    run', moves' := RunGoesOn(c, run, moves, s1, w, IssueStep(op));
    var s2 := s1.(workers := map[w := Worker(|s.issued|, op, HasMutex, |s.history|)],
                  writer := if op.ListOp? then map[] else map[c.proc(w) := w]);
    assert TakeMutex(c, s1, s2, w);
    run', moves' := RunGoesOn(c, run', moves', s2, w, TakeMutexStep);
  }

  /** The state with this worker where it is alone. */
  ghost function At1(s: State, w: nat, k: Worker, pc: Pc): State {
    s.(workers := map[w := k.(pc := pc)])
  }

  /** Only worker w is running. */
  ghost predicate Alone(s: State, w: nat, k: Worker) {
    s.workers == map[w := k]
  }

  /** The state once w, alone, has the file lock. */
  ghost function WithFile(s: State, w: nat, k: Worker): State {
    At1(s, w, k, HasFile).(exclusive := if k.op.ListOp? then None else Some(w),
                           shared := if k.op.ListOp? then {w} else {})
  }

  lemma FileStep(c: Config, s: State, w: nat, k: Worker)
    requires Alone(s, w, k) && k.pc == HasMutex && s.exclusive == None && s.shared == {}
    ensures TakeFile(c, s, WithFile(s, w, k), w)
  {
    assert {} + {w} == {w};
  }

  lemma StatStepOf(c: Config, s: State, w: nat, k: Worker, v: Version)
    requires Alone(s, w, k) && k.pc == HasFile && s.versions != [] && v == s.versions[|s.versions| - 1]
    ensures Stat(c, s, At1(s, w, k, Statted(v.info)), w)
  {}

  /** The state once w has read a file that its process does not have in its cache. */
  ghost function AfterRead(c: Config, s: State, w: nat, k: Worker, v: Version, locks: seq<Lock>): State {
    At1(s, w, k, Loaded(locks)).(caches := s.caches[c.proc(w) := Entry(locks, v.data, v.info)])
  }

  lemma ReadStepOf(c: Config, s: State, w: nat, k: Worker, v: Version, locks: seq<Lock>)
    requires Alone(s, w, k) && k.pc == Statted(v.info) && c.proc(w) !in s.caches
    requires s.versions != [] && v == s.versions[|s.versions| - 1]
    requires c.codec.parse(v.data).Some? && locks == Sort(c.codec.parse(v.data).value)
    ensures Read(c, s, AfterRead(c, s, w, k, v, locks), w)
  {}

  lemma Reads(c: Config, run: seq<State>, moves: seq<(nat, Step)>, w: nat, k: Worker, v: Version, locks: seq<Lock>)
    returns (run': seq<State>, moves': seq<(nat, Step)>)
    requires IsRun(c, run, moves) && Alone(Last(run), w, k) && k.pc == HasMutex && c.proc(w) !in Last(run).caches
    requires Last(run).exclusive == None && Last(run).shared == {}
    requires var versions := Last(run).versions; versions != [] && v == versions[|versions| - 1]
    requires c.codec.parse(v.data).Some? && locks == Sort(c.codec.parse(v.data).value)
    ensures IsRun(c, run', moves') && run'[0] == run[0]
    ensures var s := Last(run);
            Last(run') == At1(WithFile(s, w, k), w, k, Loaded(locks)).(
                            caches := s.caches[c.proc(w) := Entry(locks, v.data, v.info)])
  {
    FileStep(c, Last(run), w, k);
    var s1 := WithFile(Last(run), w, k);
    run', moves' := RunGoesOn(c, run, moves, s1, w, TakeFileStep);
    StatStepOf(c, s1, w, k.(pc := HasFile), v);
    var s2, k2 := At1(s1, w, k, Statted(v.info)), k.(pc := Statted(v.info));
    run', moves' := RunGoesOn(c, run', moves', s2, w, StatStep);
    ReadStepOf(c, s2, w, k2, v, locks);
    run', moves' := RunGoesOn(c, run', moves', AfterRead(c, s2, w, k2, v, locks), w, ReadStep);
  }

  /** A finished call lets go of everything. */
  lemma Ends(c: Config, run: seq<State>, moves: seq<(nat, Step)>, w: nat, k: Worker)
    returns (run': seq<State>, moves': seq<(nat, Step)>)
    requires IsRun(c, run, moves) && Alone(Last(run), w, k) && k.pc.Leaving?
    requires Last(run).exclusive in {None, Some(w)} && Last(run).shared <= {w}
    requires Last(run).writer == if k.op.ListOp? then map[] else map[c.proc(w) := w]
    ensures IsRun(c, run', moves') && run'[0] == run[0]
    ensures var s := Last(run);
            Last(run') == s.(workers := map[], exclusive := None, shared := {}, writer := map[],
                             results := s.results[k.call := Record(k.pc.outcome, k.since, |s.history|)])
  {
    var s := Last(run);
    var s' := s.(workers := map[], exclusive := None, shared := {}, writer := map[],
                 results := s.results[k.call := Record(k.pc.outcome, k.since, |s.history|)]);
    assert s.workers - {w} == map[] && s.shared - {w} == {};
    assert Release(c, s, s', w);
    run', moves' := RunGoesOn(c, run, moves, s', w, ReleaseStep);
  }

  /** A listing that reads the file and caches it. */
  lemma ListsFromFile(c: Config, run: seq<State>, moves: seq<(nat, Step)>, w: nat, opts: ListOptions, v: Version,
                      locks: seq<Lock>)
    returns (run': seq<State>, moves': seq<(nat, Step)>)
    requires IsRun(c, run, moves) && Idle(Last(run)) && c.proc(w) !in Last(run).caches
    requires var versions := Last(run).versions; versions != [] && v == versions[|versions| - 1]
    requires c.codec.parse(v.data).Some? && locks == Sort(c.codec.parse(v.data).value)
    ensures IsRun(c, run', moves') && run'[0] == run[0]
    ensures var s := Last(run);
            Last(run') == s.(issued := s.issued + [ListOp(opts)],
                             results := s.results[|s.issued| :=
                               Record(Listed(Listing(locks, opts)), |s.history|, |s.history|)],
                             caches := s.caches[c.proc(w) := Entry(locks, v.data, v.info)])
  {
    var k := Worker(|Last(run).issued|, ListOp(opts), HasMutex, |Last(run).history|);
    run', moves' := Begins(c, run, moves, w, ListOp(opts));
    run', moves' := Reads(c, run', moves', w, k, v, locks);
    var s, pc := Last(run'), Leaving(Listed(Listing(locks, opts)));
    assert Answer(c, s, At1(s, w, k, pc), w);
    run', moves' := RunGoesOn(c, run', moves', At1(s, w, k, pc), w, AnswerStep);
    run', moves' := Ends(c, run', moves', w, k.(pc := pc));
  }

  /** A new lock on its way from the loaded set to the staged bytes. */
  lemma StagingSteps(c: Config, s: State, w: nat, k: Worker, lock: Lock, locks: seq<Lock>, data: Text)
    returns (s1: State, s2: State)
    requires Alone(s, w, k) && k.pc == Loaded([]) && k.op == CreateOp(lock.path, lock.owner) && IsStamped(lock)
    requires lock.id !in s.usedIds && c.proc(w) in s.caches && locks == [lock] && c.codec.marshal(locks) == Some(data)
    ensures ChangeSet(c, s, s1, w, Added(lock)) && Stage(c, s1, s2, w)
    ensures s2 == At1(s, w, k, Staged(locks, Added(lock), data)).(
                    usedIds := s.usedIds + {lock.id},
                    caches := s.caches[c.proc(w) := s.caches[c.proc(w)].(locks := locks)])
  {
    assert Apply([], Added(lock)) == [lock];
    s1 := At1(s, w, k, Changed(locks, Added(lock))).(
      usedIds := s.usedIds + {lock.id}, caches := s.caches[c.proc(w) := s.caches[c.proc(w)].(locks := locks)]);
    s2 := At1(s1, w, k, Staged(locks, Added(lock), data));
  }

  /** The rename, with any metadata, and the stat after it. */
  lemma RenamingSteps(c: Config, s: State, w: nat, k: Worker, info: Info) returns (s1: State, s2: State)
    requires Alone(s, w, k) && k.pc.Staged? && c.proc(w) in s.caches
    ensures Rename(c, s, s1, w, info) && Restat(c, s1, s2, w, true)
    ensures s2 == At1(s, w, k, Leaving(Done(k.pc.change))).(
                    versions := s.versions + [Version(k.pc.data, info)],
                    history := s.history + [Commit(k.call, k.pc.change)],
                    caches := s.caches[c.proc(w) := Entry(k.pc.locks, k.pc.data, info)])
  {
    s1 := At1(s, w, k, Renamed(k.pc.locks, k.pc.change, k.pc.data)).(
      versions := s.versions + [Version(k.pc.data, info)], history := s.history + [Commit(k.call, k.pc.change)]);
    s2 := At1(s1, w, k, Leaving(Done(k.pc.change))).(
      caches := s.caches[c.proc(w) := Entry(k.pc.locks, k.pc.data, info)]);
  }

  /** Once the empty set is loaded, the lock is added and committed under the given metadata. */
  lemma Commits(c: Config, run: seq<State>, moves: seq<(nat, Step)>, w: nat, k: Worker, lock: Lock, data: Text,
                info: Info)
    returns (run': seq<State>, moves': seq<(nat, Step)>)
    requires IsRun(c, run, moves) && Alone(Last(run), w, k) && k.pc == Loaded([])
    requires k.op == CreateOp(lock.path, lock.owner) && IsStamped(lock) && lock.id !in Last(run).usedIds
    requires c.proc(w) in Last(run).caches && c.codec.marshal([lock]) == Some(data)
    ensures IsRun(c, run', moves') && run'[0] == run[0]
    ensures var s := Last(run);
            Last(run') == At1(s, w, k, Leaving(Done(Added(lock)))).(
                            usedIds := s.usedIds + {lock.id},
                            versions := s.versions + [Version(data, info)],
                            history := s.history + [Commit(k.call, Added(lock))],
                            caches := s.caches[c.proc(w) := Entry([lock], data, info)])
  {
    var s1, s2 := StagingSteps(c, Last(run), w, k, lock, [lock], data);
    run', moves' := RunGoesOn(c, run, moves, s1, w, ChangeStep(Added(lock)));
    run', moves' := RunGoesOn(c, run', moves', s2, w, StageStep);
    var s3, s4 := RenamingSteps(c, s2, w, k.(pc := Staged([lock], Added(lock), data)), info);
    run', moves' := RunGoesOn(c, run', moves', s3, w, RenameStep(info));
    run', moves' := RunGoesOn(c, run', moves', s4, w, RestatStep(true));
  }

  /** A whole Create of the first lock, from an idle state with an empty lock file to the next. */
  lemma Creates(c: Config, run: seq<State>, moves: seq<(nat, Step)>, w: nat, v: Version, lock: Lock, data: Text,
                info: Info)
    returns (run': seq<State>, moves': seq<(nat, Step)>)
    requires IsRun(c, run, moves) && Idle(Last(run)) && c.proc(w) !in Last(run).caches
    requires var versions := Last(run).versions; versions != [] && v == versions[|versions| - 1]
    requires c.codec.parse(v.data) == Some([]) && c.codec.marshal([lock]) == Some(data)
    requires IsStamped(lock) && lock.id !in Last(run).usedIds
    ensures IsRun(c, run', moves') && run'[0] == run[0] && Idle(Last(run'))
    ensures var s, s' := Last(run), Last(run');
            && s'.versions == s.versions + [Version(data, info)]
            && s'.history == s.history + [Commit(|s.issued|, Added(lock))]
            && s'.caches == s.caches[c.proc(w) := Entry([lock], data, info)]
            && |s'.issued| == |s.issued| + 1
  {
    var op := CreateOp(lock.path, lock.owner);
    var k := Worker(|Last(run).issued|, op, HasMutex, |Last(run).history|);
    run', moves' := Begins(c, run, moves, w, op);
    run', moves' := Reads(c, run', moves', w, k, v, []);
    run', moves' := Commits(c, run', moves', w, k.(pc := Loaded([])), lock, data, info);
    run', moves' := Ends(c, run', moves', w, k.(pc := Leaving(Done(Added(lock)))));
  }

  /** A listing answered from the cache. */
  lemma ListsFromCache(c: Config, run: seq<State>, moves: seq<(nat, Step)>, w: nat, opts: ListOptions)
    returns (run': seq<State>, moves': seq<(nat, Step)>)
    requires IsRun(c, run, moves) && Idle(Last(run)) && Last(run).versions != [] && c.proc(w) in Last(run).caches
    requires var s := Last(run); s.caches[c.proc(w)].info == s.versions[|s.versions| - 1].info
    ensures IsRun(c, run', moves') && run'[0] == run[0]
    ensures var s := Last(run);
            Last(run') == s.(issued := s.issued + [ListOp(opts)],
                             results := s.results[|s.issued| :=
                               Record(Listed(Listing(s.caches[c.proc(w)].locks, opts)), |s.history|, |s.history|)])
  {
    var k, e := Worker(|Last(run).issued|, ListOp(opts), HasMutex, |Last(run).history|), Last(run).caches[c.proc(w)];
    run', moves' := Begins(c, run, moves, w, ListOp(opts));
    var s, pc := Last(run'), Leaving(Listed(Listing(e.locks, opts)));
    var s1 := At1(s, w, k, Peeked(e));
    assert Peek(c, s, s1, w);
    run', moves' := RunGoesOn(c, run', moves', s1, w, PeekStep);
    assert Hit(c, s1, At1(s1, w, k, pc), w);
    run', moves' := RunGoesOn(c, run', moves', At1(s1, w, k, pc), w, HitStep);
    run', moves' := Ends(c, run', moves', w, k.(pc := pc));
  }

  const ALL := ListOptions([], [], [], 0)

  /** A page of everything is of a set with this one lock only if it has the lock. */
  lemma EmptyPageIsNotIt(lock: Lock, s: seq<Lock>)
    requires StrictlySorted(s) && Elems(s) == {lock}
    ensures Listing(s, ALL) != Some(Page([], []))
  {
    SortedListIsItsSet(s, [lock]);
    FilterNothingIsAll(s);
  }

  /**
   * The metadata hypothesis matters: with any codec that can read an empty lock file and write this lock, there is a
   * run in which another process creates the lock under the metadata that the file already had, and a listing that
   * begins after that is answered from the cache with an empty page, which no moment of its time justifies.
   */
  lemma LyingMetadataMakesListingsStale(c: Config, empty: Text, lock: Lock, info: Info, reader: nat, writer: nat)
    returns (run: seq<State>, moves: seq<(nat, Step)>, call: nat)
    requires CodecLaw(c.codec) && c.codec.parse(empty) == Some([]) && c.codec.marshal([lock]).Some?
    requires IsStamped(lock) && c.proc(reader) != c.proc(writer)
    ensures IsRun(c, run, moves) && call in Last(run).results && call < |Last(run).issued|
    ensures var s := Last(run);
            var r := s.results[call];
            && r.outcome == Listed(Some(Page([], []))) && Locked(c, s) == Some([lock])
            && !TrueBetween(c, Initially(c, run), s.history, r.since, r.until, s.issued[call], r.outcome)
  {
    var v, data := Version(empty, info), c.codec.marshal([lock]).value;
    run, moves := [State([v], None, {}, map[], map[], map[], {}, [], [], map[])], [];
    assert Init(c, run[0]) && Initially(c, run) == {};
    run, moves := ListsFromFile(c, run, moves, reader, ALL, v, []);
    run, moves := Creates(c, run, moves, writer, v, lock, data, info);
    call := |Last(run).issued|;
    run, moves := ListsFromCache(c, run, moves, reader, ALL);
    var s := Last(run);
    WasNotTrue(c, s.history, lock, s.issued[call]);
    SingleReadsBack(c, s.versions, lock, data);
  }

  lemma SingleReadsBack(c: Config, versions: seq<Version>, lock: Lock, data: Text)
    requires CodecLaw(c.codec) && c.codec.marshal([lock]) == Some(data)
    requires versions != [] && versions[|versions| - 1].data == data
    ensures LockedIn(c, versions) == Some([lock])
  {
    SortIsIdempotent([lock]);
  }

  lemma WasNotTrue(c: Config, history: seq<Commit>, lock: Lock, op: Op)
    requires |history| == 1 && history[0].change == Added(lock) && op == ListOp(ALL)
    ensures !TrueBetween(c, {}, history, 1, 1, op, Listed(Some(Page([], []))))
  {
    assert history[..1] == history && history[..0] == [];
    assert Fold({}, history) == {lock};
    forall s | IsListing(s, {lock}, ALL, Some(Page([], []))) ensures false {
      EmptyPageIsNotIt(lock, s);
    }
  }
}
