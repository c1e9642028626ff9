/**
 * What whole runs of LocalStore keep: objects are intact and stay, uploads succeed or fail for a cause and clean up
 * after themselves, and the sweeper takes what is stale and nothing else.
 */
module LocalRuns {
  import opened ByteText
  import opened Names
  import opened LocalStore
  import Paths

  // ---- whole runs ----

  ghost predicate RunStep(cfg: Config, run: seq<State>, moves: seq<(nat, Step)>, i: nat)
    requires |run| == |moves| + 1 && 0 < i < |run|
  {
    Next(cfg, run[i - 1], run[i], moves[i - 1].0, moves[i - 1].1)
  }

  ghost predicate IsRun(cfg: Config, run: seq<State>, moves: seq<(nat, Step)>) {
    && |run| == |moves| + 1 && Init(cfg, run[0])
    && forall i :: 0 < i < |run| ==> RunStep(cfg, run, moves, i)
  }

  lemma {:induction false} RunKeepsInv(cfg: Config, run: seq<State>, moves: seq<(nat, Step)>, i: nat)
    requires IsRun(cfg, run, moves) && i < |run|
    ensures Inv(cfg, run[i])
  {
    if i > 0 {
      RunKeepsInv(cfg, run, moves, i - 1);
      assert RunStep(cfg, run, moves, i);
      StepKeepsInv(cfg, run[i - 1], run[i], moves[i - 1].0, moves[i - 1].1);
    }
  }

  /**
   * In every state of every run, whatever lies at an object's path hashes to the object's ID: also when the sweeper
   * takes the temp file of a running Put away.
   */
  lemma ObjectsHashToTheirName(cfg: Config, run: seq<State>, moves: seq<(nat, Step)>, i: nat, dir: string, oid: string)
    requires IsRun(cfg, run, moves) && i < |run| && Stored(run[i].files, dir, oid)
    ensures Lower(cfg.sha(run[i].files[ObjectPath(dir, oid)].data)) == oid
  {
    RunKeepsInv(cfg, run, moves, i);
  }

  lemma StepKeepsObjects(cfg: Config, s: State, s': State, n: nat, step: Step, dir: string, oid: string)
    requires Inv(cfg, s) && Next(cfg, s, s', n, step) && Stored(s.files, dir, oid)
    ensures Stored(s'.files, dir, oid)
  {
    OnlyMoveChangesObjects(cfg, s, s', n, step);
  }

  /** No stored object is ever removed, by any Put, sweep or crash. */
  lemma {:induction false} ObjectsStay(cfg: Config, run: seq<State>, moves: seq<(nat, Step)>, i: nat, j: nat,
                                       dir: string, oid: string)
    requires IsRun(cfg, run, moves) && i <= j < |run| && Stored(run[i].files, dir, oid)
    ensures Stored(run[j].files, dir, oid)
  {
    if i < j {
      ObjectsStay(cfg, run, moves, i, j - 1, dir, oid);
      RunKeepsInv(cfg, run, moves, j - 1);
      assert RunStep(cfg, run, moves, j);
      StepKeepsObjects(cfg, run[j - 1], run[j], moves[j - 1].0, moves[j - 1].1, dir, oid);
    }
  }

  /**
   * Once a Put has reported success its object is stored, for the rest of the run, and holds bytes with the hash of
   * those the Put was sent: the very same bytes when the hash has no collisions.
   */
  lemma SuccessMeansStored(cfg: Config, run: seq<State>, moves: seq<(nat, Step)>, i: nat, j: nat, f: Finished)
    requires IsRun(cfg, run, moves) && i <= j < |run| && f in run[i].finished && f.ok
    ensures Stored(run[j].files, f.dir, f.oid)
    ensures var data := run[j].files[ObjectPath(f.dir, f.oid)].data;
            && Lower(cfg.sha(data)) == Lower(cfg.sha(f.data)) == f.oid
            && ((forall a, b :: Lower(cfg.sha(a)) == Lower(cfg.sha(b)) ==> a == b) ==> data == f.data)
  {
    RunKeepsInv(cfg, run, moves, i);
    ObjectsStay(cfg, run, moves, i, j, f.dir, f.oid);
    ObjectsHashToTheirName(cfg, run, moves, j, f.dir, f.oid);
  }

  lemma {:induction false} RunKeepsOwners(cfg: Config, run: seq<State>, moves: seq<(nat, Step)>, i: nat)
    requires IsRun(cfg, run, moves) && i < |run| && forall k :: 0 <= k < i ==> PromptAndAlone(cfg, run[k], moves[k].1)
    ensures OwnInv(cfg, run[i])
  {
    if i > 0 {
      RunKeepsOwners(cfg, run, moves, i - 1);
      RunKeepsInv(cfg, run, moves, i - 1);
      assert RunStep(cfg, run, moves, i);
      StepKeepsOwners(cfg, run[i - 1], run[i], moves[i - 1].0, moves[i - 1].1);
    }
  }

  /**
   * As long as no Put has waited the maximum age between creating its temp file and tracking it, and no other process
   * sweeps the directory, the sweeper has condemned no running Put's temp file, and every Put that has neither failed
   * nor finished has its file, holding exactly the bytes it hashed.
   */
  lemma RunningPutsKeepTheirFile(cfg: Config, run: seq<State>, moves: seq<(nat, Step)>, i: nat, n: nat)
    requires IsRun(cfg, run, moves) && i < |run| && n in run[i].puts
    requires forall k :: 0 <= k < i ==> PromptAndAlone(cfg, run[k], moves[k].1)
    ensures var s, p := run[i], run[i].puts[n];
            && (s.sweeper.Some? && s.sweeper.value.phase.Condemned? ==> s.sweeper.value.phase.path != Tmp(p))
            && (Active(p.pc) ==> Tmp(p) in s.files && s.files[Tmp(p)].data == p.hashed)
  {
    RunKeepsInv(cfg, run, moves, i);
    RunKeepsOwners(cfg, run, moves, i);
    assert PutInv(cfg, run[i].files, run[i].used, run[i].puts[n]);
    assert OwnsFile(run[i].files, run[i].writing, run[i].clock, run[i].puts[n]);
  }

  lemma TempIsVisited(dir: string, name: string)
    requires '/' !in name
    ensures IsTempName(LastElement(TempPath(dir, name)))
  {
    LastOf(dir + "/" + TEMP_DIR, TEMP_PREFIX + name, []);
    assert TempPath(dir, name) == dir + "/" + TEMP_DIR + "/" + (TEMP_PREFIX + name);
  }

  // ---- what becomes of an upload ----

  lemma RunGoesOn(cfg: Config, run: seq<State>, moves: seq<(nat, Step)>, s: State, n: nat, step: Step)
    returns (run': seq<State>, moves': seq<(nat, Step)>)
    requires IsRun(cfg, run, moves) && Next(cfg, run[|run| - 1], s, n, step)
    ensures IsRun(cfg, run', moves') && run'[|run'| - 1] == s && run <= run' && moves <= moves'
  {
    run', moves' := run + [s], moves + [(n, step)];
    forall i | 0 < i < |run'| ensures RunStep(cfg, run', moves', i) {
      if i < |run| {
        assert RunStep(cfg, run, moves, i);
      }
    }
  }

  /** The upload has failed or is done and has only to clean up. */
  predicate GaveUp(pc: Pc) {
    pc == Removing || pc == Untracking
  }

  /** What a failed upload can blame: a broken read or write, a wrong hash, a failed rename, a file gone by then. */
  ghost predicate IsCause(cfg: Config, s: State, n: nat, step: Step) {
    && n in s.puts
    && match step
       case BreakStep(_) => true
       case VerifyStep => Lower(cfg.sha(s.puts[n].hashed)) != Lower(s.puts[n].oid)
       case MoveStep(ok) => !ok || Tmp(s.puts[n]) !in s.files
       case _ => false
  }

  /** The two are states of one upload. */
  predicate SameUpload(p: Put, q: Put) {
    p.dir == q.dir && p.oid == q.oid && p.name == q.name
  }

  /** An upload that has given up without moving its file had done so before, or has just had a cause. */
  lemma GivingUpHasCause(cfg: Config, s: State, s': State, w: nat, step: Step, n: nat)
    requires Next(cfg, s, s', w, step) && n in s'.puts && GaveUp(s'.puts[n].pc) && !s'.puts[n].moved
    ensures n in s.puts && SameUpload(s.puts[n], s'.puts[n])
    ensures (GaveUp(s.puts[n].pc) && !s.puts[n].moved) || (w == n && IsCause(cfg, s, n, step))
  {}

  /** Move k of the run is to blame for the upload. */
  ghost predicate CauseAt(cfg: Config, run: seq<State>, moves: seq<(nat, Step)>, k: nat, n: nat, p: Put) {
    && k < |moves| && k < |run| && moves[k].0 == n && IsCause(cfg, run[k], n, moves[k].1)
    && SameUpload(run[k].puts[n], p)
  }

  lemma {:induction false} GaveUpForACause(cfg: Config, run: seq<State>, moves: seq<(nat, Step)>, i: nat, n: nat)
    requires IsRun(cfg, run, moves) && i < |run| && n in run[i].puts
    requires GaveUp(run[i].puts[n].pc) && !run[i].puts[n].moved
    ensures exists k :: 0 <= k < i && CauseAt(cfg, run, moves, k, n, run[i].puts[n])
  {
    assert i > 0;
    assert RunStep(cfg, run, moves, i);
    GivingUpHasCause(cfg, run[i - 1], run[i], moves[i - 1].0, moves[i - 1].1, n);
    var before := run[i - 1].puts[n];
    if GaveUp(before.pc) && !before.moved {
      GaveUpForACause(cfg, run, moves, i - 1, n);
      var k :| 0 <= k < i - 1 && CauseAt(cfg, run, moves, k, n, before);
      assert CauseAt(cfg, run, moves, k, n, run[i].puts[n]);
    } else {
      assert CauseAt(cfg, run, moves, i - 1, n, run[i].puts[n]);
    }
  }

  /**
   * Every upload that ends reports one result: success, and then its object is stored, or failure, and then some step
   * of the run is to blame: a broken read or write, bytes that do not hash to the ID, a rename that failed, or a
   * temporary file that was gone when it was to be renamed.
   */
  lemma UploadsFailForACause(cfg: Config, run: seq<State>, moves: seq<(nat, Step)>, i: nat, n: nat)
    requires IsRun(cfg, run, moves) && 0 < i < |run| && moves[i - 1] == (n, UntrackStep)
    ensures n in run[i - 1].puts
    ensures var p, s := run[i - 1].puts[n], run[i];
            && s.finished == run[i - 1].finished + [Finished(p.dir, p.oid, p.hashed, p.moved)]
            && (p.moved ==> Stored(s.files, p.dir, p.oid) && Lower(cfg.sha(p.hashed)) == p.oid)
            && (!p.moved ==> exists k :: 0 <= k < i && CauseAt(cfg, run, moves, k, n, p))
  {
    assert RunStep(cfg, run, moves, i);
    var p := run[i - 1].puts[n];
    RunKeepsInv(cfg, run, moves, i - 1);
    assert PutInv(cfg, run[i - 1].files, run[i - 1].used, p);
    if !p.moved {
      GaveUpForACause(cfg, run, moves, i - 1, n);
    }
  }

  /** The state with upload n at p, this tree, these used paths and this tracking. */
  function During(s: State, n: nat, p: Put, files: map<string, File>, used: set<string>, writing: set<string>): State {
    s.(files := files, used := used, writing := writing, puts := s.puts[n := p])
  }

  /** The steps of an upload that writes its body and finds it to have the right hash. */
  lemma WritesWell(cfg: Config, run: seq<State>, moves: seq<(nat, Step)>, n: nat, p: Put, data: Text)
    returns (run': seq<State>, moves': seq<(nat, Step)>)
    requires IsRun(cfg, run, moves) && n !in run[|run| - 1].puts && Tmp(p) !in run[|run| - 1].used
    requires IsEndpointDir(p.dir) && IsStoredId(p.oid) && '/' !in p.name && Lower(cfg.sha(data)) == p.oid
    requires p == Put(p.dir, p.oid, p.name, run[|run| - 1].clock, [], Created, false)
    ensures IsRun(cfg, run', moves') && run <= run'
    ensures var s := run[|run| - 1];
            run'[|run'| - 1] == During(s, n, p.(hashed := data, pc := Verified), s.files[Tmp(p) := File(data, s.clock)],
                                       s.used + {Tmp(p)}, s.writing + {Tmp(p)})
  {
    var s, tmp := run[|run| - 1], Tmp(p);
    var files, used, writing := s.files[tmp := File(data, s.clock)], s.used + {tmp}, s.writing + {tmp};
    run', moves' := StartsWell(cfg, run, moves, n, p);
    var s2 := run'[|run'| - 1];
    assert [] + data == data;
    var s3 := During(s, n, p.(hashed := data, pc := Writing), files, used, writing);
    assert Write(s2, s3, n, data);
    run', moves' := RunGoesOn(cfg, run', moves', s3, n, WriteStep(data));
    var s4 := During(s, n, p.(hashed := data, pc := Verified), files, used, writing);
    assert Verify(cfg, s3, s4, n);
    run', moves' := RunGoesOn(cfg, run', moves', s4, n, VerifyStep);
  }

  /** An upload creates its file and tracks it. */
  lemma StartsWell(cfg: Config, run: seq<State>, moves: seq<(nat, Step)>, n: nat, p: Put)
    returns (run': seq<State>, moves': seq<(nat, Step)>)
    requires IsRun(cfg, run, moves) && n !in run[|run| - 1].puts && Tmp(p) !in run[|run| - 1].used
    requires IsEndpointDir(p.dir) && IsStoredId(p.oid) && '/' !in p.name
    requires p == Put(p.dir, p.oid, p.name, run[|run| - 1].clock, [], Created, false)
    ensures IsRun(cfg, run', moves') && run <= run'
    ensures var s := run[|run| - 1];
            run'[|run'| - 1] == During(s, n, p.(pc := Writing), s.files[Tmp(p) := File([], s.clock)],
                                       s.used + {Tmp(p)}, s.writing + {Tmp(p)})
  {
    var s, tmp := run[|run| - 1], Tmp(p);
    var files, used := s.files[tmp := File([], s.clock)], s.used + {tmp};
    var s1 := During(s, n, p, files, used, s.writing);
    assert Start(s, s1, n, p.dir, p.oid, p.name);
    run', moves' := RunGoesOn(cfg, run, moves, s1, n, StartStep(p.dir, p.oid, p.name));
    TrackedKeyIsWalkPath("", p);
    var s2 := During(s, n, p.(pc := Writing), files, used, s.writing + {tmp});
    assert Track(s1, s2, n, "");
    run', moves' := RunGoesOn(cfg, run', moves', s2, n, TrackStep(""));
  }

  /** The steps from there to its success. */
  lemma EndsWell(cfg: Config, run: seq<State>, moves: seq<(nat, Step)>, s: State, n: nat, p: Put, file: File)
    returns (run': seq<State>, moves': seq<(nat, Step)>)
    requires IsRun(cfg, run, moves) && n !in s.puts && Tmp(p) !in s.files && Tmp(p) !in s.writing
    requires IsEndpointDir(p.dir) && IsStoredId(p.oid) && p.pc == Verified
    requires run[|run| - 1]
             == During(s, n, p, s.files[Tmp(p) := file], s.used + {Tmp(p)}, s.writing + {Tmp(p)})
    ensures IsRun(cfg, run', moves') && run <= run'
    ensures run'[|run'| - 1]
            == s.(files := s.files[ObjectPath(p.dir, p.oid) := file],
                  used := s.used + {Tmp(p)} + {ObjectPath(p.dir, p.oid)},
                  finished := s.finished + [Finished(p.dir, p.oid, p.hashed, true)])
  {
    var tmp, dest, writing := Tmp(p), ObjectPath(p.dir, p.oid), s.writing + {Tmp(p)};
    TempIsNoObject(p.dir, p.name, p.dir, p.oid);
    var files, used := s.files[dest := file], s.used + {tmp} + {dest};
    RenamedTree(s.files, p, file);
    var s1 := During(s, n, p.(pc := Removing, moved := true), files, used, writing);
    assert Move(run[|run| - 1], s1, n, true);
    run', moves' := RunGoesOn(cfg, run, moves, s1, n, MoveStep(true));
    assert files - {tmp} == files;
    var s2 := During(s, n, p.(pc := Untracking, moved := true), files, used, writing);
    assert Remove(s1, s2, n, true);
    run', moves' := RunGoesOn(cfg, run', moves', s2, n, RemoveStep(true));
    assert s2.puts - {n} == s.puts && writing - {tmp} == s.writing;
    var s3 := s.(files := files, used := used, finished := s.finished + [Finished(p.dir, p.oid, p.hashed, true)]);
    assert Untrack(s2, s3, n);
    run', moves' := RunGoesOn(cfg, run', moves', s3, n, UntrackStep);
  }

  lemma RenamedTree(files: map<string, File>, p: Put, file: File)
    requires Tmp(p) !in files && |p.oid| == 64 && Tmp(p) != ObjectPath(p.dir, p.oid)
    ensures Renamed(files[Tmp(p) := file], p) == files[ObjectPath(p.dir, p.oid) := file]
  {
    assert files[Tmp(p) := file] - {Tmp(p)} == files;
  }

  /**
   * From every reachable state, an upload of bytes that hash to the ID can go through: it reports success, the object
   * is at its path with those bytes, and nothing else is left behind, in the tree or in the tracking.
   */
  lemma GoodUploadSucceeds(cfg: Config, run: seq<State>, moves: seq<(nat, Step)>, n: nat, dir: string, oid: string,
                           name: string, data: Text)
    returns (run': seq<State>, moves': seq<(nat, Step)>)
    requires IsRun(cfg, run, moves) && n !in run[|run| - 1].puts && TempPath(dir, name) !in run[|run| - 1].used
    requires IsEndpointDir(dir) && IsStoredId(oid) && '/' !in name && Lower(cfg.sha(data)) == oid
    ensures IsRun(cfg, run', moves') && run <= run'
    ensures var s, s', at := run[|run| - 1], run'[|run'| - 1], ObjectPath(dir, oid);
            && s'.files == s.files[at := File(data, s.clock)] && s'.puts == s.puts && s'.writing == s.writing
            && s'.finished == s.finished + [Finished(dir, oid, data, true)]
  {
    var s := run[|run| - 1];
    var p := Put(dir, oid, name, s.clock, [], Created, false);
    RunKeepsInv(cfg, run, moves, |run| - 1);
    run', moves' := WritesWell(cfg, run, moves, n, p, data);
    run', moves' := EndsWell(cfg, run', moves', s, n, p.(hashed := data, pc := Verified), File(data, s.clock));
  }

  // ---- what the sweeper takes ----

  /** The running sweep looks for files as old as it started to look for, or older. */
  ghost predicate CutoffInv(cfg: Config, s: State) {
    s.sweeper.Some? ==> s.sweeper.value.cutoff <= s.clock - cfg.maxAge
  }

  lemma StepKeepsCutoff(cfg: Config, s: State, s': State, n: nat, step: Step)
    requires CutoffInv(cfg, s) && Next(cfg, s, s', n, step)
    ensures CutoffInv(cfg, s')
  {}

  lemma {:induction false} RunKeepsCutoff(cfg: Config, run: seq<State>, moves: seq<(nat, Step)>, i: nat)
    requires IsRun(cfg, run, moves) && i < |run|
    ensures CutoffInv(cfg, run[i])
  {
    if i > 0 {
      RunKeepsCutoff(cfg, run, moves, i - 1);
      assert RunStep(cfg, run, moves, i);
      StepKeepsCutoff(cfg, run[i - 1], run[i], moves[i - 1].0, moves[i - 1].1);
    }
  }

  /** A file is condemned only when it has not been modified for the maximum age. */
  lemma OnlyStaleFilesAreCondemned(cfg: Config, run: seq<State>, moves: seq<(nat, Step)>, i: nat)
    requires IsRun(cfg, run, moves) && 0 < i < |run| && moves[i - 1].1 == InfoStep
    requires run[i].sweeper.Some? && run[i].sweeper.value.phase.Condemned?
    ensures var s, path := run[i - 1], run[i].sweeper.value.phase.path;
            path in s.files && s.files[path].modTime + cfg.maxAge <= s.clock
  {
    RunKeepsCutoff(cfg, run, moves, i - 1);
    assert RunStep(cfg, run, moves, i);
  }

  /**
   * And such a file is taken: from every reachable state without a sweep, a sweep can delete any temporary file that
   * nobody is writing and that has not been modified for the maximum age, leaving everything else alone.
   */
  lemma StaleFilesAreSwept(cfg: Config, run: seq<State>, moves: seq<(nat, Step)>, path: string)
    returns (run': seq<State>, moves': seq<(nat, Step)>)
    requires IsRun(cfg, run, moves) && run[|run| - 1].sweeper == None && path in run[|run| - 1].files
    requires IsTempName(LastElement(path)) && path !in run[|run| - 1].writing
    requires run[|run| - 1].files[path].modTime + cfg.maxAge <= run[|run| - 1].clock
    ensures IsRun(cfg, run', moves') && run <= run'
    ensures var s := run[|run| - 1]; run'[|run'| - 1] == s.(files := s.files - {path})
  {
    var s := run[|run| - 1];
    RunKeepsInv(cfg, run, moves, |run| - 1);
    var cutoff := s.clock - cfg.maxAge;
    run', moves' := RunGoesOn(cfg, run, moves, SweptBy(s, cutoff, Walking), 0, SweepStartStep);
    run', moves' := RunGoesOn(cfg, run', moves', SweptBy(s, cutoff, Checked(path)), 0, VisitStep(path));
    run', moves' := RunGoesOn(cfg, run', moves', SweptBy(s, cutoff, Condemned(path)), 0, InfoStep);
    var s' := s.(files := s.files - {path});
    run', moves' := RunGoesOn(cfg, run', moves', SweptBy(s', cutoff, Walking), 0, DeleteStep(true));
    run', moves' := RunGoesOn(cfg, run', moves', s', 0, SweepEndStep);
  }

  // ---- what a slow Put can suffer ----

  /** A tree with a Put's empty temp file and nothing else, at some time. */
  function JustStarted(p: Put, now: int): State {
    State(map[Tmp(p) := File([], 0)], {Tmp(p)}, {}, map[0 := p], [], None, now)
  }

  function SweptBy(s: State, cutoff: int, phase: Phase): State {
    s.(sweeper := Some(Sweeper(cutoff, phase)))
  }

  /** From nothing to the sweeper about to delete the file of a Put that has not tracked it yet. */
  lemma SlowPutIsCondemned(cfg: Config, p: Put, now: int) returns (run: seq<State>, moves: seq<(nat, Step)>)
    requires IsEndpointDir(p.dir) && IsStoredId(p.oid) && '/' !in p.name && now >= 0 && now >= cfg.maxAge
    requires p == Put(p.dir, p.oid, p.name, 0, [], Created, false)
    ensures IsRun(cfg, run, moves)
    ensures run[|run| - 1] == SweptBy(JustStarted(p, now), now - cfg.maxAge, Condemned(Tmp(p)))
  {
    TempIsVisited(p.dir, p.name);
    var tmp, cutoff, s := Tmp(p), now - cfg.maxAge, JustStarted(p, now);
    var s0 := State(map[], {}, {}, map[], [], None, 0);
    run, moves := [s0], [];
    assert Start(s0, JustStarted(p, 0), 0, p.dir, p.oid, p.name);
    run, moves := RunGoesOn(cfg, run, moves, JustStarted(p, 0), 0, StartStep(p.dir, p.oid, p.name));
    run, moves := RunGoesOn(cfg, run, moves, s, 0, TickStep(now));
    run, moves := RunGoesOn(cfg, run, moves, SweptBy(s, cutoff, Walking), 0, SweepStartStep);
    run, moves := RunGoesOn(cfg, run, moves, SweptBy(s, cutoff, Checked(tmp)), 0, VisitStep(tmp));
    run, moves := RunGoesOn(cfg, run, moves, SweptBy(s, cutoff, Condemned(tmp)), 0, InfoStep);
  }

  /** The state of a Put whose temp file is gone. */
  function Bereft(used: set<string>, writing: set<string>, p: Put, cutoff: int, now: int): State {
    State(map[], used, writing, map[0 := p], [], Some(Sweeper(cutoff, Walking)), now)
  }

  /** Whatever it is sent, a Put whose temp file is gone gets to its rename, which fails. */
  lemma BereftPutFails(cfg: Config, run: seq<State>, moves: seq<(nat, Step)>, p: Put, data: Text, cutoff: int, now: int)
    returns (run': seq<State>, moves': seq<(nat, Step)>)
    requires IsRun(cfg, run, moves) && run[|run| - 1] == Bereft({Tmp(p)}, {}, p, cutoff, now)
    requires p == Put(p.dir, p.oid, p.name, 0, [], Created, false) && IsEndpointDir(p.dir) && '/' !in p.name
    requires IsStoredId(p.oid) && Lower(cfg.sha(data)) == p.oid
    ensures IsRun(cfg, run', moves') && run'[|run'| - 1].files == map[]
    ensures run'[|run'| - 1].finished == [Finished(p.dir, p.oid, data, false)]
  {
    var t := {Tmp(p)};
    TrackedKeyIsWalkPath("", p);
    var s1 := Bereft(t, t, p.(pc := Writing), cutoff, now);
    assert Track(run[|run| - 1], s1, 0, "");
    run', moves' := RunGoesOn(cfg, run, moves, s1, 0, TrackStep(""));
    var q := p.(hashed := data);
    var s2 := Bereft(t, t, q.(pc := Writing), cutoff, now);
    assert [] + data == data;
    assert Write(s1, s2, 0, data);
    run', moves' := RunGoesOn(cfg, run', moves', s2, 0, WriteStep(data));
    var s3 := Bereft(t, t, q.(pc := Verified), cutoff, now);
    assert Verify(cfg, s2, s3, 0);
    run', moves' := RunGoesOn(cfg, run', moves', s3, 0, VerifyStep);
    run', moves' := BereftPutEnds(cfg, run', moves', q.(pc := Verified), cutoff, now);
  }

  lemma BereftPutEnds(cfg: Config, run: seq<State>, moves: seq<(nat, Step)>, p: Put, cutoff: int, now: int)
    returns (run': seq<State>, moves': seq<(nat, Step)>)
    requires IsRun(cfg, run, moves) && run[|run| - 1] == Bereft({Tmp(p)}, {Tmp(p)}, p, cutoff, now)
    requires p.pc == Verified && !p.moved
    ensures IsRun(cfg, run', moves') && run'[|run'| - 1].files == map[]
    ensures run'[|run'| - 1].finished == [Finished(p.dir, p.oid, p.hashed, false)]
  {
    var t, s := {Tmp(p)}, run[|run| - 1];
    var s1 := Bereft(t, t, p.(pc := Removing), cutoff, now);
    assert Move(s, s1, 0, true);
    run', moves' := RunGoesOn(cfg, run, moves, s1, 0, MoveStep(true));
    var s2 := Bereft(t, t, p.(pc := Untracking), cutoff, now);
    assert Remove(s1, s2, 0, false);
    run', moves' := RunGoesOn(cfg, run', moves', s2, 0, RemoveStep(false));
    var s3 := s2.(puts := map[], writing := {}, finished := [Finished(p.dir, p.oid, p.hashed, false)]);
    assert s2.puts - {0} == map[];
    assert Untrack(s2, s3, 0);
    run', moves' := RunGoesOn(cfg, run', moves', s3, 0, UntrackStep);
  }

  /**
   * The wait matters: whatever the maximum age, a Put that is slow to track its file can have it deleted by the sweeper
   * and then fail, although it was sent bytes that hash to its ID; no object is affected.
   */
  lemma SlowPutCanLoseItsFile(cfg: Config, dir: string, oid: string, name: string, data: Text)
    returns (run: seq<State>, moves: seq<(nat, Step)>)
    requires IsEndpointDir(dir) && IsStoredId(oid) && '/' !in name && Lower(cfg.sha(data)) == oid
    ensures IsRun(cfg, run, moves)
    ensures run[|run| - 1].finished == [Finished(dir, oid, data, false)] && run[|run| - 1].files == map[]
  {
    var now, p := if cfg.maxAge > 0 then cfg.maxAge else 0, Put(dir, oid, name, 0, [], Created, false);
    run, moves := SlowPutIsCondemned(cfg, p, now);
    var s := Bereft({Tmp(p)}, {}, p, now - cfg.maxAge, now);
    assert Delete(run[|run| - 1], s, true);
    run, moves := RunGoesOn(cfg, run, moves, s, 0, DeleteStep(true));
    run, moves := BereftPutFails(cfg, run, moves, p, data, now - cfg.maxAge, now);
  }

  // ---- once its file is gone ----

  /** The Put has not moved its file, and the file is gone. */
  ghost predicate IsBereft(s: State, n: nat) {
    n in s.puts && !s.puts[n].moved && Tmp(s.puts[n]) !in s.files
  }

  /** What becomes of such a Put in a step: it stays so, is cut short, or reports failure. */
  ghost predicate StaysBereft(s: State, s': State, n: nat) {
    && IsBereft(s, n)
    && (|| (IsBereft(s', n) && Tmp(s'.puts[n]) == Tmp(s.puts[n]))
        || s'.puts == map[]
        || (n !in s'.puts
            && s'.finished == s.finished + [Finished(s.puts[n].dir, s.puts[n].oid, s.puts[n].hashed, false)]))
  }

  lemma MoveBereft(cfg: Config, s: State, s': State, n: nat, w: nat, ok: bool)
    requires PutsInv(cfg, s.files, s.used, s.puts)
    requires IsBereft(s, n) && Move(s, s', w, ok)
    ensures StaysBereft(s, s', n)
  {
    var p := s.puts[n];
    assert PutInv(cfg, s.files, s.used, p) && PutInv(cfg, s.files, s.used, s.puts[w]);
    TempIsNoObject(p.dir, p.name, s.puts[w].dir, s.puts[w].oid);
  }

  lemma ForeignBereft(cfg: Config, s: State, s': State, n: nat, path: string, file: Option<File>)
    requires PutsInv(cfg, s.files, s.used, s.puts)
    requires IsBereft(s, n) && Foreign(s, s', path, file)
    ensures StaysBereft(s, s', n)
  {
    var p := s.puts[n];
    assert PutInv(cfg, s.files, s.used, p);
    ReservedIsApart(path, p.dir, p.oid, p.name);
  }

  predicate IsUploading(step: Step) {
    step.TrackStep? || step.WriteStep? || step.BreakStep? || step.VerifyStep? || step.RemoveStep? || step.UntrackStep?
  }

  lemma StartBereft(cfg: Config, s: State, s': State, n: nat, w: nat, dir: string, oid: string, name: string)
    requires PutsInv(cfg, s.files, s.used, s.puts)
    requires IsBereft(s, n) && Start(s, s', w, dir, oid, name)
    ensures StaysBereft(s, s', n)
  {
    assert PutInv(cfg, s.files, s.used, s.puts[n]);
    assert Tmp(s.puts[n]) != TempPath(dir, name);
  }

  /** None of these steps puts a file where there was none. */
  lemma UploadingAddsNoFile(cfg: Config, s: State, s': State, w: nat, step: Step)
    requires Next(cfg, s, s', w, step) && IsUploading(step)
    ensures s'.files.Keys <= s.files.Keys
  {}

  lemma PutBereft(cfg: Config, s: State, s': State, n: nat, w: nat, step: Step)
    requires IsBereft(s, n) && Next(cfg, s, s', w, step) && IsUploading(step)
    ensures StaysBereft(s, s', n)
  {
    UploadingAddsNoFile(cfg, s, s', w, step);
    var tmp := Tmp(s.puts[n]);
    assert tmp !in s'.files;
    if !step.UntrackStep? {
      assert s'.puts == s.puts[w := s'.puts[w]] && s'.puts[w].moved == s.puts[w].moved;
      assert Tmp(s'.puts[w]) == Tmp(s.puts[w]);
    }
  }

  lemma OutsideBereft(cfg: Config, s: State, s': State, n: nat, w: nat, step: Step)
    requires IsBereft(s, n) && Next(cfg, s, s', w, step)
    requires !IsUploading(step) && !step.StartStep? && !step.MoveStep? && !step.ForeignStep?
    ensures StaysBereft(s, s', n)
  {}

  /** A Put that has lost its file before moving it never gets it back: it can only be cut short or report failure. */
  lemma LostFileMeansFailure(cfg: Config, s: State, s': State, n: nat, w: nat, step: Step)
    requires Inv(cfg, s) && IsBereft(s, n) && Next(cfg, s, s', w, step)
    ensures StaysBereft(s, s', n)
  {
    if step.MoveStep? {
      MoveBereft(cfg, s, s', n, w, step.moved);
    } else if step.ForeignStep? {
      ForeignBereft(cfg, s, s', n, step.path, step.file);
    } else if step.StartStep? {
      StartBereft(cfg, s, s', n, w, step.dir, step.oid, step.name);
    } else if IsUploading(step) {
      PutBereft(cfg, s, s', n, w, step);
    } else {
      OutsideBereft(cfg, s, s', n, w, step);
    }
  }

  // ---- no upload leaves its temporary file behind ----

  /** Upload n has cleaned up, and its file is gone. */
  ghost predicate IsCleanedUp(s: State, n: nat, tmp: string) {
    n in s.puts && s.puts[n].pc == Untracking && Tmp(s.puts[n]) == tmp && tmp !in s.files
  }

  /** No step puts a file where an upload had its own. */
  lemma NoFileReturns(cfg: Config, s: State, s': State, w: nat, step: Step, p: Put)
    requires Inv(cfg, s) && Next(cfg, s, s', w, step) && PutInv(cfg, s.files, s.used, p) && Tmp(p) !in s.files
    ensures Tmp(p) !in s'.files
  {
    if step.MoveStep? {
      assert PutInv(cfg, s.files, s.used, s.puts[w]);
      TempIsNoObject(p.dir, p.name, s.puts[w].dir, s.puts[w].oid);
    } else if step.ForeignStep? {
      ReservedIsApart(step.path, p.dir, p.oid, p.name);
    } else if step.StartStep? {
      assert Tmp(p) != TempPath(step.dir, step.name);
    } else if IsUploading(step) {
      UploadingAddsNoFile(cfg, s, s', w, step);
    }
  }

  /** An upload that is about to untrack has its file gone, unless its removal failed. */
  lemma CleaningUp(cfg: Config, s: State, s': State, w: nat, step: Step, n: nat)
    requires Inv(cfg, s) && Next(cfg, s, s', w, step) && n in s'.puts && s'.puts[n].pc == Untracking
    ensures n in s.puts && SameUpload(s.puts[n], s'.puts[n])
    ensures || IsCleanedUp(s', n, Tmp(s'.puts[n]))
            || (s.puts[n].pc == Untracking && !IsCleanedUp(s, n, Tmp(s.puts[n])))
            || (w == n && step == RemoveStep(false))
  {
    assert n in s.puts && SameUpload(s.puts[n], s'.puts[n]);
    if IsCleanedUp(s, n, Tmp(s.puts[n])) {
      NoFileReturns(cfg, s, s', w, step, s.puts[n]);
    }
  }

  /** Move k of the run is this upload's failed removal. */
  ghost predicate RemovalFailedAt(run: seq<State>, moves: seq<(nat, Step)>, k: nat, n: nat, p: Put) {
    k < |moves| && k < |run| && moves[k] == (n, RemoveStep(false)) && n in run[k].puts && SameUpload(run[k].puts[n], p)
  }

  lemma {:induction false} CleanedUpUnless(cfg: Config, run: seq<State>, moves: seq<(nat, Step)>, i: nat, n: nat)
    requires IsRun(cfg, run, moves) && i < |run| && n in run[i].puts && run[i].puts[n].pc == Untracking
    ensures || Tmp(run[i].puts[n]) !in run[i].files
            || exists k :: 0 <= k < i && RemovalFailedAt(run, moves, k, n, run[i].puts[n])
  {
    assert i > 0;
    assert RunStep(cfg, run, moves, i);
    RunKeepsInv(cfg, run, moves, i - 1);
    CleaningUp(cfg, run[i - 1], run[i], moves[i - 1].0, moves[i - 1].1, n);
    if Tmp(run[i].puts[n]) in run[i].files {
      if run[i - 1].puts[n].pc == Untracking {
        CleanedUpUnless(cfg, run, moves, i - 1, n);
        var before := run[i - 1].puts[n];
        if k :| 0 <= k < i - 1 && RemovalFailedAt(run, moves, k, n, before) {
          assert RemovalFailedAt(run, moves, k, n, run[i].puts[n]);
        }
      } else {
        assert RemovalFailedAt(run, moves, i - 1, n, run[i].puts[n]);
      }
    }
  }

  /** When an upload ends, well or badly, its temporary file is gone, unless removing it failed. */
  lemma EndedUploadLeavesNoTemp(cfg: Config, run: seq<State>, moves: seq<(nat, Step)>, i: nat, n: nat)
    requires IsRun(cfg, run, moves) && 0 < i < |run| && moves[i - 1] == (n, UntrackStep)
    ensures n in run[i - 1].puts && n !in run[i].puts && Tmp(run[i - 1].puts[n]) !in run[i].writing
    ensures var p := run[i - 1].puts[n];
            Tmp(p) !in run[i].files || exists k :: 0 <= k < i && RemovalFailedAt(run, moves, k, n, p)
  {
    assert RunStep(cfg, run, moves, i);
    CleanedUpUnless(cfg, run, moves, i - 1, n);
  }
}
