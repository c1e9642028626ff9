/** Progress of the lock protocol: some call can always go on, and none goes on for ever. */
module LockProgress {
  import opened ByteText
  import opened Locks
  import opened LockCursor
  import opened LockSets
  import opened LockStores
  import opened LockProtocol
  import opened LockRuns

  /** How many steps of its own a call may still take. */
  function StepsLeft(pc: Pc): nat {
    match pc
    case Queued => 11
    case HasMutex => 10
    case Peeked(_) => 9
    case HasFile => 8
    case Statted(_) => 7
    case Loaded(_) => 6
    case Changed(_, _) => 5
    case Staged(_, _, _) => 4
    case Renamed(_, _, _) => 3
    case Leaving(_) => 1
  }

  /** The call is closer to its end, or at it, and the other calls are where they were. */
  ghost predicate Advances(s: State, s': State, w: nat) {
    && w in s.workers && (w in s'.workers ==> StepsLeft(s'.workers[w].pc) < StepsLeft(s.workers[w].pc))
    && forall v :: v != w ==>
         (v in s'.workers <==> v in s.workers) && (v in s.workers ==> s'.workers[v] == s.workers[v])
  }

  lemma LockingAdvances(c: Config, s: State, s': State, w: nat, step: Step)
    requires Next(c, s, s', w, step) && UsesLocksOnly(step) && !step.IssueStep? && !step.CrashStep?
    ensures Advances(s, s', w)
  {}

  lemma LoadingAdvances(c: Config, s: State, s': State, w: nat, step: Step)
    requires Next(c, s, s', w, step) && Loads(step)
    ensures Advances(s, s', w)
  {}

  lemma WritingAdvances(c: Config, s: State, s': State, w: nat, step: Step)
    requires Next(c, s, s', w, step) && Writes(step)
    ensures Advances(s, s', w)
  {}

  lemma EndingAdvances(c: Config, s: State, s': State, w: nat, step: Step)
    requires Next(c, s, s', w, step) && (step.FailStep? || step.HitStep?)
    ensures Advances(s, s', w)
  {}

  lemma AnswerAdvances(c: Config, s: State, s': State, w: nat)
    requires Answer(c, s, s', w)
    ensures Advances(s, s', w)
  {}

  lemma RenameAdvances(c: Config, s: State, s': State, w: nat, info: Info)
    requires Rename(c, s, s', w, info)
    ensures Advances(s, s', w)
  {}

  /** Every step but an issue or a crash brings one call closer to its end: no call takes more than eleven of them. */
  lemma StepsAdvance(c: Config, s: State, s': State, w: nat, step: Step)
    requires Next(c, s, s', w, step) && !step.IssueStep? && !step.CrashStep?
    ensures Advances(s, s', w)
  {
    if UsesLocksOnly(step) {
      LockingAdvances(c, s, s', w, step);
    } else if Loads(step) {
      LoadingAdvances(c, s, s', w, step);
    } else if Writes(step) {
      WritingAdvances(c, s, s', w, step);
    } else if step.RenameStep? {
      RenameAdvances(c, s, s', w, step.info);
    } else if step.AnswerStep? {
      AnswerAdvances(c, s, s', w);
    } else {
      EndingAdvances(c, s, s', w, step);
    }
  }

  /** The step does what the call is there for; failing is left for a set that JSON cannot encode. */
  ghost predicate GoesAhead(c: Config, s: State, w: nat, step: Step) {
    && w in s.workers && !step.IssueStep? && !step.CrashStep? && !step.GiveUpStep?
    && (step.FailStep? ==> s.workers[w].pc.Changed? && c.codec.marshal(s.workers[w].pc.locks).None?)
  }

  /** A worker that has just taken the file lock can look at the file. */
  lemma ReaderGoesAhead(c: Config, s: State, w: nat) returns (step: Step, s': State)
    requires w in s.workers && (s.workers[w].pc.HasFile? || s.workers[w].pc.Statted?) && LockedIn(c, s.versions).Some?
    requires KnowsFile(c, s.versions, s.usedIds, s.workers[w].op, s.workers[w].pc)
    ensures GoesAhead(c, s, w, step) && Next(c, s, s', w, step)
  {
    var p := c.proc(w);
    if s.workers[w].pc.HasFile? {
      step := StatStep;
      s' := if s.versions == [] then SetPc(s, w, Loaded([])).(caches := s.caches - {p})
            else SetPc(s, w, Statted(s.versions[|s.versions| - 1].info));
    } else {
      step := ReadStep;
      var data, info := s.versions[|s.versions| - 1].data, s.workers[w].pc.info;
      if p in s.caches && s.caches[p].data == data {
        s' := SetPc(s, w, Loaded(s.caches[p].locks)).(caches := s.caches[p := s.caches[p].(info := info)]);
      } else {
        var locks := Sort(c.codec.parse(data).value);
        s' := SetPc(s, w, Loaded(locks)).(caches := s.caches[p := Entry(locks, data, info)]);
      }
    }
  }

  /** A worker that has changed the set can write it, up to the stat after the rename. */
  lemma WriterGoesAhead(c: Config, s: State, w: nat) returns (step: Step, s': State)
    requires w in s.workers && Dirty(s.workers[w].pc)
    requires KnowsFile(c, s.versions, s.usedIds, s.workers[w].op, s.workers[w].pc)
    ensures GoesAhead(c, s, w, step) && Next(c, s, s', w, step)
  {
    var p := c.proc(w);
    match s.workers[w].pc
    case Changed(locks, change) =>
      if c.codec.marshal(locks).Some? {
        step, s' := StageStep, SetPc(s, w, Staged(locks, change, c.codec.marshal(locks).value));
      } else {
        step, s' := FailStep, SetPc(s, w, Leaving(Failed)).(caches := s.caches - {p});
      }
    case Staged(locks, change, data) =>
      var info := Info(0, 0, 0);
      step := RenameStep(info);
      s' := SetPc(s, w, Renamed(locks, change, data)).(
        versions := s.versions + [Version(data, info)], history := s.history + [Commit(s.workers[w].call, change)]);
    case Renamed(locks, change, data) =>
      step, s' := RestatStep(false), SetPc(s, w, Leaving(Done(change))).(caches := s.caches - {p});
  }

  lemma LeaverGoesAhead(c: Config, s: State, w: nat) returns (s': State)
    requires w in s.workers && s.workers[w].pc.Leaving?
    ensures Release(c, s, s', w)
  {
    var k := s.workers[w];
    s' := s.(workers := s.workers - {w}, exclusive := if s.exclusive == Some(w) then None else s.exclusive,
             shared := s.shared - {w}, writer := if k.op.ListOp? then s.writer else s.writer - {c.proc(w)},
             results := s.results[k.call := Finished(s, w, k.pc.outcome)]);
  }

  /** A worker that holds the file lock, or is done, can go on. */
  lemma HolderGoesAhead(c: Config, s: State, w: nat, spare: Lock) returns (step: Step, s': State)
    requires WorkersInv(c, s) && LockedIn(c, s.versions).Some? && HoldsFile(s, w)
    requires IsStamped(spare) && spare.id !in s.usedIds
    ensures GoesAhead(c, s, w, step) && Next(c, s, s', w, step)
  {
    assert KnowsFile(c, s.versions, s.usedIds, s.workers[w].op, s.workers[w].pc);
    if s.workers[w].pc.Leaving? {
      step := ReleaseStep;
      s' := LeaverGoesAhead(c, s, w);
    } else if s.workers[w].pc.Loaded? {
      step, s' := LoadedGoesAhead(c, s, w, spare);
    } else if Dirty(s.workers[w].pc) {
      step, s' := WriterGoesAhead(c, s, w);
    } else {
      step, s' := ReaderGoesAhead(c, s, w);
    }
  }

  /** A worker that has loaded the set has its answer or its change. */
  lemma LoadedGoesAhead(c: Config, s: State, w: nat, spare: Lock) returns (step: Step, s': State)
    requires w in s.workers && s.workers[w].pc.Loaded? && IsStamped(spare) && spare.id !in s.usedIds
    ensures GoesAhead(c, s, w, step) && Next(c, s, s', w, step)
  {
    var op, locks := s.workers[w].op, s.workers[w].pc.locks;
    match op
    case ListOp(opts) => step, s' := AnswerStep, SetPc(s, w, Leaving(Listed(Listing(locks, opts))));
    case CreateOp(path, owner) =>
      if l :| l in locks && l.path == path {
        step, s' := AnswerStep, SetPc(s, w, Leaving(Conflict(l)));
      } else {
        step, s' := ChangeGoesAhead(c, s, w, Added(spare.(path := path, owner := owner)));
      }
    case UnlockOp(id, requester, asked, maintainer) =>
      if l :| l in locks && l.id == id && ((asked && maintainer) || c.fold(l.owner) == c.fold(requester)) {
        step, s' := ChangeGoesAhead(c, s, w, Removed(l, requester, asked, maintainer));
      } else if l :| l in locks && l.id == id {
        step, s' := AnswerStep, SetPc(s, w, Leaving(Denied));
      } else {
        step, s' := AnswerStep, SetPc(s, w, Leaving(Missing));
      }
  }

  lemma ChangeGoesAhead(c: Config, s: State, w: nat, change: Change) returns (step: Step, s': State)
    requires w in s.workers && s.workers[w].pc.Loaded? && Decides(c, s, w, change)
    ensures step == ChangeStep(change) && Next(c, s, s', w, step)
  {
    var p, locks := c.proc(w), Apply(s.workers[w].pc.locks, change);
    step := ChangeStep(change);
    s' := SetPc(s, w, Changed(locks, change)).(
      usedIds := s.usedIds + {change.lock.id},
      caches := if p in s.caches then s.caches[p := s.caches[p].(locks := locks)] else s.caches);
  }

  ghost predicate HoldsFile(s: State, w: nat) {
    w in s.workers && (InFile(s.workers[w].pc) || s.workers[w].pc.Leaving?)
  }

  /** When nobody holds the file lock, a worker that has its mutex can take it. */
  lemma FileIsFree(c: Config, s: State, w: nat) returns (s': State)
    requires FileLockInv(s.exclusive, s.shared, s.workers) && forall v :: !HoldsFile(s, v)
    requires w in s.workers && (s.workers[w].pc.HasMutex? || s.workers[w].pc.Peeked?)
    ensures TakeFile(c, s, s', w)
  {
    if s.exclusive.Some? {
      assert HoldsFile(s, s.exclusive.value);
    }
    if v :| v in s.shared {
      assert HoldsFile(s, v);
    }
    s' := if s.workers[w].op.ListOp? then SetPc(s, w, HasFile).(shared := s.shared + {w})
          else SetPc(s, w, HasFile).(exclusive := Some(w));
  }

  /** When everybody is still queueing, any worker can take its mutex. */
  lemma MutexIsFree(c: Config, s: State, w: nat) returns (s': State)
    requires MutexInv(c, s.writer, s.workers) && w in s.workers
    requires forall v :: v in s.workers ==> s.workers[v].pc.Queued?
    ensures TakeMutex(c, s, s', w)
  {
    var p := c.proc(w);
    s' := if s.workers[w].op.ListOp? then SetPc(s, w, HasMutex)
          else SetPc(s, w, HasMutex).(writer := s.writer[p := w]);
  }

  /** From any state with an unfinished call that the invariant allows. */
  lemma SomeoneGoesAhead(c: Config, init: set<Lock>, s: State, spare: Lock) returns (w: nat, step: Step, s': State)
    requires FileLockInv(s.exclusive, s.shared, s.workers) && MutexInv(c, s.writer, s.workers) && WorkersInv(c, s)
    requires LockedIn(c, s.versions).Some? && s.workers.Keys != {} && IsStamped(spare) && spare.id !in s.usedIds
    ensures GoesAhead(c, s, w, step) && Next(c, s, s', w, step)
  {
    if v :| HoldsFile(s, v) {
      w := v;
      step, s' := HolderGoesAhead(c, s, w, spare);
    } else if v :| v in s.workers && !s.workers[v].pc.Queued? {
      w, step := v, TakeFileStep;
      assert !HoldsFile(s, w);
      s' := FileIsFree(c, s, w);
    } else {
      w :| w in s.workers.Keys;
      step := TakeMutexStep;
      s' := MutexIsFree(c, s, w);
    }
  }

  /**
   * The mutexes and the file lock never deadlock: in every state of every run with an unfinished call some call can go
   * ahead, without giving up or failing (unless JSON cannot encode its set), as long as there is an unused UUID.
   */
  lemma NeverStuck(c: Config, run: seq<State>, moves: seq<(nat, Step)>, i: nat, spare: Lock)
    returns (w: nat, step: Step, s': State)
    requires IsRun(c, run, moves) && i < |run| && run[i].workers.Keys != {}
    requires IsStamped(spare) && spare.id !in run[i].usedIds
    ensures GoesAhead(c, run[i], w, step) && Next(c, run[i], s', w, step)
  {
    RunKeepsInv(c, run, moves, i);
    w, step, s' := SomeoneGoesAhead(c, Initially(c, run), run[i], spare);
  }
}
