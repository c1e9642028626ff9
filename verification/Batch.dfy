/** The batch engine of lfs/batch.go and the space check of lfs/handler.go. */
module Batch {
  import opened ByteText
  import opened Names
  import opened Numbers

  const CONCURRENCY: nat := 16

  datatype Operation = Download | Upload

  datatype Object = Object(oid: string, size: int64)

  /** What storage says about an object's size, and what presigning gives when the backend presigns. */
  datatype Lookup = Found(size: int64) | Absent | LookupFailed

  datatype Presign = NotPresigned | Presigned | TooLargeToPresign | PresignFailed

  datatype Action = DownloadAction | UploadAction | VerifyAction

  datatype Response = Response(oid: string, size: int64, actions: set<Action>, error: Option<int>)

  function NonNegative(size: int64): int64 {
    if size < 0 then 0 else size
  }

  predicate IsValid(obj: Object) {
    IsValidOID(obj.oid) && obj.size >= 0
  }

  function ProcessDownload(obj: Object, lookup: Lookup, presign: Presign): Response {
    var resp := Response(obj.oid, obj.size, {}, None);
    match lookup
    case Absent => resp.(error := Some(404))
    case LookupFailed => resp.(error := Some(500))
    case Found(size) =>
      if size != obj.size then resp.(error := Some(422))
      else if presign == PresignFailed || presign == TooLargeToPresign then resp.(error := Some(500))
      else resp.(actions := {DownloadAction})
  }

  function ProcessUpload(obj: Object, lookup: Lookup, presign: Presign, maxUploadSize: int64): Response {
    var resp := Response(obj.oid, obj.size, {}, None);
    if obj.size > maxUploadSize then resp.(error := Some(422))
    else match lookup
      case Found(size) => if size == obj.size then resp else resp.(error := Some(422))
      case LookupFailed => resp.(error := Some(500))
      case Absent =>
        match presign
        case TooLargeToPresign => resp.(error := Some(422))
        case PresignFailed => resp.(error := Some(500))
        case _ => resp.(actions := {UploadAction, VerifyAction})
  }

  function ProcessObject(op: Operation, obj: Object, lookup: Lookup, presign: Presign, maxUploadSize: int64): Response {
    if !IsValid(obj) then Response(obj.oid, NonNegative(obj.size), {}, Some(422))
    else if op == Download then ProcessDownload(obj, lookup, presign)
    else ProcessUpload(obj, lookup, presign, maxUploadSize)
  }

  /** An upload is offered exactly for a valid object within the limit that storage lacks and can take. */
  lemma UploadOfferedExactlyWhenNeeded(op: Operation, obj: Object, lookup: Lookup, presign: Presign, max: int64)
    ensures var r := ProcessObject(op, obj, lookup, presign, max);
            && (UploadAction in r.actions <==>
                  && op == Upload && IsValid(obj) && obj.size <= max && lookup == Absent
                  && (presign == Presigned || presign == NotPresigned))
            && (UploadAction in r.actions ==> r.size == obj.size >= 0)
            && (r.error.Some? ==> r.actions == {})
            && (r.error.None? && r.actions == {} ==> op == Upload && lookup == Found(obj.size))
            && r.oid == obj.oid && r.size >= 0
  {}

  /** What a valid object is: 64 hexadecimal digits and a size that is not negative. */
  ghost predicate IsProper(obj: Object) {
    |obj.oid| == 64 && (forall c :: c in obj.oid ==> c in HEX_DIGITS) && obj.size >= 0
  }

  /** Storage has the object with another size than the request says. */
  predicate IsMismatch(obj: Object, lookup: Lookup) {
    lookup.Found? && lookup.size != obj.size
  }

  /** Which error each object of a batch gets: 404, 422, 500 or none. */
  lemma ErrorsAreExact(op: Operation, obj: Object, lookup: Lookup, presign: Presign, max: int64)
    ensures var r, proper := ProcessObject(op, obj, lookup, presign, max), IsProper(obj);
            var upload, small := op == Upload, op == Download || obj.size <= max;
            && (r.error == Some(404) <==> proper && !upload && lookup == Absent)
            && (r.error == Some(422) <==>
                  || !proper || !small || IsMismatch(obj, lookup)
                  || (upload && lookup == Absent && presign == TooLargeToPresign))
            && (r.error == Some(500) <==>
                  && proper && small
                  && (|| lookup == LookupFailed
                      || (upload && lookup == Absent && presign == PresignFailed)
                      || (!upload && lookup == Found(obj.size) && presign in {PresignFailed, TooLargeToPresign})))
            && (r.error == None || r.error == Some(404) || r.error == Some(422) || r.error == Some(500))
  {
    ValidIDsAreHex(obj.oid);
  }

  /**
   * Which links each object of a batch gets: a download exactly for a proper object that storage has with the very size
   * asked for, an upload together with its verification exactly for one within the limit that storage lacks.
   */
  lemma LinksAreExact(op: Operation, obj: Object, lookup: Lookup, presign: Presign, max: int64)
    ensures var r, signed := ProcessObject(op, obj, lookup, presign, max), presign in {Presigned, NotPresigned};
            && (DownloadAction in r.actions <==> op == Download && IsProper(obj) && lookup == Found(obj.size) && signed)
            && (UploadAction in r.actions <==>
                  op == Upload && IsProper(obj) && obj.size <= max && lookup == Absent && signed)
            && (VerifyAction in r.actions <==> UploadAction in r.actions)
            && r.oid == obj.oid && r.size == (if IsProper(obj) || obj.size >= 0 then obj.size else 0)
  {
    ValidIDsAreHex(obj.oid);
  }

  // ---- the space check ----

  /** uint64(x): two's complement. */
  function AsUint64(x: int64): (u: int)
    ensures 0 <= u <= MAX_UINT64
  {
    if x < 0 then x + MAX_UINT64 + 1 else x
  }

  /** The exact, unbounded sum of the sizes that were given an upload action. */
  function UploadBytes(objects: seq<Response>): (n: nat) {
    if objects == [] then 0
    else
      var last := objects[|objects| - 1];
      UploadBytes(objects[..|objects| - 1]) + if UploadAction in last.actions then AsUint64(last.size) else 0
  }

  /** hasSpaceFor: the saturating accumulator is the exact sum capped at 2^64 - 1; `available` is None on error. */
  method HasSpaceFor(objects: seq<Response>, available: Option<int>) returns (ok: bool, needed: int)
    requires available.Some? ==> 0 <= available.value <= MAX_UINT64
    ensures needed == Min(UploadBytes(objects), MAX_UINT64)
    ensures ok <==> needed == 0 || available.None? || needed <= available.value
  {
    needed := 0;
    for i := 0 to |objects|
      invariant needed == Min(UploadBytes(objects[..i]), MAX_UINT64)
    {
      assert objects[..i + 1][..i] == objects[..i];
      if UploadAction in objects[i].actions {
        needed := needed + Min(AsUint64(objects[i].size), MAX_UINT64 - needed);
      }
    }
    assert objects[..|objects|] == objects;
    if needed == 0 || available.None? {
      return true, needed;
    }
    ok := needed <= available.value;
  }

  ghost function ExactBytes(objects: seq<Response>): int {
    if objects == [] then 0
    else
      var last := objects[|objects| - 1];
      ExactBytes(objects[..|objects| - 1]) + if UploadAction in last.actions then last.size as int else 0
  }

  /** For answers the engine gives, the cast is harmless: the sum is that of the sizes themselves. */
  lemma {:induction false} CastIsHarmless(objects: seq<Response>)
    requires forall i :: 0 <= i < |objects| && UploadAction in objects[i].actions ==> objects[i].size >= 0
    ensures UploadBytes(objects) == ExactBytes(objects)
  {
    if objects != [] {
      CastIsHarmless(objects[..|objects| - 1]);
    }
  }

  /** The capped comparison decides as the exact one unless storage claims 2^64 - 1 bytes and more are needed. */
  lemma SpaceCheckIsExact(needed: nat, available: int)
    requires 0 <= available <= MAX_UINT64
    ensures (Min(needed, MAX_UINT64) <= available <==> needed <= available)
            <==> available < MAX_UINT64 || needed <= MAX_UINT64
  {}

  // ---- the concurrent loop ----

  datatype Main = Looping(i: nat) | HasSlot(i: nat) | Waiting | Returned

  /**
   * The request loop, the slot channel's fill, the workers that are looking up and those that have answered but not
   * freed their slot, the answers written so far, and whether the client has gone.
   */
  datatype State<R> = State(main: Main, slots: nat, running: set<nat>, leaving: set<nat>, started: nat,
                            answers: map<nat, R>, cancelled: bool)

  datatype Step = Acquire | Spawn | StopEarly | LoopEnd | Return | Answer(k: nat) | FreeSlot(k: nat) | Cancel

  ghost predicate Next<R>(n: nat, f: nat -> R, s: State<R>, s': State<R>, step: Step) {
    match step
    case Acquire =>
      s.main.Looping? && s.main.i < n && s.slots < CONCURRENCY
      && s' == s.(main := HasSlot(s.main.i), slots := s.slots + 1)
    case Spawn =>
      s.main.HasSlot? && !s.cancelled
      && s' == s.(main := Looping(s.main.i + 1), started := s.started + 1, running := s.running + {s.main.i})
    case StopEarly => s.main.HasSlot? && s.cancelled && s' == s.(main := Waiting)
    case LoopEnd => s.main == Looping(n) && s' == s.(main := Waiting)
    case Return => s.main == Waiting && s.running == {} && s.leaving == {} && s' == s.(main := Returned)
    case Answer(k) =>
      k in s.running
      && s' == s.(running := s.running - {k}, leaving := s.leaving + {k}, answers := s.answers[k := f(k)])
    case FreeSlot(k) =>
      k in s.leaving && s.slots > 0 && s' == s.(leaving := s.leaving - {k}, slots := s.slots - 1)
    case Cancel => s' == s.(cancelled := true)
  }

  ghost predicate Init<R>(s: State<R>) {
    s == State(Looping(0), 0, {}, {}, 0, map[], s.cancelled)
  }

  /** The slots in use are the workers' and, once the loop has taken one more, the loop's. */
  ghost predicate Inv<R>(n: nat, f: nat -> R, s: State<R>) {
    && s.started <= n && s.running !! s.leaving
    && (forall k :: k in s.running || k in s.leaving ==> k < s.started)
    && (forall k: nat :: k in s.answers <==> k < s.started && k !in s.running)
    && (forall k :: k in s.answers ==> s.answers[k] == f(k))
    && (s.main.Looping? ==> s.main.i == s.started && s.slots == |s.running| + |s.leaving|)
    && (s.main.HasSlot? ==> s.main.i == s.started < n && s.slots == |s.running| + |s.leaving| + 1)
    && (s.main.Waiting? || s.main.Returned? ==>
          && (s.slots == |s.running| + |s.leaving| || s.slots == |s.running| + |s.leaving| + 1)
          && (s.started == n || s.cancelled))
    && (s.main.Returned? ==> s.running == {} && s.leaving == {})
    && s.slots <= CONCURRENCY
  }

  lemma SpawnKeepsInv<R>(n: nat, f: nat -> R, s: State<R>, s': State<R>)
    requires Inv(n, f, s) && Next(n, f, s, s', Spawn)
    ensures Inv(n, f, s')
  {
    assert s.main.i !in s.running;
    assert |s'.running| == |s.running| + 1;
  }

  lemma WorkerKeepsInv<R>(n: nat, f: nat -> R, s: State<R>, s': State<R>, step: Step)
    requires Inv(n, f, s) && Next(n, f, s, s', step) && (step.Answer? || step.FreeSlot?)
    ensures Inv(n, f, s')
  {
    match step
    case Answer(k) => assert |s'.running| == |s.running| - 1 && |s'.leaving| == |s.leaving| + 1;
    case FreeSlot(k) => assert |s'.leaving| == |s.leaving| - 1;
  }

  lemma StepKeepsInv<R>(n: nat, f: nat -> R, s: State<R>, s': State<R>, step: Step)
    requires Inv(n, f, s) && Next(n, f, s, s', step)
    ensures Inv(n, f, s')
  {
    match step
    case Spawn => SpawnKeepsInv(n, f, s, s');
    case Answer(k) => WorkerKeepsInv(n, f, s, s', step);
    case FreeSlot(k) => WorkerKeepsInv(n, f, s, s', step);
    case _ =>
  }

  /** What is left to do: every step but a cancellation lowers it. */
  function Work<R>(n: nat, s: State<R>): (w: int) {
    (match s.main
     case Looping(i) => 4 * (n - i) + 2
     case HasSlot(i) => 4 * (n - i) + 1
     case Waiting => 1
     case Returned => 0)
    + 2 * |s.running| + |s.leaving|
  }

  lemma StepsMakeProgress<R>(n: nat, f: nat -> R, s: State<R>, s': State<R>, step: Step)
    requires Inv(n, f, s) && Next(n, f, s, s', step)
    ensures 0 <= Work(n, s)
    ensures step == Cancel ==> Work(n, s') == Work(n, s)
    ensures step != Cancel ==> Work(n, s') < Work(n, s)
  {
    match step
    case Spawn => assert |s'.running| == |s.running| + 1;
    case Answer(k) => assert |s'.running| == |s.running| - 1 && |s'.leaving| == |s.leaving| + 1;
    case FreeSlot(k) => assert |s'.leaving| == |s.leaving| - 1;
    case _ =>
  }

  ghost predicate RunStep<R>(n: nat, f: nat -> R, run: seq<State<R>>, steps: seq<Step>, i: nat)
    requires |run| == |steps| + 1 && 0 < i < |run|
  {
    Next(n, f, run[i - 1], run[i], steps[i - 1])
  }

  ghost predicate IsRun<R>(n: nat, f: nat -> R, run: seq<State<R>>, steps: seq<Step>) {
    && |run| == |steps| + 1 && Init(run[0])
    && forall i :: 0 < i < |run| ==> RunStep(n, f, run, steps, i)
  }

  function Moves(steps: seq<Step>): (k: nat) {
    if steps == [] then 0 else Moves(steps[..|steps| - 1]) + if steps[|steps| - 1] == Cancel then 0 else 1
  }

  lemma {:induction false} RunKeepsInv<R>(n: nat, f: nat -> R, run: seq<State<R>>, steps: seq<Step>, i: nat)
    requires IsRun(n, f, run, steps) && i < |run|
    ensures Inv(n, f, run[i])
    ensures Moves(steps[..i]) + Work(n, run[i]) <= 4 * n + 2
  {
    if i > 0 {
      RunKeepsInv(n, f, run, steps, i - 1);
      assert RunStep(n, f, run, steps, i);
      StepKeepsInv(n, f, run[i - 1], run[i], steps[i - 1]);
      StepsMakeProgress(n, f, run[i - 1], run[i], steps[i - 1]);
      assert steps[..i][..i - 1] == steps[..i - 1];
    }
  }

  function Filled<R>(f: nat -> R, count: nat): (r: seq<R>) {
    seq(count, i requires 0 <= i < count => f(i))
  }

  /**
   * For every schedule and every moment of cancellation: at most 16 lookups run at once, and when the call returns
   * every answer of a prefix of the request is in place and correct, the whole request unless it was cancelled.
   */
  lemma BatchEqualsSequentialMap<R>(n: nat, f: nat -> R, run: seq<State<R>>, steps: seq<Step>, i: nat)
    requires IsRun(n, f, run, steps) && i < |run|
    ensures |run[i].running| <= 16
    ensures run[i].main == Returned ==>
              && run[i].started <= n && (!run[i].cancelled ==> run[i].started == n)
              && (forall k :: 0 <= k < run[i].started ==> k in run[i].answers)
              && seq(run[i].started, k requires 0 <= k < run[i].started && k in run[i].answers => run[i].answers[k])
                 == Filled(f, run[i].started)
  {
    RunKeepsInv(n, f, run, steps, i);
  }

  /** The loop never deadlocks: until it returns some step other than a cancellation is possible. */
  lemma NeverStuck<R>(n: nat, f: nat -> R, run: seq<State<R>>, steps: seq<Step>, i: nat)
    returns (step: Step, s': State<R>)
    requires IsRun(n, f, run, steps) && i < |run| && run[i].main != Returned
    ensures step != Cancel && Next(n, f, run[i], s', step)
  {
    RunKeepsInv(n, f, run, steps, i);
    var s := run[i];
    if k :| k in s.running {
      step := Answer(k);
      s' := s.(running := s.running - {k}, leaving := s.leaving + {k}, answers := s.answers[k := f(k)]);
    } else if k :| k in s.leaving {
      assert |s.leaving| > 0;
      step, s' := FreeSlot(k), s.(leaving := s.leaving - {k}, slots := s.slots - 1);
    } else {
      match s.main
      case Looping(j) =>
        if j < n {
          step, s' := Acquire, s.(main := HasSlot(j), slots := s.slots + 1);
        } else {
          step, s' := LoopEnd, s.(main := Waiting);
        }
      case HasSlot(j) =>
        if s.cancelled {
          step, s' := StopEarly, s.(main := Waiting);
        } else {
          step, s' := Spawn, s.(main := Looping(j + 1), started := s.started + 1, running := s.running + {j});
        }
      case Waiting => step, s' := Return, s.(main := Returned);
    }
  }

  /** And it always ends: no run takes more than 4n + 2 steps besides cancellations. */
  lemma RunsAreBounded<R>(n: nat, f: nat -> R, run: seq<State<R>>, steps: seq<Step>)
    requires IsRun(n, f, run, steps)
    ensures Moves(steps) <= 4 * n + 2
  {
    RunKeepsInv(n, f, run, steps, |steps|);
    assert steps[..|steps|] == steps;
    var last := run[|steps|];
    assert Work(n, last) >= 0 by {
      assert last.main.Looping? ==> last.main.i <= n;
    }
  }

  /** The answer for entry k of a request, given what storage and presigning say at the time. */
  function AnswerFor(op: Operation, objects: seq<Object>, lookups: nat -> Lookup, presigns: nat -> Presign, max: int64,
                     k: nat): Response {
    if k < |objects| then ProcessObject(op, objects[k], lookups(k), presigns(k), max)
    else Response("", 0, {}, Some(500))
  }

  /** End to end: whatever prefix a batch returns, its space check adds up the very sizes it offered uploads for. */
  lemma BatchSpaceIsExact(op: Operation, objects: seq<Object>, lookups: nat -> Lookup, presigns: nat -> Presign,
                          max: int64, count: nat)
    ensures var f := (k: nat) => AnswerFor(op, objects, lookups, presigns, max, k);
            UploadBytes(Filled(f, count)) == ExactBytes(Filled(f, count))
  {
    var f := (k: nat) => AnswerFor(op, objects, lookups, presigns, max, k);
    var responses := Filled(f, count);
    forall i | 0 <= i < |responses| && UploadAction in responses[i].actions ensures responses[i].size >= 0 {
      if i < |objects| {
        UploadOfferedExactlyWhenNeeded(op, objects[i], lookups(i), presigns(i), max);
      }
    }
    CastIsHarmless(responses);
  }
}
