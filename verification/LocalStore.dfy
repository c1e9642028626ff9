/**
 * Local content-addressed storage: concurrent Puts, the background sweeper of stale temporary files, and crashes,
 * all interleaving over one directory tree. Paths are relative to the data directory and slash-separated.
 */
module LocalStore {
  import opened ByteText
  import opened Names
  import Paths

  /** The hash as hexadecimal, and how old an untouched temp file must be to be swept. */
  datatype Config = Config(sha: Text -> string, maxAge: int)

  datatype File = File(data: Text, modTime: int)

  datatype Pc = Created | Writing | Verified | Removing | Untracking

  /** `name` is the random part of the temp file's name; `moved` says whether the rename has happened. */
  datatype Put = Put(dir: string, oid: string, name: string, created: int, hashed: Text, pc: Pc, moved: bool)

  /** A finished Put: what it was asked to store, the bytes it hashed, and whether it reported success. */
  datatype Finished = Finished(dir: string, oid: string, data: Text, ok: bool)

  datatype Phase = Walking | Checked(path: string) | Condemned(path: string)

  datatype Sweeper = Sweeper(cutoff: int, phase: Phase)

  /** `used` holds every path that has ever existed: the names CreateTemp picks are random and never repeat. */
  datatype State = State(
    files: map<string, File>,
    used: set<string>,
    writing: set<string>,
    puts: map<nat, Put>,
    finished: seq<Finished>,
    sweeper: Option<Sweeper>,
    clock: int)

  // ---- names ----

  const TEMP_PREFIX := ".tmp-"
  const TEMP_DIR := ".tmp"

  /** The last path element; `run` is the element read so far. */
  function LastFrom(s: string, run: string): string {
    if s == [] then run else if s[0] == '/' then LastFrom(s[1..], []) else LastFrom(s[1..], run + [s[0]])
  }

  function LastElement(path: string): string {
    LastFrom(path, [])
  }

  predicate IsTempName(name: string) {
    TEMP_PREFIX <= name
  }

  /** A Put's temp file, relative to the data directory as the sweeper's walk names it. */
  function Tmp(p: Put): string {
    TempPath(p.dir, p.name)
  }

  /** The full path under which Put creates the file, and from which trackWriting computes its key. */
  function FullTemp(base: string, p: Put): string {
    Paths.Join(base, p.dir + "/.tmp") + "/" + TEMP_PREFIX + p.name
  }

  /** isShardDir: a two-character directory right below an endpoint's directory. */
  predicate IsShardDir(path: string) {
    var endpoint := FirstElement(path);
    && |endpoint| < |path| && endpoint != "locks"
    && var shard := path[|endpoint| + 1..];
       |shard| == 2 && '/' !in shard
  }

  predicate IsEndpointDir(dir: string) {
    IsSafe(dir) && !IsReservedDir(Lower(dir))
  }

  predicate IsStoredId(oid: string) {
    IsValidOID(oid) && Lower(oid) == oid
  }

  // ---- steps ----

  function SetPc(s: State, n: nat, pc: Pc): State
    requires n in s.puts
  {
    s.(puts := s.puts[n := s.puts[n].(pc := pc)])
  }

  /** CreateTemp in the endpoint's upload directory. */
  ghost predicate Start(s: State, s': State, n: nat, dir: string, oid: string, name: string) {
    && n !in s.puts && IsEndpointDir(dir) && IsStoredId(oid) && '/' !in name
    && var p := Put(dir, oid, name, s.clock, [], Created, false);
       && Tmp(p) !in s.used
       && s' == s.(files := s.files[Tmp(p) := File([], s.clock)], used := s.used + {Tmp(p)}, puts := s.puts[n := p])
  }

  /** trackWriting, under the key that Rel gives for the temp file's full path, whatever the data directory is. */
  ghost predicate Track(s: State, s': State, n: nat, base: string) {
    && n in s.puts && s.puts[n].pc == Created
    && var key := Paths.Rel(base, FullTemp(base, s.puts[n]));
       s' == SetPc(s, n, Writing).(writing := if key.Some? then s.writing + {key.value} else s.writing)
  }

  function Append(files: map<string, File>, path: string, chunk: Text, now: int): map<string, File> {
    if path in files then files[path := File(files[path].data + chunk, now)] else files
  }

  /** A chunk reaches the temp file and the hasher. */
  ghost predicate Write(s: State, s': State, n: nat, chunk: Text) {
    && n in s.puts && s.puts[n].pc == Writing
    && s' == s.(files := Append(s.files, Tmp(s.puts[n]), chunk, s.clock),
                puts := s.puts[n := s.puts[n].(hashed := s.puts[n].hashed + chunk)])
  }

  /** Reading, writing, syncing or closing fails; some of the last chunk may be in the file. */
  ghost predicate Break(s: State, s': State, n: nat, partial: Text) {
    && n in s.puts && s.puts[n].pc == Writing
    && s' == SetPc(s, n, Removing).(files := Append(s.files, Tmp(s.puts[n]), partial, s.clock))
  }

  /** The whole body is written and closed: compare its hash with the ID. */
  ghost predicate Verify(cfg: Config, s: State, s': State, n: nat) {
    && n in s.puts && s.puts[n].pc == Writing
    && s' == SetPc(s, n, if Lower(cfg.sha(s.puts[n].hashed)) == Lower(s.puts[n].oid) then Verified else Removing)
  }

  /** The rename fails when it fails, and when the temp file is gone. */
  ghost predicate Move(s: State, s': State, n: nat, ok: bool) {
    && n in s.puts && s.puts[n].pc == Verified
    && var p := s.puts[n];
       s' == if ok && Tmp(p) in s.files
             then s.(files := Renamed(s.files, p), used := s.used + {DestPath(p)},
                     puts := s.puts[n := p.(pc := Removing, moved := true)])
             else SetPc(s, n, Removing)
  }

  function DestPath(p: Put): string {
    if |p.oid| == 64 then ObjectPath(p.dir, p.oid) else ""
  }

  /** The tree after Put p's rename. */
  function Renamed(files: map<string, File>, p: Put): map<string, File>
    requires Tmp(p) in files
  {
    (files - {Tmp(p)})[DestPath(p) := files[Tmp(p)]]
  }

  /** The deferred remove of the temp file; its error is ignored. */
  ghost predicate Remove(s: State, s': State, n: nat, ok: bool) {
    && n in s.puts && s.puts[n].pc == Removing
    && s' == SetPc(s, n, Untracking).(files := if ok then s.files - {Tmp(s.puts[n])} else s.files)
  }

  /** The deferred untrack runs after the remove. */
  ghost predicate Untrack(s: State, s': State, n: nat) {
    && n in s.puts && s.puts[n].pc == Untracking
    && var p := s.puts[n];
       s' == s.(writing := s.writing - {Tmp(p)}, puts := s.puts - {n},
                finished := s.finished + [Finished(p.dir, p.oid, p.hashed, p.moved)])
  }

  ghost predicate Crash(s: State, s': State) {
    s' == s.(writing := {}, puts := map[], sweeper := None)
  }

  /** The lock store and the key file live below names no endpoint may use. */
  ghost predicate Foreign(s: State, s': State, path: string, file: Option<File>) {
    && IsReservedDir(FirstElement(path))
    && s' == if file.Some? then s.(files := s.files[path := file.value], used := s.used + {path})
             else s.(files := s.files - {path})
  }

  ghost predicate Tick(s: State, s': State, now: int) {
    s.clock <= now && s' == s.(clock := now)
  }

  ghost predicate SweepStart(cfg: Config, s: State, s': State) {
    s.sweeper.None? && s' == s.(sweeper := Some(Sweeper(s.clock - cfg.maxAge, Walking)))
  }

  /** The walk meets a temp file, perhaps one from a stale directory listing, that is not in use right now. */
  ghost predicate Visit(s: State, s': State, path: string) {
    && s.sweeper.Some? && s.sweeper.value.phase == Walking
    && path in s.used && IsTempName(LastElement(path)) && path !in s.writing
    && s' == s.(sweeper := Some(s.sweeper.value.(phase := Checked(path))))
  }

  ghost predicate Info(s: State, s': State) {
    && s.sweeper.Some? && s.sweeper.value.phase.Checked?
    && var path := s.sweeper.value.phase.path;
       var stale := path in s.files && s.files[path].modTime <= s.sweeper.value.cutoff;
       s' == s.(sweeper := Some(s.sweeper.value.(phase := if stale then Condemned(path) else Walking)))
  }

  ghost predicate Delete(s: State, s': State, ok: bool) {
    && s.sweeper.Some? && s.sweeper.value.phase.Condemned?
    && s' == s.(files := if ok then s.files - {s.sweeper.value.phase.path} else s.files,
                sweeper := Some(s.sweeper.value.(phase := Walking)))
  }

  /** Another process that sweeps the same directory knows nothing of this one's uploads. */
  ghost predicate ForeignSweep(s: State, s': State, path: string) {
    IsTempName(LastElement(path)) && s' == s.(files := s.files - {path})
  }

  ghost predicate SweepEnd(s: State, s': State) {
    s.sweeper.Some? && s.sweeper.value.phase == Walking && s' == s.(sweeper := None)
  }

  datatype Step = StartStep(dir: string, oid: string, name: string) | TrackStep(base: string) | WriteStep(chunk: Text)
                | BreakStep(partial: Text) | VerifyStep | MoveStep(moved: bool) | RemoveStep(removed: bool)
                | UntrackStep | CrashStep | ForeignStep(path: string, file: Option<File>) | TickStep(now: int)
                | SweepStartStep | VisitStep(visited: string) | InfoStep | DeleteStep(deleted: bool)
                | SweepEndStep | ForeignSweepStep(swept: string)

  ghost predicate Next(cfg: Config, s: State, s': State, n: nat, step: Step) {
    match step
    case StartStep(dir, oid, name) => Start(s, s', n, dir, oid, name)
    case TrackStep(base) => Track(s, s', n, base)
    case WriteStep(chunk) => Write(s, s', n, chunk)
    case BreakStep(partial) => Break(s, s', n, partial)
    case VerifyStep => Verify(cfg, s, s', n)
    case MoveStep(ok) => Move(s, s', n, ok)
    case RemoveStep(ok) => Remove(s, s', n, ok)
    case UntrackStep => Untrack(s, s', n)
    case CrashStep => Crash(s, s')
    case ForeignStep(path, file) => Foreign(s, s', path, file)
    case TickStep(now) => Tick(s, s', now)
    case SweepStartStep => SweepStart(cfg, s, s')
    case VisitStep(path) => Visit(s, s', path)
    case InfoStep => Info(s, s')
    case DeleteStep(ok) => Delete(s, s', ok)
    case SweepEndStep => SweepEnd(s, s')
    case ForeignSweepStep(path) => ForeignSweep(s, s', path)
  }

  // ---- the invariant ----

  /** Every file at an object's path hashes to its own name. */
  ghost predicate ObjectsInv(cfg: Config, files: map<string, File>) {
    forall dir, oid :: Stored(files, dir, oid) ==> Lower(cfg.sha(files[ObjectPath(dir, oid)].data)) == oid
  }

  /** The object with this ID of this endpoint is in the tree. */
  ghost predicate Stored(files: map<string, File>, dir: string, oid: string) {
    IsEndpointDir(dir) && IsStoredId(oid) && ObjectPath(dir, oid) in files
  }

  predicate Active(pc: Pc) {
    pc == Created || pc == Writing || pc == Verified
  }

  /** While a Put is at it, its temp file, if still there, holds exactly the bytes hashed. */
  ghost predicate PutInv(cfg: Config, files: map<string, File>, used: set<string>, p: Put) {
    && IsEndpointDir(p.dir) && IsStoredId(p.oid) && '/' !in p.name && Tmp(p) in used
    && (Active(p.pc) && Tmp(p) in files ==> files[Tmp(p)].data == p.hashed)
    && (p.pc == Verified || p.moved ==> Lower(cfg.sha(p.hashed)) == p.oid)
    && (p.moved ==> !Active(p.pc) && Stored(files, p.dir, p.oid))
  }

  ghost predicate PutsInv(cfg: Config, files: map<string, File>, used: set<string>, puts: map<nat, Put>) {
    && (forall n :: n in puts ==> PutInv(cfg, files, used, puts[n]))
    && (forall n, m :: n in puts && m in puts && n != m ==> Tmp(puts[n]) != Tmp(puts[m]))
  }

  /** What a Put reported as stored is there. */
  ghost predicate FinishedInv(cfg: Config, files: map<string, File>, finished: seq<Finished>) {
    forall f :: f in finished && f.ok ==> Stored(files, f.dir, f.oid) && Lower(cfg.sha(f.data)) == f.oid
  }

  /** The sweeper only ever has its eye on files named like temporary ones. */
  ghost predicate SweeperInv(sweeper: Option<Sweeper>) {
    sweeper.Some? && !sweeper.value.phase.Walking? ==> IsTempName(LastElement(sweeper.value.phase.path))
  }

  ghost predicate Inv(cfg: Config, s: State) {
    && ObjectsInv(cfg, s.files)
    && PutsInv(cfg, s.files, s.used, s.puts)
    && FinishedInv(cfg, s.files, s.finished)
    && SweeperInv(s.sweeper)
    && (forall path :: path in s.files ==> path in s.used)
    && s.writing <= s.used
  }

  /** Nothing runs yet, and whatever objects are there are intact. */
  ghost predicate Init(cfg: Config, s: State) {
    && ObjectsInv(cfg, s.files) && s.writing == {} && s.puts == map[] && s.finished == [] && s.sweeper == None
    && forall path :: path in s.files ==> path in s.used
  }

  // ---- which paths can coincide ----

  lemma {:induction false} LastOf(prefix: string, name: string, run: string)
    requires '/' !in name
    ensures LastFrom(name, run) == run + name
    ensures LastFrom(prefix + "/" + name, run) == name
    decreases |prefix| + |name|, |prefix|
  {
    if name != [] {
      assert name[0] in name;
      LastOf([], name[1..], run + [name[0]]);
      assert run + [name[0]] + name[1..] == run + name;
    }
    if prefix == [] {
      assert prefix + "/" + name == "/" + name;
      assert ("/" + name)[1..] == name;
      if name != [] {
        LastOf([], name[1..], [name[0]]);
        assert [] + [name[0]] == [name[0]];
      }
    } else {
      assert (prefix + "/" + name)[1..] == prefix[1..] + "/" + name;
      LastOf(prefix[1..], name, if prefix[0] == '/' then [] else run + [prefix[0]]);
    }
  }

  /** Objects are never named like temporary files, so the sweeper never visits one. */
  lemma ObjectHasNoTempName(dir: string, oid: string)
    requires IsStoredId(oid)
    ensures !IsTempName(LastElement(ObjectPath(dir, oid)))
  {
    LastOf(dir + "/" + oid[..2] + "/" + oid[2..4], oid, []);
    assert ObjectPath(dir, oid) == dir + "/" + oid[..2] + "/" + oid[2..4] + "/" + oid;
    assert oid[0] != '.';
  }

  lemma TempIsNoObject(dir: string, name: string, dir': string, oid: string)
    requires IsEndpointDir(dir) && IsEndpointDir(dir') && |oid| == 64
    ensures TempPath(dir, name) != ObjectPath(dir', oid)
  {
    ObjectIsNotTemp(dir', dir, oid, name);
  }

  lemma ReservedIsApart(path: string, dir: string, oid: string, name: string)
    requires IsReservedDir(FirstElement(path)) && IsEndpointDir(dir) && |oid| == 64
    ensures path != ObjectPath(dir, oid) && path != TempPath(dir, name)
  {
    SafeHasNoSlash(dir);
    var shard, temp := oid[..2] + "/" + oid[2..4] + "/" + oid, ".tmp/.tmp-" + name;
    assert ObjectPath(dir, oid) == dir + "/" + shard && TempPath(dir, name) == dir + "/" + temp;
    FirstElementOf(dir, shard);
    FirstElementOf(dir, temp);
    ReservedIsLower(dir);
  }

  lemma ReservedIsLower(dir: string)
    ensures IsReservedDir(dir) ==> IsReservedDir(Lower(dir))
  {
    assert Lower("locks") == "locks" && Lower("signing.key") == "signing.key";
  }

  lemma ObjectPathIsInjective(dir: string, oid: string, dir': string, oid': string)
    requires |oid| == |oid'| == 64 && ObjectPath(dir, oid) == ObjectPath(dir', oid')
    ensures dir == dir' && oid == oid'
  {
    var s := ObjectPath(dir, oid);
    assert s[|s| - 64..] == oid == oid';
    assert s[..|s| - 71] == dir == dir';
  }

  /** The tracked key is the path the walk reports, for every data directory and however it is written. */
  lemma TrackedKeyIsWalkPath(base: string, p: Put)
    requires IsEndpointDir(p.dir) && '/' !in p.name
    ensures Paths.Rel(base, FullTemp(base, p)) == Some(Tmp(p))
  {
    var dir, file := TEMP_DIR, TEMP_PREFIX + p.name;
    SafeIsOrdinary(p.dir);
    assert file[1] == 't';
    RelOfThree(base, p.dir, dir, file);
    assert p.dir + "/" + dir == p.dir + "/.tmp";
    assert Tmp(p) == p.dir + "/" + (dir + "/" + file);
    assert FullTemp(base, p) == Paths.Join(base, p.dir + "/" + dir) + "/" + file;
  }

  lemma RelOfThree(base: string, a: string, b: string, c: string)
    requires Paths.IsOrdinary(a) && Paths.IsOrdinary(b) && Paths.IsOrdinary(c)
    ensures Paths.Rel(base, Paths.Join(base, a + "/" + b) + "/" + c) == Some(a + "/" + (b + "/" + c))
  {
    Paths.RelUndoesJoin(base, [a, b], c);
    assert [a, b] + [c] == [a, b, c];
    assert [a, b][1..] == [b] && [a, b, c][1..] == [b, c] && [b, c][1..] == [c];
    assert Paths.Glue([b, c]) == b + "/" + c;
  }

  lemma SafeIsOrdinary(dir: string)
    requires IsSafe(dir)
    ensures Paths.IsOrdinary(dir)
  {
    SafeHasNoSlash(dir);
  }

  lemma {:induction false} FirstIsFirst(s: string)
    ensures FirstElement(s) == Paths.Split(s)[0]
    ensures |FirstElement(s)| <= |s|
    ensures if |FirstElement(s)| == |s| then Paths.Split(s) == [s]
            else s[|FirstElement(s)|] == '/'
                 && Paths.Split(s) == [FirstElement(s)] + Paths.Split(s[|FirstElement(s)| + 1..])
  {
    if s != [] && s[0] != '/' {
      FirstIsFirst(s[1..]);
      assert s == [s[0]] + s[1..];
      var n := |FirstElement(s[1..])|;
      assert n < |s[1..]| ==> s[1..][n + 1..] == s[n + 2..];
    } else if s != [] {
      assert s[0 + 1..] == s[1..];
    }
  }

  lemma OneElement(s: string)
    ensures |Paths.Split(s)| == 1 <==> '/' !in s
  {
    Paths.SplitHasNoSlash(s);
    Paths.GlueUndoesSplit(s);
    if '/' !in s {
      Paths.SplitElement(s);
    }
  }

  /** What the sweeper may skip: exactly two elements, a directory that is not the lock store's and two characters. */
  lemma ShardMeans(path: string)
    ensures IsShardDir(path) <==>
              var elems := Paths.Split(path); |elems| == 2 && elems[0] != "locks" && |elems[1]| == 2
  {
    FirstIsFirst(path);
    var n := |FirstElement(path)|;
    if n < |path| {
      OneElement(path[n + 1..]);
      if '/' !in path[n + 1..] {
        Paths.SplitElement(path[n + 1..]);
      }
    }
  }

  lemma SafeIsNoShard(dir: string, below: string)
    requires '/' !in dir
    ensures !IsShardDir(dir)
    ensures |below| != 2 ==> !IsShardDir(dir + "/" + below)
    ensures dir == "locks" ==> !IsShardDir(dir + "/" + below)
  {
    FirstElementOf(dir, below);
    assert (dir + "/" + below)[|dir| + 1..] == below;
  }

  /** Skipping object shards hides no directory that holds temporary files, for uploads or for locks. */
  lemma ShardsHoldNoTemps(dir: string)
    requires IsSafe(dir)
    ensures !IsShardDir(dir) && !IsShardDir(dir + "/" + TEMP_DIR)
    ensures !IsShardDir("locks") && !IsShardDir("locks" + "/" + dir)
  {
    SafeHasNoSlash(dir);
    SafeIsNoShard(dir, TEMP_DIR);
    SafeIsNoShard("locks", dir);
  }

  // ---- every step keeps it ----

  /** Objects stay intact when every object in the tree either was there unchanged or arrives with its own hash. */
  lemma ObjectsKept(cfg: Config, files: map<string, File>, files': map<string, File>)
    requires ObjectsInv(cfg, files)
    requires forall dir, oid :: Stored(files', dir, oid) ==>
               || (Stored(files, dir, oid) && files'[ObjectPath(dir, oid)] == files[ObjectPath(dir, oid)])
               || Lower(cfg.sha(files'[ObjectPath(dir, oid)].data)) == oid
    ensures ObjectsInv(cfg, files')
  {}

  /** What one Put relies on survives while its temp file is left alone or removed and no object goes. */
  ghost predicate Spared(files: map<string, File>, files': map<string, File>, p: Put) {
    && (Tmp(p) in files' ==> Tmp(p) in files && files'[Tmp(p)] == files[Tmp(p)])
    && (p.moved && Stored(files, p.dir, p.oid) ==> Stored(files', p.dir, p.oid))
  }

  /** Steps that spare every Put but n, and leave n as it must be. */
  lemma OthersKept(cfg: Config, s: State, s': State, n: nat)
    requires PutsInv(cfg, s.files, s.used, s.puts) && s.used <= s'.used && s'.puts - {n} == s.puts - {n}
    requires forall m :: m in s.puts && m != n ==> Spared(s.files, s'.files, s.puts[m])
    requires n in s'.puts ==>
               && PutInv(cfg, s'.files, s'.used, s'.puts[n])
               && forall m :: m in s.puts && m != n ==> Tmp(s.puts[m]) != Tmp(s'.puts[n])
    ensures PutsInv(cfg, s'.files, s'.used, s'.puts)
  {
    forall m | m in s'.puts && m != n
      ensures m in s.puts && s'.puts[m] == s.puts[m] && PutInv(cfg, s'.files, s'.used, s'.puts[m])
    {
      assert m in s'.puts - {n} && (s'.puts - {n})[m] == (s.puts - {n})[m];
      assert PutInv(cfg, s.files, s.used, s.puts[m]) && Spared(s.files, s'.files, s.puts[m]);
    }
  }

  /** No object of files is missing from files'. */
  ghost predicate KeepsObjects(files: map<string, File>, files': map<string, File>) {
    forall dir, oid :: Stored(files, dir, oid) ==> Stored(files', dir, oid)
  }

  /** The objects in both are the same. */
  ghost predicate SameObjects(files: map<string, File>, files': map<string, File>) {
    forall dir, oid :: IsEndpointDir(dir) && IsStoredId(oid) ==>
      var at := ObjectPath(dir, oid);
      (at in files <==> at in files') && (at in files ==> files'[at] == files[at])
  }

  lemma SameObjectsKept(cfg: Config, files: map<string, File>, files': map<string, File>)
    requires ObjectsInv(cfg, files) && SameObjects(files, files')
    ensures ObjectsInv(cfg, files') && KeepsObjects(files, files')
  {
    ObjectsKept(cfg, files, files');
  }

  /** A path that is no object's may change in any way. */
  lemma ElsewhereIsSame(files: map<string, File>, files': map<string, File>, path: string)
    requires files' - {path} == files - {path}
    requires forall dir, oid :: IsEndpointDir(dir) && IsStoredId(oid) ==> ObjectPath(dir, oid) != path
    ensures SameObjects(files, files')
  {
    forall dir, oid | IsEndpointDir(dir) && IsStoredId(oid)
      ensures var at := ObjectPath(dir, oid);
              (at in files <==> at in files') && (at in files ==> files'[at] == files[at])
    {
      var at := ObjectPath(dir, oid);
      assert at in files' <==> at in files' - {path};
      assert at in files ==> (files' - {path})[at] == (files - {path})[at];
    }
  }

  /** Temporary files are apart from objects. */
  lemma TempsAreElsewhere(files: map<string, File>, files': map<string, File>, p: Put)
    requires IsEndpointDir(p.dir) && files' - {Tmp(p)} == files - {Tmp(p)}
    ensures SameObjects(files, files')
  {
    forall dir, oid | IsEndpointDir(dir) && IsStoredId(oid) ensures ObjectPath(dir, oid) != Tmp(p) {
      TempIsNoObject(p.dir, p.name, dir, oid);
    }
    ElsewhereIsSame(files, files', Tmp(p));
  }

  /** A step of Put n within its own temp file. */
  lemma OwnFileKeeps(cfg: Config, s: State, s': State, n: nat)
    requires Inv(cfg, s) && n in s'.puts && IsEndpointDir(s'.puts[n].dir)
    requires s'.puts == s.puts[n := s'.puts[n]] && s'.finished == s.finished && s'.sweeper == s.sweeper
    requires s'.files - {Tmp(s'.puts[n])} == s.files - {Tmp(s'.puts[n])} && s.used <= s'.used
    requires forall m :: m in s.puts && m != n ==> Tmp(s.puts[m]) != Tmp(s'.puts[n])
    requires SameObjects(s.files, s'.files) ==> PutInv(cfg, s'.files, s'.used, s'.puts[n])
    requires s'.writing <= s'.used
    ensures Inv(cfg, s') && SameObjects(s.files, s'.files)
  {
    var tmp := Tmp(s'.puts[n]);
    TempsAreElsewhere(s.files, s'.files, s'.puts[n]);
    SameObjectsKept(cfg, s.files, s'.files);
    forall m | m in s.puts && m != n ensures Spared(s.files, s'.files, s.puts[m]) {
      var t := Tmp(s.puts[m]);
      assert t in s'.files ==> t in s'.files - {tmp};
      assert t in s'.files ==> (s'.files - {tmp})[t] == (s.files - {tmp})[t];
    }
    OthersKept(cfg, s, s', n);
    forall path | path in s'.files ensures path in s'.used {
      assert path != tmp ==> path in s'.files - {tmp};
    }
  }

  lemma StartKeeps(cfg: Config, s: State, s': State, n: nat, dir: string, oid: string, name: string)
    requires Inv(cfg, s) && Start(s, s', n, dir, oid, name)
    ensures Inv(cfg, s') && SameObjects(s.files, s'.files)
  {
    forall m | m in s.puts ensures Tmp(s.puts[m]) != Tmp(s'.puts[n]) {
      assert PutInv(cfg, s.files, s.used, s.puts[m]);
    }
    OwnFileKeeps(cfg, s, s', n);
  }

  lemma WriteKeeps(cfg: Config, s: State, s': State, n: nat, chunk: Text)
    requires Inv(cfg, s) && Write(s, s', n, chunk)
    ensures Inv(cfg, s') && SameObjects(s.files, s'.files)
  {
    assert PutInv(cfg, s.files, s.used, s.puts[n]);
    OwnFileKeeps(cfg, s, s', n);
  }

  lemma BreakKeeps(cfg: Config, s: State, s': State, n: nat, partial: Text)
    requires Inv(cfg, s) && Break(s, s', n, partial)
    ensures Inv(cfg, s') && SameObjects(s.files, s'.files)
  {
    assert PutInv(cfg, s.files, s.used, s.puts[n]);
    OwnFileKeeps(cfg, s, s', n);
  }

  lemma VerifyKeeps(cfg: Config, s: State, s': State, n: nat)
    requires Inv(cfg, s) && Verify(cfg, s, s', n)
    ensures Inv(cfg, s')
  {
    assert PutInv(cfg, s.files, s.used, s.puts[n]);
    OwnFileKeeps(cfg, s, s', n);
  }

  lemma RemoveKeeps(cfg: Config, s: State, s': State, n: nat, ok: bool)
    requires Inv(cfg, s) && Remove(s, s', n, ok)
    ensures Inv(cfg, s') && SameObjects(s.files, s'.files)
  {
    assert PutInv(cfg, s.files, s.used, s.puts[n]);
    OwnFileKeeps(cfg, s, s', n);
  }

  lemma TrackKeeps(cfg: Config, s: State, s': State, n: nat, base: string)
    requires Inv(cfg, s) && Track(s, s', n, base)
    ensures Inv(cfg, s')
  {
    assert PutInv(cfg, s.files, s.used, s.puts[n]);
    TrackedKeyIsWalkPath(base, s.puts[n]);
    OwnFileKeeps(cfg, s, s', n);
  }

  lemma UntrackKeeps(cfg: Config, s: State, s': State, n: nat)
    requires Inv(cfg, s) && Untrack(s, s', n)
    ensures Inv(cfg, s')
  {
    assert PutInv(cfg, s.files, s.used, s.puts[n]);
    OthersKept(cfg, s, s', n);
  }

  /** A rename puts the Put's verified bytes at the object's own path, and changes no other object. */
  lemma MoveKeepsObjects(cfg: Config, files: map<string, File>, p: Put)
    requires ObjectsInv(cfg, files) && IsEndpointDir(p.dir) && IsStoredId(p.oid) && Tmp(p) in files
    requires Lower(cfg.sha(files[Tmp(p)].data)) == p.oid
    ensures ObjectsInv(cfg, Renamed(files, p)) && KeepsObjects(files, Renamed(files, p))
    ensures Stored(Renamed(files, p), p.dir, p.oid)
  {
    var dest, files' := ObjectPath(p.dir, p.oid), Renamed(files, p);
    forall d, o | Stored(files', d, o)
      ensures || (Stored(files, d, o) && files'[ObjectPath(d, o)] == files[ObjectPath(d, o)])
              || Lower(cfg.sha(files'[ObjectPath(d, o)].data)) == o
    {
      if ObjectPath(d, o) == dest {
        ObjectPathIsInjective(d, o, p.dir, p.oid);
      }
    }
    ObjectsKept(cfg, files, files');
    forall d, o | Stored(files, d, o) ensures Stored(files', d, o) {
      TempIsNoObject(p.dir, p.name, d, o);
    }
  }

  lemma MoveSpares(files: map<string, File>, p: Put, q: Put)
    requires IsEndpointDir(p.dir) && IsStoredId(p.oid) && Tmp(p) in files
    requires IsEndpointDir(q.dir) && Tmp(q) != Tmp(p) && KeepsObjects(files, Renamed(files, p))
    ensures Spared(files, Renamed(files, p), q)
  {
    TempIsNoObject(q.dir, q.name, p.dir, p.oid);
  }

  lemma MoveKeeps(cfg: Config, s: State, s': State, n: nat, ok: bool)
    requires Inv(cfg, s) && Move(s, s', n, ok)
    ensures Inv(cfg, s')
  {
    var p := s.puts[n];
    assert PutInv(cfg, s.files, s.used, p);
    if ok && Tmp(p) in s.files {
      MoveKeepsObjects(cfg, s.files, p);
      forall m | m in s.puts && m != n ensures Spared(s.files, s'.files, s.puts[m]) {
        assert PutInv(cfg, s.files, s.used, s.puts[m]);
        MoveSpares(s.files, p, s.puts[m]);
      }
      OthersKept(cfg, s, s', n);
    } else {
      OwnFileKeeps(cfg, s, s', n);
    }
  }

  /** Steps outside every Put that change no object and spare the temp files. */
  lemma OutsideKeeps(cfg: Config, s: State, s': State)
    requires Inv(cfg, s) && s'.puts == s.puts && s'.finished == s.finished && s.used <= s'.used
    requires SameObjects(s.files, s'.files) && SweeperInv(s'.sweeper)
    requires forall m :: m in s.puts && Tmp(s.puts[m]) in s'.files ==>
               Tmp(s.puts[m]) in s.files && s'.files[Tmp(s.puts[m])] == s.files[Tmp(s.puts[m])]
    requires forall path :: path in s'.files ==> path in s'.used
    requires s'.writing <= s'.used
    ensures Inv(cfg, s')
  {
    SameObjectsKept(cfg, s.files, s'.files);
    forall m | m in s.puts ensures PutInv(cfg, s'.files, s'.used, s'.puts[m]) {
      assert PutInv(cfg, s.files, s.used, s.puts[m]);
    }
  }

  lemma ForeignKeeps(cfg: Config, s: State, s': State, path: string, file: Option<File>)
    requires Inv(cfg, s) && Foreign(s, s', path, file)
    ensures Inv(cfg, s') && SameObjects(s.files, s'.files)
  {
    forall dir, oid | IsEndpointDir(dir) && IsStoredId(oid) ensures ObjectPath(dir, oid) != path {
      ReservedIsApart(path, dir, oid, "");
    }
    assert s'.files - {path} == s.files - {path};
    ElsewhereIsSame(s.files, s'.files, path);
    forall m | m in s.puts ensures Tmp(s.puts[m]) != path {
      assert PutInv(cfg, s.files, s.used, s.puts[m]);
      ReservedIsApart(path, s.puts[m].dir, s.puts[m].oid, s.puts[m].name);
    }
    OutsideKeeps(cfg, s, s');
  }

  /** Removing a file named like a temporary one may take it away from a Put, but is never an object. */
  lemma TempRemovalKeeps(cfg: Config, s: State, s': State, path: string)
    requires Inv(cfg, s) && IsTempName(LastElement(path)) && SweeperInv(s'.sweeper)
    requires s' == s.(files := s'.files, sweeper := s'.sweeper) && s'.files in {s.files, s.files - {path}}
    ensures Inv(cfg, s') && SameObjects(s.files, s'.files)
  {
    forall dir, oid | IsEndpointDir(dir) && IsStoredId(oid) ensures ObjectPath(dir, oid) != path {
      ObjectHasNoTempName(dir, oid);
    }
    assert s'.files - {path} == s.files - {path};
    ElsewhereIsSame(s.files, s'.files, path);
    OutsideKeeps(cfg, s, s');
  }

  lemma DeleteKeeps(cfg: Config, s: State, s': State, ok: bool)
    requires Inv(cfg, s) && Delete(s, s', ok)
    ensures Inv(cfg, s') && SameObjects(s.files, s'.files)
  {
    TempRemovalKeeps(cfg, s, s', s.sweeper.value.phase.path);
  }

  lemma ForeignSweepKeeps(cfg: Config, s: State, s': State, path: string)
    requires Inv(cfg, s) && ForeignSweep(s, s', path)
    ensures Inv(cfg, s') && SameObjects(s.files, s'.files)
  {
    TempRemovalKeeps(cfg, s, s', path);
  }

  /** Every step of every Put, of the sweeper, of the clock and of a crash keeps the invariant. */
  lemma StepKeepsInv(cfg: Config, s: State, s': State, n: nat, step: Step)
    requires Inv(cfg, s) && Next(cfg, s, s', n, step)
    ensures Inv(cfg, s')
  {
    match step
    case StartStep(dir, oid, name) => StartKeeps(cfg, s, s', n, dir, oid, name);
    case TrackStep(base) => TrackKeeps(cfg, s, s', n, base);
    case WriteStep(chunk) => WriteKeeps(cfg, s, s', n, chunk);
    case BreakStep(partial) => BreakKeeps(cfg, s, s', n, partial);
    case VerifyStep => VerifyKeeps(cfg, s, s', n);
    case MoveStep(ok) => MoveKeeps(cfg, s, s', n, ok);
    case RemoveStep(ok) => RemoveKeeps(cfg, s, s', n, ok);
    case UntrackStep => UntrackKeeps(cfg, s, s', n);
    case ForeignStep(path, file) => ForeignKeeps(cfg, s, s', path, file);
    case DeleteStep(ok) => DeleteKeeps(cfg, s, s', ok);
    case ForeignSweepStep(path) => ForeignSweepKeeps(cfg, s, s', path);
    case VisitStep(path) =>
    case InfoStep =>
    case CrashStep =>
    case TickStep(now) =>
    case SweepStartStep =>
    case SweepEndStep =>
  }

  /** The object Put p was asked to store now holds the bytes it hashed, which have its ID; the other objects stayed. */
  ghost predicate StoredJust(cfg: Config, files: map<string, File>, files': map<string, File>, p: Put) {
    && Stored(files', p.dir, p.oid) && files'[ObjectPath(p.dir, p.oid)].data == p.hashed
    && Lower(cfg.sha(p.hashed)) == p.oid
    && forall dir, oid :: IsEndpointDir(dir) && IsStoredId(oid) && (dir, oid) != (p.dir, p.oid) ==>
         var at := ObjectPath(dir, oid);
         (at in files <==> at in files') && (at in files ==> files'[at] == files[at])
  }

  /** Only a Put's successful rename changes any object, and it changes just its own, to the bytes the Put hashed. */
  lemma OnlyMoveChangesObjects(cfg: Config, s: State, s': State, n: nat, step: Step)
    requires Inv(cfg, s) && Next(cfg, s, s', n, step)
    ensures || SameObjects(s.files, s'.files)
            || (step.MoveStep? && n in s.puts && StoredJust(cfg, s.files, s'.files, s.puts[n]))
  {
    if step.MoveStep? {
      MoveChanges(cfg, s, s', n, step.moved);
    } else if step.ForeignStep? || step.DeleteStep? || step.ForeignSweepStep? {
      OutsideSame(cfg, s, s', n, step);
    } else {
      UploadSame(cfg, s, s', n, step);
    }
  }

  lemma OutsideSame(cfg: Config, s: State, s': State, n: nat, step: Step)
    requires Inv(cfg, s) && Next(cfg, s, s', n, step)
    requires step.ForeignStep? || step.DeleteStep? || step.ForeignSweepStep?
    ensures SameObjects(s.files, s'.files)
  {
    match step
    case ForeignStep(path, file) => ForeignKeeps(cfg, s, s', path, file);
    case DeleteStep(ok) => DeleteKeeps(cfg, s, s', ok);
    case ForeignSweepStep(path) => ForeignSweepKeeps(cfg, s, s', path);
  }

  lemma UploadSame(cfg: Config, s: State, s': State, n: nat, step: Step)
    requires Inv(cfg, s) && Next(cfg, s, s', n, step)
    requires !step.MoveStep? && !step.ForeignStep? && !step.DeleteStep? && !step.ForeignSweepStep?
    ensures SameObjects(s.files, s'.files)
  {
    match step
    case StartStep(dir, oid, name) => StartKeeps(cfg, s, s', n, dir, oid, name);
    case WriteStep(chunk) => WriteKeeps(cfg, s, s', n, chunk);
    case BreakStep(partial) => BreakKeeps(cfg, s, s', n, partial);
    case RemoveStep(ok) => RemoveKeeps(cfg, s, s', n, ok);
    case _ =>
  }

  lemma MoveChanges(cfg: Config, s: State, s': State, n: nat, ok: bool)
    requires Inv(cfg, s) && Move(s, s', n, ok)
    ensures s'.files == s.files || StoredJust(cfg, s.files, s'.files, s.puts[n])
  {
    var p := s.puts[n];
    assert PutInv(cfg, s.files, s.used, p);
    if ok && Tmp(p) in s.files {
      forall dir, oid | IsEndpointDir(dir) && IsStoredId(oid) && (dir, oid) != (p.dir, p.oid)
        ensures ObjectPath(dir, oid) != Tmp(p) && ObjectPath(dir, oid) != ObjectPath(p.dir, p.oid)
      {
        TempIsNoObject(p.dir, p.name, dir, oid);
        if ObjectPath(dir, oid) == ObjectPath(p.dir, p.oid) {
          ObjectPathIsInjective(dir, oid, p.dir, p.oid);
        }
      }
    }
  }

  // ---- the temp files of running Puts, while none waits too long between creating and tracking its file ----

  /** No Put has waited the sweeper's maximum age between creating its temp file and tracking it. */
  ghost predicate Prompt(cfg: Config, s: State) {
    forall n :: n in s.puts && s.puts[n].pc == Created ==> s.clock - s.puts[n].created < cfg.maxAge
  }

  /** And no other process sweeps the directory in this step. */
  ghost predicate PromptAndAlone(cfg: Config, s: State, step: Step) {
    Prompt(cfg, s) && !step.ForeignSweepStep?
  }

  /** A Put that has not given up has its temp file, tracked once it writes, never older than the Put. */
  ghost predicate OwnsFile(files: map<string, File>, writing: set<string>, clock: int, p: Put) {
    && p.created <= clock
    && (p.pc != Created ==> Tmp(p) in writing)
    && (Active(p.pc) ==> Tmp(p) in files)
    && (Tmp(p) in files ==> p.created <= files[Tmp(p)].modTime)
  }

  /** The sweeper has condemned only what no Put owns; a Put's file it has just checked is younger than its cutoff. */
  ghost predicate SparesOwned(cfg: Config, sweeper: Option<Sweeper>, puts: map<nat, Put>, clock: int,
                              used: set<string>) {
    sweeper.Some? ==>
      var w := sweeper.value;
      && w.cutoff <= clock - cfg.maxAge
      && (!w.phase.Walking? ==> w.phase.path in used)
      && (w.phase.Checked? ==> forall n :: n in puts && Tmp(puts[n]) == w.phase.path ==> w.cutoff < puts[n].created)
      && (w.phase.Condemned? ==> forall n :: n in puts ==> Tmp(puts[n]) != w.phase.path)
  }

  ghost predicate OwnInv(cfg: Config, s: State) {
    && (forall n :: n in s.puts ==> OwnsFile(s.files, s.writing, s.clock, s.puts[n]))
    && SparesOwned(cfg, s.sweeper, s.puts, s.clock, s.used)
  }

  /** A step of Put n leaves the files and the tracking of the others alone. */
  ghost predicate LeavesOthers(s: State, s': State, n: nat) {
    && s'.clock == s.clock && s'.puts - {n} == s.puts - {n}
    && forall m :: m in s.puts && m != n ==>
         var tmp := Tmp(s.puts[m]);
         && (tmp in s.files <==> tmp in s'.files) && (tmp in s.files ==> s'.files[tmp] == s.files[tmp])
         && (tmp in s.writing ==> tmp in s'.writing)
  }

  lemma OthersOwn(cfg: Config, s: State, s': State, n: nat)
    requires OwnInv(cfg, s) && LeavesOthers(s, s', n)
    requires n in s'.puts ==> OwnsFile(s'.files, s'.writing, s'.clock, s'.puts[n])
    ensures forall m :: m in s'.puts ==> OwnsFile(s'.files, s'.writing, s'.clock, s'.puts[m])
  {
    forall m | m in s'.puts && m != n ensures OwnsFile(s'.files, s'.writing, s'.clock, s'.puts[m]) {
      assert m in s'.puts - {n} && (s'.puts - {n})[m] == (s.puts - {n})[m];
      assert OwnsFile(s.files, s.writing, s.clock, s.puts[m]);
    }
  }

  /** Changing Put n without changing its temp file's name changes nothing the sweeper relies on. */
  lemma SweeperStillSpares(cfg: Config, s: State, s': State, n: nat)
    requires SparesOwned(cfg, s.sweeper, s.puts, s.clock, s.used) && n in s.puts
    requires s'.sweeper == s.sweeper && s'.clock == s.clock && s.used <= s'.used && s'.puts - {n} == s.puts - {n}
    requires n in s'.puts ==> Tmp(s'.puts[n]) == Tmp(s.puts[n]) && s'.puts[n].created == s.puts[n].created
    ensures SparesOwned(cfg, s'.sweeper, s'.puts, s'.clock, s'.used)
  {
    forall m | m in s'.puts
      ensures m in s.puts && Tmp(s'.puts[m]) == Tmp(s.puts[m]) && s'.puts[m].created == s.puts[m].created
    {
      if m != n {
        assert m in s'.puts - {n} && (s'.puts - {n})[m] == (s.puts - {n})[m];
      }
    }
  }

  lemma StartOwns(cfg: Config, s: State, s': State, n: nat, dir: string, oid: string, name: string)
    requires PutsInv(cfg, s.files, s.used, s.puts)
    requires OwnInv(cfg, s) && Start(s, s', n, dir, oid, name)
    ensures OwnInv(cfg, s')
  {
    forall m | m in s.puts ensures Tmp(s.puts[m]) != Tmp(s'.puts[n]) {
      assert PutInv(cfg, s.files, s.used, s.puts[m]);
    }
    OthersOwn(cfg, s, s', n);
  }

  lemma TrackOwns(cfg: Config, s: State, s': State, n: nat, base: string)
    requires PutsInv(cfg, s.files, s.used, s.puts)
    requires OwnInv(cfg, s) && Track(s, s', n, base)
    ensures OwnInv(cfg, s')
  {
    assert PutInv(cfg, s.files, s.used, s.puts[n]) && OwnsFile(s.files, s.writing, s.clock, s.puts[n]);
    TrackedKeyIsWalkPath(base, s.puts[n]);
    OthersOwn(cfg, s, s', n);
    SweeperStillSpares(cfg, s, s', n);
  }

  /** Appending to Put n's file leaves the others alone, and its own no older. */
  lemma AppendOwns(cfg: Config, s: State, s': State, n: nat, chunk: Text)
    requires PutsInv(cfg, s.files, s.used, s.puts)
    requires OwnInv(cfg, s) && n in s.puts && n in s'.puts && s.puts[n].pc == Writing
    requires s' == s.(files := Append(s.files, Tmp(s.puts[n]), chunk, s.clock), puts := s.puts[n := s'.puts[n]])
    requires s'.puts[n].pc != Created && Tmp(s'.puts[n]) == Tmp(s.puts[n]) && s'.puts[n].created == s.puts[n].created
    ensures OwnInv(cfg, s')
  {
    assert OwnsFile(s.files, s.writing, s.clock, s.puts[n]);
    assert OwnsFile(s'.files, s'.writing, s'.clock, s'.puts[n]);
    OthersOwn(cfg, s, s', n);
    SweeperStillSpares(cfg, s, s', n);
  }

  lemma WriteOwns(cfg: Config, s: State, s': State, n: nat, chunk: Text)
    requires PutsInv(cfg, s.files, s.used, s.puts)
    requires OwnInv(cfg, s) && Write(s, s', n, chunk)
    ensures OwnInv(cfg, s')
  {
    AppendOwns(cfg, s, s', n, chunk);
  }

  lemma BreakOwns(cfg: Config, s: State, s': State, n: nat, partial: Text)
    requires PutsInv(cfg, s.files, s.used, s.puts)
    requires OwnInv(cfg, s) && Break(s, s', n, partial)
    ensures OwnInv(cfg, s')
  {
    AppendOwns(cfg, s, s', n, partial);
  }

  lemma VerifyOwns(cfg: Config, s: State, s': State, n: nat)
    requires OwnInv(cfg, s) && Verify(cfg, s, s', n)
    ensures OwnInv(cfg, s')
  {
    assert OwnsFile(s.files, s.writing, s.clock, s.puts[n]);
    OthersOwn(cfg, s, s', n);
    SweeperStillSpares(cfg, s, s', n);
  }

  lemma RemoveOwns(cfg: Config, s: State, s': State, n: nat, ok: bool)
    requires PutsInv(cfg, s.files, s.used, s.puts)
    requires OwnInv(cfg, s) && Remove(s, s', n, ok)
    ensures OwnInv(cfg, s')
  {
    assert OwnsFile(s.files, s.writing, s.clock, s.puts[n]);
    assert OwnsFile(s'.files, s'.writing, s'.clock, s'.puts[n]);
    assert LeavesOthers(s, s', n);
    OthersOwn(cfg, s, s', n);
    SweeperStillSpares(cfg, s, s', n);
  }

  /** Untracking comes last, when the file is gone or no longer the Put's. */
  lemma UntrackOwns(cfg: Config, s: State, s': State, n: nat)
    requires PutsInv(cfg, s.files, s.used, s.puts)
    requires OwnInv(cfg, s) && Untrack(s, s', n)
    ensures OwnInv(cfg, s')
  {
    OthersOwn(cfg, s, s', n);
    SweeperStillSpares(cfg, s, s', n);
  }

  lemma RenamedElsewhere(files: map<string, File>, p: Put, path: string)
    requires Tmp(p) in files && path != Tmp(p) && path != DestPath(p)
    ensures path in Renamed(files, p) <==> path in files
    ensures path in files ==> Renamed(files, p)[path] == files[path]
  {}

  lemma RenameLeavesTemp(cfg: Config, files: map<string, File>, used: set<string>, p: Put, q: Put)
    requires PutInv(cfg, files, used, p) && PutInv(cfg, files, used, q) && Tmp(p) in files && Tmp(q) != Tmp(p)
    ensures Tmp(q) in Renamed(files, p) <==> Tmp(q) in files
    ensures Tmp(q) in files ==> Renamed(files, p)[Tmp(q)] == files[Tmp(q)]
  {
    TempIsNoObject(q.dir, q.name, p.dir, p.oid);
    RenamedElsewhere(files, p, Tmp(q));
  }

  lemma MoveLeavesOthers(cfg: Config, s: State, s': State, n: nat, ok: bool)
    requires PutsInv(cfg, s.files, s.used, s.puts)
    requires Move(s, s', n, ok)
    ensures LeavesOthers(s, s', n)
  {
    if ok && Tmp(s.puts[n]) in s.files {
      forall m | m in s.puts && m != n
        ensures var t := Tmp(s.puts[m]);
                (t in s'.files <==> t in s.files) && (t in s.files ==> s'.files[t] == s.files[t])
      {
        RenameLeavesTemp(cfg, s.files, s.used, s.puts[n], s.puts[m]);
      }
    }
  }

  lemma MoveOwns(cfg: Config, s: State, s': State, n: nat, ok: bool)
    requires PutsInv(cfg, s.files, s.used, s.puts)
    requires OwnInv(cfg, s) && Move(s, s', n, ok)
    ensures OwnInv(cfg, s')
  {
    assert PutInv(cfg, s.files, s.used, s.puts[n]) && OwnsFile(s.files, s.writing, s.clock, s.puts[n]);
    TempIsNoObject(s.puts[n].dir, s.puts[n].name, s.puts[n].dir, s.puts[n].oid);
    MoveLeavesOthers(cfg, s, s', n, ok);
    OthersOwn(cfg, s, s', n);
    SweeperStillSpares(cfg, s, s', n);
  }

  /** The sweeper looks past a Put's file only while the Put has not tracked it, and then the file is young. */
  lemma VisitOwns(cfg: Config, s: State, s': State, path: string)
    requires OwnInv(cfg, s) && Prompt(cfg, s) && Visit(s, s', path)
    ensures OwnInv(cfg, s')
  {
    forall n | n in s.puts && Tmp(s.puts[n]) == path ensures s.sweeper.value.cutoff < s.puts[n].created {
      assert OwnsFile(s.files, s.writing, s.clock, s.puts[n]);
    }
  }

  lemma InfoOwns(cfg: Config, s: State, s': State)
    requires OwnInv(cfg, s) && Info(s, s')
    ensures OwnInv(cfg, s')
  {
    forall n | n in s.puts && s'.sweeper.value.phase.Condemned? ensures Tmp(s.puts[n]) != s.sweeper.value.phase.path {
      assert OwnsFile(s.files, s.writing, s.clock, s.puts[n]);
    }
  }

  lemma ForeignOwns(cfg: Config, s: State, s': State, path: string, file: Option<File>)
    requires PutsInv(cfg, s.files, s.used, s.puts)
    requires OwnInv(cfg, s) && Foreign(s, s', path, file)
    ensures OwnInv(cfg, s')
  {
    forall m | m in s.puts ensures OwnsFile(s'.files, s'.writing, s'.clock, s'.puts[m]) {
      assert PutInv(cfg, s.files, s.used, s.puts[m]) && OwnsFile(s.files, s.writing, s.clock, s.puts[m]);
      ReservedIsApart(path, s.puts[m].dir, s.puts[m].oid, s.puts[m].name);
    }
  }

  lemma QuietOwns(cfg: Config, s: State, s': State, n: nat, step: Step)
    requires OwnInv(cfg, s) && Next(cfg, s, s', n, step)
    requires step.CrashStep? || step.TickStep? || step.SweepStartStep? || step.SweepEndStep? || step.DeleteStep?
    ensures OwnInv(cfg, s')
  {
    forall m | m in s'.puts ensures OwnsFile(s'.files, s'.writing, s'.clock, s'.puts[m]) {
      assert OwnsFile(s.files, s.writing, s.clock, s.puts[m]);
    }
  }

  lemma StepKeepsOwners(cfg: Config, s: State, s': State, n: nat, step: Step)
    requires Inv(cfg, s) && OwnInv(cfg, s) && Prompt(cfg, s) && Next(cfg, s, s', n, step) && !step.ForeignSweepStep?
    ensures OwnInv(cfg, s')
  {
    match step
    case StartStep(dir, oid, name) => StartOwns(cfg, s, s', n, dir, oid, name);
    case TrackStep(base) => TrackOwns(cfg, s, s', n, base);
    case MoveStep(ok) => MoveOwns(cfg, s, s', n, ok);
    case ForeignStep(path, file) => ForeignOwns(cfg, s, s', path, file);
    case VisitStep(path) => VisitOwns(cfg, s, s', path);
    case InfoStep => InfoOwns(cfg, s, s');
    case VerifyStep => VerifyOwns(cfg, s, s', n);
    case RemoveStep(ok) => RemoveOwns(cfg, s, s', n, ok);
    case UntrackStep => UntrackOwns(cfg, s, s', n);
    case WriteStep(chunk) => WriteOwns(cfg, s, s', n, chunk);
    case BreakStep(partial) => BreakOwns(cfg, s, s', n, partial);
    case _ => QuietOwns(cfg, s, s', n, step);
  }
}
