/**
 * Every interleaving of Authenticate calls over one cache: callers, shared in-flight lookups and probes, expiry, the
 * sweeper, transient failures and callers that leave. GitHub may answer anything; what it answered is remembered.
 */
module AuthProtocol {
  import opened ByteText
  import opened AuthCache

  datatype RepoReply = RepoError(e: GitHubError) | NoPermissions
                     | Permissions(private: bool, pull: bool, push: bool, maintain: bool, admin: bool)

  datatype UserReply = UserError(e: GitHubError) | Login(login: Text)

  /** One answer of GitHub's about one token and one endpoint's repository. */
  datatype Answer = AboutRepo(key: Key, repo: RepoReply) | AboutUser(key: Key, user: UserReply)
                  | AboutProbe(key: Key, op: Operation, e: Option<GitHubError>)

  datatype FlightKey = LookupOf(key: Key) | ProbeOf(key: Key, op: Operation)

  datatype Stage =
    | AskRepo
    | AskUser(perms: RepoReply)
    | CheckCache(acc: Access)
    | AskProbe(acc: Access)
    | Store(acc: Access)
    | Record(acc: Access, outcome: Probe)
    | Return(result: Option<Access>)

  /** A singleflight call: its key, and where the function it runs has got to. */
  datatype Flight = Flight(key: FlightKey, stage: Stage)

  datatype Landed = Landed(key: FlightKey, result: Option<Access>)

  datatype Pc = Start | Missed | Waiting(flight: nat) | Have(acc: Access) | Probing(flight: nat)
              | Answered(result: Result) | Errored

  datatype Caller = Caller(key: Key, op: Operation, pc: Pc)

  /** The cache TTL, and which endpoints are public. */
  datatype Config = Config(cacheTTL: int, isPublic: Text -> bool)

  datatype State = State(
    clock: int,
    cache: Entries,
    flights: map<nat, Flight>,
    open: map<FlightKey, nat>,
    landed: map<nat, Landed>,
    nextFlight: nat,
    callers: map<nat, Caller>,
    heard: set<Answer>)

  ghost predicate Init(s: State) {
    && s.cache == map[] && s.flights == map[] && s.open == map[] && s.landed == map[] && s.callers == map[]
    && s.heard == {} && s.nextFlight == 0
  }

  function SetPc(s: State, c: nat, pc: Pc): State
    requires c in s.callers
  {
    s.(callers := s.callers[c := s.callers[c].(pc := pc)])
  }

  function SetStage(s: State, f: nat, stage: Stage): State
    requires f in s.flights
  {
    s.(flights := s.flights[f := s.flights[f].(stage := stage)])
  }

  /** The access GitHub's permissions and login amount to. */
  function Granted(p: RepoReply, login: Text): Access
    requires p.Permissions?
  {
    Access(true, login, p.private, p.pull, p.push, p.maintain || p.admin, Unchecked, Unchecked)
  }

  // ---- steps ----

  ghost predicate Tick(s: State, s': State) {
    s'.clock >= s.clock && s' == s.(clock := s'.clock)
  }

  /** sweep reads the clock before it takes the mutex. */
  ghost predicate Sweep(s: State, s': State, at: int) {
    at <= s.clock && s' == s.(cache := AfterSweep(s.cache, at))
  }

  /** Public downloads and empty passwords are answered at once. */
  function FirstPc(cfg: Config, key: Key, op: Operation): Pc {
    if cfg.isPublic(key.path) && op == Download then Answered(Result(true, true, [], false))
    else if key.token == [] then Answered(Result(false, false, [], false))
    else Start
  }

  ghost predicate Begin(cfg: Config, s: State, s': State, c: nat, key: Key, op: Operation) {
    && c !in s.callers
    && s' == s.(callers := s.callers[c := Caller(key, op, FirstPc(cfg, key, op))])
  }

  ghost predicate Look(s: State, s': State, c: nat) {
    && c in s.callers && s.callers[c].pc.Start?
    && var k := s.callers[c].key;
       s' == SetPc(s, c, match Find(s.cache, k, s.clock) case Some(acc) => Have(acc) case None => Missed)
             .(cache := AfterFind(s.cache, k, s.clock))
  }

  function OnFlight(fk: FlightKey, f: nat): Pc {
    if fk.LookupOf? then Waiting(f) else Probing(f)
  }

  /** share: join the flight with this key, or start one. */
  ghost predicate Join(s: State, s': State, c: nat, fk: FlightKey, first: Stage)
    requires c in s.callers
  {
    if fk in s.open then s' == SetPc(s, c, OnFlight(fk, s.open[fk]))
    else
      s' == SetPc(s, c, OnFlight(fk, s.nextFlight)).(
        flights := s.flights[s.nextFlight := Flight(fk, first)],
        open := s.open[fk := s.nextFlight],
        nextFlight := s.nextFlight + 1)
  }

  ghost predicate JoinLookup(s: State, s': State, c: nat) {
    && c in s.callers && s.callers[c].pc.Missed?
    && Join(s, s', c, LookupOf(s.callers[c].key), AskRepo)
  }

  ghost predicate Proceed(s: State, s': State, c: nat) {
    && c in s.callers && s.callers[c].pc.Have?
    && var k := s.callers[c];
       if NeedsProbe(k.pc.acc, k.op) then
         Join(s, s', c, ProbeOf(k.key, k.op), CheckCache(k.pc.acc))
       else s' == SetPc(s, c, Answered(ResultFor(k.pc.acc, k.op)))
  }

  /** fetchAccess up to the repository's answer. */
  ghost predicate RepoAnswers(s: State, s': State, f: nat, reply: RepoReply) {
    && f in s.flights && s.flights[f].stage.AskRepo?
    && var stage :=
         match reply
         case RepoError(e) =>
           (match Classify(e, s.clock) case Definitive(acc) => Store(acc) case _ => Return(None))
         case NoPermissions => Return(Some(NO_ROLE))
         case Permissions(_, _, _, _, _) => AskUser(reply);
       s' == SetStage(s, f, stage).(heard := s.heard + {AboutRepo(s.flights[f].key.key, reply)})
  }

  /** The user's answer: an error is returned but never cached. */
  ghost predicate UserAnswers(s: State, s': State, f: nat, reply: UserReply) {
    && f in s.flights && s.flights[f].stage.AskUser? && s.flights[f].stage.perms.Permissions?
    && var stage :=
         match reply
         case UserError(e) =>
           (match Classify(e, s.clock) case Definitive(acc) => Return(Some(acc)) case _ => Return(None))
         case Login(login) => Store(Granted(s.flights[f].stage.perms, login));
       s' == SetStage(s, f, stage).(heard := s.heard + {AboutUser(s.flights[f].key.key, reply)})
  }

  /** probeContents first looks whether another probe has been recorded meanwhile. */
  ghost predicate ProbeLooks(s: State, s': State, f: nat) {
    && f in s.flights && s.flights[f].stage.CheckCache? && s.flights[f].key.ProbeOf?
    && var k, found := s.flights[f].key, Find(s.cache, s.flights[f].key.key, s.clock);
       s' == SetStage(s, f, if found.Some? && !NeedsProbe(found.value, k.op) then Return(found)
                            else AskProbe(s.flights[f].stage.acc))
             .(cache := AfterFind(s.cache, k.key, s.clock))
  }

  ghost predicate ProbeAnswers(s: State, s': State, f: nat, e: Option<GitHubError>) {
    && f in s.flights && s.flights[f].stage.AskProbe? && s.flights[f].key.ProbeOf?
    && var k, acc := s.flights[f].key, s.flights[f].stage.acc;
       var stage := if e == Some(Status(401)) then Store(NO_ACCESS)
                    else match ProbeOutcome(e) case Some(outcome) => Record(acc, outcome) case None => Return(None);
       s' == SetStage(s, f, stage).(heard := s.heard + {AboutProbe(k.key, k.op, e)})
  }

  ghost predicate Stores(cfg: Config, s: State, s': State, f: nat) {
    && f in s.flights && s.flights[f].stage.Store?
    && var acc := s.flights[f].stage.acc;
       s' == SetStage(s, f, Return(Some(acc)))
             .(cache := AfterStore(s.cache, s.flights[f].key.key, acc, s.clock, cfg.cacheTTL))
  }

  /** A probe is recorded on whatever entry is cached by now, even one newer than the probe. */
  ghost predicate Records(s: State, s': State, f: nat) {
    && f in s.flights && s.flights[f].stage.Record? && s.flights[f].key.ProbeOf?
    && var k, stage := s.flights[f].key, s.flights[f].stage;
       s' == SetStage(s, f, Return(Some(WithProbe(stage.acc, k.op, stage.outcome))))
             .(cache := AfterRecord(s.cache, k.key, k.op, stage.outcome))
  }

  ghost predicate Land(s: State, s': State, f: nat) {
    && f in s.flights && s.flights[f].stage.Return?
    && s' == s.(flights := s.flights - {f}, open := s.open - {s.flights[f].key},
                landed := s.landed[f := Landed(s.flights[f].key, s.flights[f].stage.result)])
  }

  ghost predicate Receive(s: State, s': State, c: nat) {
    && c in s.callers
    && var k := s.callers[c];
       match k.pc
       case Waiting(f) =>
         && f in s.landed
         && s' == SetPc(s, c, match s.landed[f].result case None => Errored case Some(acc) => Have(acc))
       case Probing(f) =>
         && f in s.landed
         && s' == SetPc(s, c, match s.landed[f].result case None => Errored
                              case Some(acc) => Answered(ResultFor(acc, k.op)))
       case _ => false
  }

  /** The caller's context is done; the flight goes on without it. */
  ghost predicate Leave(s: State, s': State, c: nat) {
    && c in s.callers && (s.callers[c].pc.Waiting? || s.callers[c].pc.Probing?)
    && s' == SetPc(s, c, Errored)
  }

  datatype Step = TickStep | SweepStep(at: int) | BeginStep(key: Key, op: Operation) | LookStep | JoinStep | ProceedStep
                | RepoStep(repo: RepoReply) | UserStep(user: UserReply) | ProbeLookStep
                | ProbeStep(e: Option<GitHubError>) | StoreStep | RecordStep | LandStep | ReceiveStep | LeaveStep

  /** One step of caller or flight n. */
  ghost predicate Next(cfg: Config, s: State, s': State, n: nat, step: Step) {
    match step
    case TickStep => Tick(s, s')
    case SweepStep(at) => Sweep(s, s', at)
    case BeginStep(key, op) => Begin(cfg, s, s', n, key, op)
    case LookStep => Look(s, s', n)
    case JoinStep => JoinLookup(s, s', n)
    case ProceedStep => Proceed(s, s', n)
    case RepoStep(reply) => RepoAnswers(s, s', n, reply)
    case UserStep(reply) => UserAnswers(s, s', n, reply)
    case ProbeLookStep => ProbeLooks(s, s', n)
    case ProbeStep(e) => ProbeAnswers(s, s', n, e)
    case StoreStep => Stores(cfg, s, s', n)
    case RecordStep => Records(s, s', n)
    case LandStep => Land(s, s', n)
    case ReceiveStep => Receive(s, s', n)
    case LeaveStep => Leave(s, s', n)
  }

  // ---- what an access record must rest on ----

  /** GitHub called the token invalid. */
  ghost predicate Rejected(heard: set<Answer>, k: Key) {
    || AboutRepo(k, RepoError(Status(401))) in heard
    || AboutUser(k, UserError(Status(401))) in heard
    || AboutProbe(k, Download, Some(Status(401))) in heard
    || AboutProbe(k, Upload, Some(Status(401))) in heard
  }

  ghost predicate PermissionsHeard(heard: set<Answer>, k: Key, p: RepoReply) {
    p.Permissions? && AboutRepo(k, p) in heard
  }

  /** GitHub knows the token but showed it no role on the repository. */
  ghost predicate Refused(heard: set<Answer>, k: Key) {
    || AboutRepo(k, RepoError(Status(403))) in heard
    || AboutRepo(k, RepoError(Status(404))) in heard
    || AboutRepo(k, NoPermissions) in heard
    || ((AboutUser(k, UserError(Status(403))) in heard || AboutUser(k, UserError(Status(404))) in heard)
        && exists p :: PermissionsHeard(heard, k, p))
  }

  ghost predicate GrantHeard(heard: set<Answer>, k: Key, b: Access, p: RepoReply) {
    PermissionsHeard(heard, k, p) && AboutUser(k, Login(b.username)) in heard && b == Granted(p, b.username)
  }

  ghost predicate BaseHeard(heard: set<Answer>, k: Key, b: Access) {
    || (b == NO_ACCESS && Rejected(heard, k))
    || (b == NO_ROLE && Refused(heard, k))
    || (exists p :: GrantHeard(heard, k, b, p))
  }

  ghost predicate ProbeHeard(heard: set<Answer>, k: Key, op: Operation, p: Probe) {
    p == Unchecked || exists e :: AboutProbe(k, op, e) in heard && ProbeOutcome(e) == Some(p) && e != Some(Status(401))
  }

  /** Every part of the record was answered by GitHub for this very token and endpoint. */
  ghost predicate Heard(heard: set<Answer>, k: Key, a: Access) {
    BaseHeard(heard, k, Base(a)) && ProbeHeard(heard, k, Download, a.read) && ProbeHeard(heard, k, Upload, a.write)
  }

  lemma HeardStays(heard: set<Answer>, more: set<Answer>, k: Key, a: Access)
    requires heard <= more && Heard(heard, k, a)
    ensures Heard(more, k, a)
  {
    if p :| GrantHeard(heard, k, Base(a), p) {
      assert GrantHeard(more, k, Base(a), p);
    }
    if p :| PermissionsHeard(heard, k, p) {
      assert PermissionsHeard(more, k, p);
    }
  }

  lemma RecordedIsHeard(heard: set<Answer>, k: Key, a: Access, op: Operation, p: Probe)
    requires Heard(heard, k, a) && ProbeHeard(heard, k, op, p)
    ensures Heard(heard, k, WithProbe(a, op, p))
  {
    assert Base(WithProbe(a, op, p)) == Base(a);
  }

  // ---- the invariant ----

  ghost predicate CacheHeard(cache: Entries, heard: set<Answer>) {
    forall k :: k in cache ==> Heard(heard, k, cache[k].access)
  }

  /** A flight's result is heard, and a probe's result needs no further probe for its operation. */
  ghost predicate ResultHeard(heard: set<Answer>, fk: FlightKey, r: Option<Access>) {
    r.Some? ==> Heard(heard, fk.key, r.value) && (fk.ProbeOf? ==> !NeedsProbe(r.value, fk.op))
  }

  ghost predicate StageHeard(heard: set<Answer>, fk: FlightKey, stage: Stage) {
    match stage
    case AskRepo => fk.LookupOf?
    case AskUser(p) => fk.LookupOf? && PermissionsHeard(heard, fk.key, p)
    case CheckCache(acc) => fk.ProbeOf? && Heard(heard, fk.key, acc)
    case AskProbe(acc) => fk.ProbeOf? && Heard(heard, fk.key, acc)
    case Store(acc) => ResultHeard(heard, fk, Some(acc))
    case Record(acc, outcome) =>
      fk.ProbeOf? && Heard(heard, fk.key, acc) && outcome != Unchecked && ProbeHeard(heard, fk.key, fk.op, outcome)
    case Return(r) => ResultHeard(heard, fk, r)
  }

  /** Flight numbers are never reused, and the open flights are exactly the running ones, one per key. */
  ghost predicate FlightIds(flights: map<nat, Flight>, open: map<FlightKey, nat>, landed: map<nat, Landed>, next: nat) {
    && (forall f :: f in flights ==> f < next && f !in landed)
    && (forall f :: f in landed ==> f < next)
    && (forall fk :: fk in open ==> open[fk] in flights && flights[open[fk]].key == fk)
    && (forall f :: f in flights ==> flights[f].key in open && open[flights[f].key] == f)
  }

  /** The flight, running or landed, has this key. */
  ghost predicate FlightIs(flights: map<nat, Flight>, landed: map<nat, Landed>, f: nat, fk: FlightKey) {
    if f in landed then landed[f].key == fk else f in flights && flights[f].key == fk
  }

  /** A result was decided on a record that is heard and has every probe the operation needs. */
  ghost predicate Explained(heard: set<Answer>, k: Key, op: Operation, r: Result, acc: Access) {
    Heard(heard, k, acc) && !NeedsProbe(acc, op) && r == ResultFor(acc, op)
  }

  ghost predicate CallerHeard(cfg: Config, s: State, k: Caller) {
    && (k.pc == FirstPc(cfg, k.key, k.op) || FirstPc(cfg, k.key, k.op).Start?)
    && match k.pc
    case Waiting(f) => FlightIs(s.flights, s.landed, f, LookupOf(k.key))
    case Probing(f) => FlightIs(s.flights, s.landed, f, ProbeOf(k.key, k.op))
    case Have(acc) => Heard(s.heard, k.key, acc)
    case Answered(r) => k.pc == FirstPc(cfg, k.key, k.op) || exists acc :: Explained(s.heard, k.key, k.op, r, acc)
    case _ => true
  }

  ghost predicate Inv(cfg: Config, s: State) {
    && CacheHeard(s.cache, s.heard)
    && (forall f :: f in s.flights ==> StageHeard(s.heard, s.flights[f].key, s.flights[f].stage))
    && (forall f :: f in s.landed ==> ResultHeard(s.heard, s.landed[f].key, s.landed[f].result))
    && FlightIds(s.flights, s.open, s.landed, s.nextFlight)
    && (forall c :: c in s.callers ==> CallerHeard(cfg, s, s.callers[c]))
    && Fresh(s.cache, cfg.cacheTTL, s.clock)
  }

  lemma StageStays(heard: set<Answer>, more: set<Answer>, fk: FlightKey, stage: Stage)
    requires heard <= more && StageHeard(heard, fk, stage)
    ensures StageHeard(more, fk, stage)
  {
    match stage
    case AskRepo =>
    case AskUser(p) =>
    case CheckCache(acc) => HeardStays(heard, more, fk.key, acc);
    case AskProbe(acc) => HeardStays(heard, more, fk.key, acc);
    case Store(acc) => HeardStays(heard, more, fk.key, acc);
    case Record(acc, outcome) => HeardStays(heard, more, fk.key, acc);
    case Return(r) => if r.Some? { HeardStays(heard, more, fk.key, r.value); }
  }

  lemma CallerStays(cfg: Config, s: State, s': State, k: Caller)
    requires s.heard <= s'.heard && CallerHeard(cfg, s, k)
    requires forall f, fk :: FlightIs(s.flights, s.landed, f, fk) ==> FlightIs(s'.flights, s'.landed, f, fk)
    ensures CallerHeard(cfg, s', k)
  {
    if k.pc.Have? {
      HeardStays(s.heard, s'.heard, k.key, k.pc.acc);
    }
    if k.pc.Answered? && k.pc != FirstPc(cfg, k.key, k.op) {
      var acc :| Explained(s.heard, k.key, k.op, k.pc.result, acc);
      HeardStays(s.heard, s'.heard, k.key, acc);
      assert Explained(s'.heard, k.key, k.op, k.pc.result, acc);
    }
  }

  /** Steps of callers: nothing is heard, flights at most begin, and one caller moves to a state it can explain. */
  lemma CallerMove(cfg: Config, s: State, s': State, c: nat)
    requires Inv(cfg, s) && s'.heard == s.heard && s'.landed == s.landed && s'.clock == s.clock
    requires CacheHeard(s'.cache, s'.heard) && Fresh(s'.cache, cfg.cacheTTL, s'.clock)
    requires FlightIds(s'.flights, s'.open, s'.landed, s'.nextFlight)
    requires forall f :: f in s.flights ==> f in s'.flights && s'.flights[f] == s.flights[f]
    requires forall f :: f in s'.flights && f !in s.flights ==>
               f == s.nextFlight && StageHeard(s'.heard, s'.flights[f].key, s'.flights[f].stage)
    requires c in s'.callers && s'.callers - {c} == s.callers - {c}
    requires CallerHeard(cfg, s', s'.callers[c])
    ensures Inv(cfg, s')
  {
    forall v | v in s'.callers ensures CallerHeard(cfg, s', s'.callers[v]) {
      if v != c {
        assert v in s'.callers - {c} && (s'.callers - {c})[v] == (s.callers - {c})[v];
        CallerStays(cfg, s, s', s.callers[v]);
      }
    }
  }

  /** A caller alone moves on. */
  lemma CallerOnly(cfg: Config, s: State, c: nat, pc: Pc)
    requires Inv(cfg, s) && c in s.callers && CallerHeard(cfg, s, s.callers[c].(pc := pc))
    ensures Inv(cfg, SetPc(s, c, pc))
  {
    var s' := SetPc(s, c, pc);
    forall v | v in s'.callers ensures CallerHeard(cfg, s', s'.callers[v]) {
      CallerStays(cfg, s, s', s'.callers[v]);
    }
  }

  /** Steps of flights: one flight moves to a stage that rests on what has been heard by now. */
  lemma FlightMove(cfg: Config, s: State, s': State, f: nat)
    requires Inv(cfg, s) && f in s.flights && f in s'.flights
    requires s' == s.(cache := s'.cache, heard := s'.heard,
                      flights := s.flights[f := s.flights[f].(stage := s'.flights[f].stage)])
    requires s.heard <= s'.heard
    requires CacheHeard(s'.cache, s'.heard) && Fresh(s'.cache, cfg.cacheTTL, s'.clock)
    requires StageHeard(s'.heard, s'.flights[f].key, s'.flights[f].stage)
    ensures Inv(cfg, s')
  {
    forall g | g in s'.flights ensures StageHeard(s'.heard, s'.flights[g].key, s'.flights[g].stage) {
      if g != f {
        StageStays(s.heard, s'.heard, s.flights[g].key, s.flights[g].stage);
      }
    }
    forall g | g in s'.landed ensures ResultHeard(s'.heard, s'.landed[g].key, s'.landed[g].result) {
      StageStays(s.heard, s'.heard, s.landed[g].key, Return(s.landed[g].result));
    }
    forall v | v in s'.callers ensures CallerHeard(cfg, s', s'.callers[v]) {
      CallerStays(cfg, s, s', s.callers[v]);
    }
  }

  lemma CacheStays(cache: Entries, heard: set<Answer>, more: set<Answer>)
    requires heard <= more && CacheHeard(cache, heard)
    ensures CacheHeard(cache, more)
  {
    forall k | k in cache ensures Heard(more, k, cache[k].access) {
      HeardStays(heard, more, k, cache[k].access);
    }
  }

  lemma LookKeeps(cfg: Config, s: State, s': State, c: nat)
    requires Inv(cfg, s) && Look(s, s', c)
    ensures Inv(cfg, s')
  {
    CallerMove(cfg, s, s', c);
  }

  lemma BeginKeeps(cfg: Config, s: State, s': State, c: nat, key: Key, op: Operation)
    requires Inv(cfg, s) && Begin(cfg, s, s', c, key, op)
    ensures Inv(cfg, s')
  {
    CallerMove(cfg, s, s', c);
  }

  lemma TakeOff(flights: map<nat, Flight>, open: map<FlightKey, nat>, landed: map<nat, Landed>, next: nat,
                fk: FlightKey, first: Stage)
    requires FlightIds(flights, open, landed, next) && fk !in open
    ensures FlightIds(flights[next := Flight(fk, first)], open[fk := next], landed, next + 1)
  {}

  ghost predicate OwnFlight(k: Caller, fk: FlightKey) {
    fk == LookupOf(k.key) || fk == ProbeOf(k.key, k.op)
  }

  lemma JoinOpen(cfg: Config, s: State, s': State, c: nat, fk: FlightKey)
    requires Inv(cfg, s) && c in s.callers && fk in s.open && s' == SetPc(s, c, OnFlight(fk, s.open[fk]))
    requires OwnFlight(s.callers[c], fk) && FirstPc(cfg, s.callers[c].key, s.callers[c].op).Start?
    ensures Inv(cfg, s')
  {
    CallerOnly(cfg, s, c, OnFlight(fk, s.open[fk]));
  }

  lemma JoinNew(cfg: Config, s: State, s': State, c: nat, fk: FlightKey, first: Stage)
    requires Inv(cfg, s) && c in s.callers && fk !in s.open && Join(s, s', c, fk, first)
    requires OwnFlight(s.callers[c], fk) && FirstPc(cfg, s.callers[c].key, s.callers[c].op).Start?
    requires StageHeard(s.heard, fk, first)
    ensures Inv(cfg, s')
  {
    TakeOff(s.flights, s.open, s.landed, s.nextFlight, fk, first);
    CallerMove(cfg, s, s', c);
  }

  lemma JoinMove(cfg: Config, s: State, s': State, c: nat, fk: FlightKey, first: Stage)
    requires Inv(cfg, s) && c in s.callers && Join(s, s', c, fk, first) && StageHeard(s.heard, fk, first)
    requires OwnFlight(s.callers[c], fk) && (s.callers[c].pc.Missed? || s.callers[c].pc.Have?)
    ensures Inv(cfg, s')
  {
    assert CallerHeard(cfg, s, s.callers[c]);
    if fk in s.open {
      JoinOpen(cfg, s, s', c, fk);
    } else {
      JoinNew(cfg, s, s', c, fk, first);
    }
  }

  lemma JoinKeeps(cfg: Config, s: State, s': State, c: nat)
    requires Inv(cfg, s) && JoinLookup(s, s', c)
    ensures Inv(cfg, s')
  {
    JoinMove(cfg, s, s', c, LookupOf(s.callers[c].key), AskRepo);
  }

  lemma ProceedKeeps(cfg: Config, s: State, s': State, c: nat)
    requires Inv(cfg, s) && Proceed(s, s', c)
    ensures Inv(cfg, s')
  {
    var k := s.callers[c];
    assert CallerHeard(cfg, s, k);
    if NeedsProbe(k.pc.acc, k.op) {
      JoinMove(cfg, s, s', c, ProbeOf(k.key, k.op), CheckCache(k.pc.acc));
    } else {
      assert Explained(s.heard, k.key, k.op, ResultFor(k.pc.acc, k.op), k.pc.acc);
      CallerOnly(cfg, s, c, Answered(ResultFor(k.pc.acc, k.op)));
    }
  }

  lemma ReceiveKeeps(cfg: Config, s: State, s': State, c: nat)
    requires Inv(cfg, s) && Receive(s, s', c)
    ensures Inv(cfg, s')
  {
    var k := s.callers[c];
    var l := s.landed[k.pc.flight];
    assert CallerHeard(cfg, s, k) && ResultHeard(s.heard, l.key, l.result);
    if k.pc.Probing? && l.result.Some? {
      assert Explained(s.heard, k.key, k.op, ResultFor(l.result.value, k.op), l.result.value);
    }
    CallerOnly(cfg, s, c, s'.callers[c].pc);
  }

  lemma LeaveKeeps(cfg: Config, s: State, s': State, c: nat)
    requires Inv(cfg, s) && Leave(s, s', c)
    ensures Inv(cfg, s')
  {
    assert CallerHeard(cfg, s, s.callers[c]);
    CallerOnly(cfg, s, c, Errored);
  }

  lemma ClassifiedIsHeard(heard: set<Answer>, k: Key, e: GitHubError, now: int)
    requires Classify(e, now).Definitive?
    ensures AboutRepo(k, RepoError(e)) in heard ==> Heard(heard, k, Classify(e, now).access)
    ensures AboutUser(k, UserError(e)) in heard && (exists p :: PermissionsHeard(heard, k, p)) ==>
              Heard(heard, k, Classify(e, now).access)
  {}

  lemma RepoKeeps(cfg: Config, s: State, s': State, f: nat, reply: RepoReply)
    requires Inv(cfg, s) && RepoAnswers(s, s', f, reply)
    ensures Inv(cfg, s')
  {
    assert StageHeard(s.heard, s.flights[f].key, s.flights[f].stage);
    if reply.RepoError? && Classify(reply.e, s.clock).Definitive? {
      ClassifiedIsHeard(s'.heard, s.flights[f].key.key, reply.e, s.clock);
    }
    CacheStays(s.cache, s.heard, s'.heard);
    FlightMove(cfg, s, s', f);
  }

  lemma UserKeeps(cfg: Config, s: State, s': State, f: nat, reply: UserReply)
    requires Inv(cfg, s) && UserAnswers(s, s', f, reply)
    ensures Inv(cfg, s')
  {
    var k, p := s.flights[f].key.key, s.flights[f].stage.perms;
    assert StageHeard(s.heard, s.flights[f].key, s.flights[f].stage);
    assert PermissionsHeard(s'.heard, k, p);
    match reply {
      case UserError(e) =>
        if Classify(e, s.clock).Definitive? {
          ClassifiedIsHeard(s'.heard, k, e, s.clock);
        }
      case Login(login) =>
        assert GrantHeard(s'.heard, k, Granted(p, login), p);
    }
    CacheStays(s.cache, s.heard, s'.heard);
    FlightMove(cfg, s, s', f);
  }

  lemma ProbeLookKeeps(cfg: Config, s: State, s': State, f: nat)
    requires Inv(cfg, s) && ProbeLooks(s, s', f)
    ensures Inv(cfg, s')
  {
    assert StageHeard(s.heard, s.flights[f].key, s.flights[f].stage);
    FlightMove(cfg, s, s', f);
  }

  lemma ProbeKeeps(cfg: Config, s: State, s': State, f: nat, e: Option<GitHubError>)
    requires Inv(cfg, s) && ProbeAnswers(s, s', f, e)
    ensures Inv(cfg, s')
  {
    var fk, acc := s.flights[f].key, s.flights[f].stage.acc;
    assert StageHeard(s.heard, fk, s.flights[f].stage);
    HeardStays(s.heard, s'.heard, fk.key, acc);
    assert AboutProbe(fk.key, fk.op, e) in s'.heard;
    if e == Some(Status(401)) {
      assert fk.op == Download || fk.op == Upload;
      assert Base(NO_ACCESS) == NO_ACCESS && Rejected(s'.heard, fk.key);
    }
    CacheStays(s.cache, s.heard, s'.heard);
    FlightMove(cfg, s, s', f);
  }

  lemma StoreKeeps(cfg: Config, s: State, s': State, f: nat)
    requires Inv(cfg, s) && Stores(cfg, s, s', f)
    ensures Inv(cfg, s')
  {
    assert StageHeard(s.heard, s.flights[f].key, s.flights[f].stage);
    FlightMove(cfg, s, s', f);
  }

  lemma RecordKeeps(cfg: Config, s: State, s': State, f: nat)
    requires Inv(cfg, s) && Records(s, s', f)
    ensures Inv(cfg, s')
  {
    var fk, stage := s.flights[f].key, s.flights[f].stage;
    assert StageHeard(s.heard, fk, stage);
    RecordedIsHeard(s.heard, fk.key, stage.acc, fk.op, stage.outcome);
    if fk.key in s.cache {
      RecordedIsHeard(s.heard, fk.key, s.cache[fk.key].access, fk.op, stage.outcome);
    }
    FlightMove(cfg, s, s', f);
  }

  lemma LandKeeps(cfg: Config, s: State, s': State, f: nat)
    requires Inv(cfg, s) && Land(s, s', f)
    ensures Inv(cfg, s')
  {
    assert StageHeard(s.heard, s.flights[f].key, s.flights[f].stage);
    forall v | v in s'.callers ensures CallerHeard(cfg, s', s'.callers[v]) {
      CallerStays(cfg, s, s', s.callers[v]);
    }
  }

  lemma CallerStepKeeps(cfg: Config, s: State, s': State, n: nat, step: Step)
    requires Inv(cfg, s) && Next(cfg, s, s', n, step)
    requires step.BeginStep? || step.LookStep? || step.JoinStep? || step.ProceedStep? || step.ReceiveStep?
             || step.LeaveStep?
    ensures Inv(cfg, s')
  {
    match step
    case BeginStep(key, op) => BeginKeeps(cfg, s, s', n, key, op);
    case LookStep => LookKeeps(cfg, s, s', n);
    case JoinStep => JoinKeeps(cfg, s, s', n);
    case ProceedStep => ProceedKeeps(cfg, s, s', n);
    case ReceiveStep => ReceiveKeeps(cfg, s, s', n);
    case LeaveStep => LeaveKeeps(cfg, s, s', n);
  }

  /** Every step keeps it: time, the sweeper, callers and flights. */
  lemma StepKeepsInv(cfg: Config, s: State, s': State, n: nat, step: Step)
    requires Inv(cfg, s) && Next(cfg, s, s', n, step)
    ensures Inv(cfg, s')
  {
    match step
    case TickStep => QuietKeeps(cfg, s, s');
    case SweepStep(at) => QuietKeeps(cfg, s, s');
    case RepoStep(reply) => RepoKeeps(cfg, s, s', n, reply);
    case UserStep(reply) => UserKeeps(cfg, s, s', n, reply);
    case ProbeLookStep => ProbeLookKeeps(cfg, s, s', n);
    case ProbeStep(e) => ProbeKeeps(cfg, s, s', n, e);
    case StoreStep => StoreKeeps(cfg, s, s', n);
    case RecordStep => RecordKeeps(cfg, s, s', n);
    case LandStep => LandKeeps(cfg, s, s', n);
    case _ => CallerStepKeeps(cfg, s, s', n, step);
  }

  /** Time passing and the sweeper touch neither callers nor flights. */
  lemma QuietKeeps(cfg: Config, s: State, s': State)
    requires Inv(cfg, s) && s.clock <= s'.clock && s' == s.(clock := s'.clock, cache := s'.cache)
    requires forall k :: k in s'.cache ==> k in s.cache && s'.cache[k] == s.cache[k]
    ensures Inv(cfg, s')
  {
    forall v | v in s'.callers ensures CallerHeard(cfg, s', s'.callers[v]) {
      CallerStays(cfg, s, s', s.callers[v]);
    }
  }
}
