/**
 * What whole runs of AuthProtocol keep: authorisations are earned, answers are decided on checked records, cached
 * records are recent, and with fixed answers caching is invisible.
 */
module AuthRuns {
  import opened ByteText
  import opened AuthCache
  import opened AuthProtocol

  // ---- whole runs ----

  ghost predicate RunStep(cfg: Config, run: seq<State>, moves: seq<(nat, Step)>, i: nat)
    requires |run| == |moves| + 1 && 0 < i < |run|
  {
    Next(cfg, run[i - 1], run[i], moves[i - 1].0, moves[i - 1].1)
  }

  ghost predicate IsRun(cfg: Config, run: seq<State>, moves: seq<(nat, Step)>) {
    && |run| == |moves| + 1 && Init(run[0])
    && forall i :: 0 < i < |run| ==> RunStep(cfg, run, moves, i)
  }

  lemma {:induction false} RunKeepsInv(cfg: Config, run: seq<State>, moves: seq<(nat, Step)>, i: nat)
    requires IsRun(cfg, run, moves) && i < |run|
    ensures Inv(cfg, run[i])
  {
    if i > 0 {
      RunKeepsInv(cfg, run, moves, i - 1);
      assert RunStep(cfg, run, moves, i);
      StepKeepsInv(cfg, run[i - 1], run[i], moves[i - 1].0, moves[i - 1].1);
    }
  }

  /** GitHub reported this permission for the token and endpoint. */
  ghost predicate Reported(heard: set<Answer>, k: Key, pull: bool, push: bool, manage: bool) {
    exists p :: PermissionsHeard(heard, k, p) && (pull ==> p.pull) && (push ==> p.push)
                && (manage ==> p.push && (p.maintain || p.admin))
  }

  /** GitHub let a probe of this operation through: no error, or 409 or 422. */
  ghost predicate ProbeAllowed(heard: set<Answer>, k: Key, op: Operation) {
    || AboutProbe(k, op, None) in heard
    || AboutProbe(k, op, Some(Status(409))) in heard
    || AboutProbe(k, op, Some(Status(422))) in heard
  }

  lemma AllowedWasHeard(heard: set<Answer>, k: Key, op: Operation)
    requires ProbeHeard(heard, k, op, Allowed)
    ensures ProbeAllowed(heard, k, op)
  {
    var e :| AboutProbe(k, op, e) in heard && ProbeOutcome(e) == Some(Allowed) && e != Some(Status(401));
    ProbeOutcomeMeans(e);
  }

  /** GitHub reported the repository as not private, along with the pull permission. */
  ghost predicate ReportedPublic(heard: set<Answer>, k: Key) {
    exists p :: PermissionsHeard(heard, k, p) && p.pull && !p.private
  }

  lemma GrantBehind(heard: set<Answer>, k: Key, a: Access) returns (p: RepoReply)
    requires Heard(heard, k, a) && (a.pull || a.push)
    ensures PermissionsHeard(heard, k, p) && Base(a) == Granted(p, a.username)
  {
    p :| GrantHeard(heard, k, Base(a), p);
  }

  /**
   * However GitHub's answers change, an authorised upload means GitHub had by then reported push and allowed a write
   * probe for that token and endpoint, a maintainer had been reported maintain or admin too, and an authorised
   * download (of an endpoint not configured public) had been reported pull and, if private, allowed a read probe.
   */
  lemma AuthorizationIsEarned(cfg: Config, run: seq<State>, moves: seq<(nat, Step)>, i: nat, c: nat)
    requires IsRun(cfg, run, moves) && i < |run| && c in run[i].callers && run[i].callers[c].pc.Answered?
    requires var k := run[i].callers[c]; !(cfg.isPublic(k.key.path) && k.op == Download)
    ensures var k, heard := run[i].callers[c], run[i].heard;
            var r := k.pc.result;
            && (k.op == Upload && r.authorized ==>
                  Reported(heard, k.key, false, true, r.maintainer) && ProbeAllowed(heard, k.key, Upload))
            && (k.op == Download && r.authorized ==>
                  || ReportedPublic(heard, k.key)
                  || (Reported(heard, k.key, true, false, false) && ProbeAllowed(heard, k.key, Download)))
            && (r.maintainer ==> r.authorized && k.op == Upload)
  {
    RunKeepsInv(cfg, run, moves, i);
    var k, heard := run[i].callers[c], run[i].heard;
    assert CallerHeard(cfg, run[i], k);
    if k.pc.result.authorized {
      var acc :| Explained(heard, k.key, k.op, k.pc.result, acc);
      var p := GrantBehind(heard, k.key, acc);
      if k.op == Upload {
        AllowedWasHeard(heard, k.key, Upload);
      } else if acc.private {
        AllowedWasHeard(heard, k.key, Download);
      }
    }
  }

  /** The record the caller's next answer is decided on: the one it holds, or the one its probe's flight landed with. */
  ghost predicate DecidesOn(s: State, c: nat, acc: Access) {
    && c in s.callers
    && match s.callers[c].pc
       case Have(held) => acc == held
       case Probing(f) => f in s.landed && s.landed[f].result == Some(acc)
       case _ => false
  }

  /** In this state the caller's answer was decided on a record that is heard and has every probe it needs. */
  ghost predicate SoundlyDecided(s: State, c: nat, k: Caller) {
    k.pc.Answered? && exists acc :: DecidesOn(s, c, acc) && Explained(s.heard, k.key, k.op, k.pc.result, acc)
  }

  ghost predicate IsAnswered(s: State, c: nat) {
    c in s.callers && s.callers[c].pc.Answered?
  }

  /** The one step of a caller that answers it, past the answers given at once. */
  lemma AnsweringStep(cfg: Config, s: State, s': State, n: nat, step: Step, c: nat)
    requires Next(cfg, s, s', n, step) && !IsAnswered(s, c) && IsAnswered(s', c)
    ensures n == c && (step.BeginStep? || step.ProceedStep? || step.ReceiveStep?)
    ensures step.BeginStep? ==> s'.callers[c] == Caller(step.key, step.op, FirstPc(cfg, step.key, step.op))
    ensures !step.BeginStep? ==>
              && c in s.callers && s'.callers[c] == s.callers[c].(pc := s'.callers[c].pc)
              && exists acc :: DecidesOn(s, c, acc) && s'.callers[c].pc == Answered(ResultFor(acc, s.callers[c].op))
  {
    if step.ProceedStep? {
      assert DecidesOn(s, c, s.callers[c].pc.acc);
    }
    if step.ReceiveStep? {
      assert DecidesOn(s, c, s.landed[s.callers[c].pc.flight].result.value);
    }
  }

  lemma DecidingRecordIsChecked(cfg: Config, s: State, s': State, n: nat, step: Step, c: nat, acc: Access)
    requires Inv(cfg, s) && DecidesOn(s, c, acc) && Next(cfg, s, s', n, step) && !IsAnswered(s, c) && IsAnswered(s', c)
    ensures Heard(s.heard, s.callers[c].key, acc) && !NeedsProbe(acc, s.callers[c].op)
  {
    AnsweringStep(cfg, s, s', n, step, c);
    assert CallerHeard(cfg, s, s.callers[c]);
    if s.callers[c].pc.Probing? {
      var l := s.landed[s.callers[c].pc.flight];
      assert ResultHeard(s.heard, l.key, l.result);
    }
  }

  /**
   * No answer is ever decided on a probe that has not run. Wherever in a run a caller gets its answer, either the
   * endpoint's visibility or an empty password decided it at once, or the record it was decided on there rests on
   * GitHub's answers for that token and endpoint and has every probe the operation needs.
   */
  lemma NoAnswerOnUncheckedProbe(cfg: Config, run: seq<State>, moves: seq<(nat, Step)>, i: nat, c: nat)
    requires IsRun(cfg, run, moves) && 0 < i < |run| && !IsAnswered(run[i - 1], c) && IsAnswered(run[i], c)
    ensures var k := run[i].callers[c];
            k.pc == FirstPc(cfg, k.key, k.op) || SoundlyDecided(run[i - 1], c, k)
  {
    assert RunStep(cfg, run, moves, i);
    var s, step := run[i - 1], moves[i - 1].1;
    AnsweringStep(cfg, s, run[i], moves[i - 1].0, step, c);
    if !step.BeginStep? {
      RunKeepsInv(cfg, run, moves, i - 1);
      var acc :| DecidesOn(s, c, acc) && run[i].callers[c].pc == Answered(ResultFor(acc, s.callers[c].op));
      DecidingRecordIsChecked(cfg, s, run[i], moves[i - 1].0, step, c, acc);
    }
  }

  lemma StepKeepsAnswer(cfg: Config, s: State, s': State, n: nat, step: Step, c: nat)
    requires Next(cfg, s, s', n, step) && IsAnswered(s, c)
    ensures IsAnswered(s', c) && s'.callers[c] == s.callers[c]
  {}

  /** What a caller was answered stays its answer. */
  lemma {:induction false} AnswersStay(cfg: Config, run: seq<State>, moves: seq<(nat, Step)>, i: nat, j: nat, c: nat)
    requires IsRun(cfg, run, moves) && i <= j < |run| && IsAnswered(run[i], c)
    ensures IsAnswered(run[j], c) && run[j].callers[c] == run[i].callers[c]
  {
    if i < j {
      AnswersStay(cfg, run, moves, i, j - 1, c);
      assert RunStep(cfg, run, moves, j);
      StepKeepsAnswer(cfg, run[j - 1], run[j], moves[j - 1].0, moves[j - 1].1, c);
    }
  }

  /** In every run what a lookup finds was stored at most the TTL ago, and a TTL of zero keeps the cache empty. */
  lemma CacheAgeIsBounded(cfg: Config, run: seq<State>, moves: seq<(nat, Step)>, i: nat, k: Key)
    requires IsRun(cfg, run, moves) && i < |run|
    ensures var s := run[i];
            Find(s.cache, k, s.clock).Some? ==>
              && 0 <= s.clock - s.cache[k].stored <= cfg.cacheTTL
              && (!s.cache[k].access.authenticated ==> s.clock - s.cache[k].stored <= 10_000_000_000)
    ensures cfg.cacheTTL <= 0 ==> run[i].cache == map[]
  {
    RunKeepsInv(cfg, run, moves, i);
    var s := run[i];
    if Find(s.cache, k, s.clock).Some? {
      FoundIsRecent(s.cache, cfg.cacheTTL, s.clock, k);
    }
    if cfg.cacheTTL <= 0 {
      assert forall x :: x in s.cache ==> Ttl(s.cache[x].access, cfg.cacheTTL) > 0;
    }
  }

  // ---- fixed answers: caching changes nothing ----

  /** What GitHub definitively says about each token, repository and probe. */
  datatype Truth = Truth(repo: Key -> RepoReply, user: Key -> UserReply, probe: (Key, Operation) -> Option<GitHubError>)

  predicate Is401Repo(r: RepoReply) { r == RepoError(Status(401)) }
  predicate Is401User(r: UserReply) { r == UserError(Status(401)) }
  predicate Is401Probe(e: Option<GitHubError>) { e == Some(Status(401)) }

  /** A token rejected with 401 is rejected on every call. */
  ghost predicate Consistent(t: Truth, k: Key) {
    && (Is401Repo(t.repo(k)) <==> Is401User(t.user(k)))
    && (Is401Repo(t.repo(k)) <==> Is401Probe(t.probe(k, Download)))
    && (Is401Repo(t.repo(k)) <==> Is401Probe(t.probe(k, Upload)))
  }

  /** An answer is the truth, or GitHub failing to answer: neither 401, 403 nor 404, nor 409 or 422 to a probe. */
  ghost predicate Truthful(t: Truth, a: Answer) {
    match a
    case AboutRepo(k, r) => r == t.repo(k) || (r.RepoError? && !IsTurnedAway(r.e))
    case AboutUser(k, u) => u == t.user(k) || (u.UserError? && !IsTurnedAway(u.e))
    case AboutProbe(k, op, e) => e == t.probe(k, op) || (e.Some? && !IsPassed(e) && !IsTurnedAway(e.value))
  }

  /** fetchAccess, probeContents and result run straight through, with no cache: the uncached Authenticate. */
  ghost function TrueBase(t: Truth, k: Key): Access {
    match t.repo(k)
    case RepoError(e) => if e == Status(401) then NO_ACCESS else NO_ROLE
    case NoPermissions => NO_ROLE
    case Permissions(_, _, _, _, _) =>
      match t.user(k)
      case UserError(e) => if e == Status(401) then NO_ACCESS else NO_ROLE
      case Login(login) => Granted(t.repo(k), login)
  }

  ghost function Uncached(cfg: Config, t: Truth, k: Key, op: Operation): Result {
    if FirstPc(cfg, k, op).Answered? then FirstPc(cfg, k, op).result
    else
      var b := TrueBase(t, k);
      if !NeedsProbe(b, op) then ResultFor(b, op)
      else if Is401Probe(t.probe(k, op)) then ResultFor(NO_ACCESS, op)
      else match ProbeOutcome(t.probe(k, op))
           case Some(p) => ResultFor(WithProbe(b, op, p), op)
           case None => ResultFor(b, op)
  }

  lemma HeardIsTrue(t: Truth, heard: set<Answer>, k: Key, a: Access)
    requires Consistent(t, k) && Heard(heard, k, a) && forall x :: x in heard && x.key == k ==> Truthful(t, x)
    ensures Base(a) == TrueBase(t, k)
    ensures a.read != Unchecked ==> ProbeOutcome(t.probe(k, Download)) == Some(a.read)
    ensures a.write != Unchecked ==> ProbeOutcome(t.probe(k, Upload)) == Some(a.write)
  {
    if Base(a) == NO_ACCESS && Rejected(heard, k) {
      assert Is401Repo(t.repo(k));
    } else if Base(a) == NO_ROLE && Refused(heard, k) {
      if p :| PermissionsHeard(heard, k, p) {
        assert Truthful(t, AboutRepo(k, p));
      }
    } else {
      var p :| GrantHeard(heard, k, Base(a), p);
      assert Truthful(t, AboutRepo(k, p)) && Truthful(t, AboutUser(k, Login(a.username)));
    }
  }

  /**
   * When GitHub's definitive answers about a token and endpoint are fixed, every answer for them in every run, cached
   * or shared or not, is the one the uncached Authenticate gives.
   */
  lemma CachingIsInvisible(cfg: Config, t: Truth, run: seq<State>, moves: seq<(nat, Step)>, i: nat, c: nat)
    requires IsRun(cfg, run, moves) && i < |run| && c in run[i].callers && run[i].callers[c].pc.Answered?
    requires Consistent(t, run[i].callers[c].key)
    requires forall x :: x in run[i].heard && x.key == run[i].callers[c].key ==> Truthful(t, x)
    ensures var k := run[i].callers[c]; k.pc.result == Uncached(cfg, t, k.key, k.op)
  {
    RunKeepsInv(cfg, run, moves, i);
    var k := run[i].callers[c];
    assert CallerHeard(cfg, run[i], k);
    if k.pc != FirstPc(cfg, k.key, k.op) {
      var acc :| Explained(run[i].heard, k.key, k.op, k.pc.result, acc);
      HeardIsTrue(t, run[i].heard, k.key, acc);
    }
  }

  /** What GitHub's answers come to for one request, in its own terms: permissions, a login and status codes. */
  ghost predicate IsVerdict(cfg: Config, t: Truth, k: Key, op: Operation, r: Result) {
    if cfg.isPublic(k.path) && op == Download then r == Result(true, true, [], false)
    else if k.token == [] then r == Result(false, false, [], false)
    else
      var p, u := t.repo(k), t.user(k);
      var granted := p.Permissions? && u.Login?;
      && (r.authenticated <==> p != RepoError(Status(401)))
      && r.username == (if granted then u.login else [])
      && (r.authorized <==>
            if op == Upload then granted && p.push && IsPassed(t.probe(k, Upload))
            else granted && p.pull && (p.private ==> IsPassed(t.probe(k, Download))))
      && (r.maintainer <==> op == Upload && r.authorized && (p.maintain || p.admin))
  }

  lemma RecordGivesVerdict(cfg: Config, t: Truth, heard: set<Answer>, k: Key, op: Operation, r: Result, acc: Access)
    requires Consistent(t, k) && Explained(heard, k, op, r, acc)
    requires FirstPc(cfg, k, op).Start? && forall x :: x in heard && x.key == k ==> Truthful(t, x)
    ensures IsVerdict(cfg, t, k, op, r)
  {
    HeardIsTrue(t, heard, k, acc);
    ProbeOutcomeMeans(t.probe(k, op));
  }

  /**
   * With fixed definitive answers, each result of every run is what they come to: an upload is authorised if and only
   * if the repository reply has push, the user reply is a login and the write probe passed; a download if and only if
   * it has pull and, when private, the read probe passed; a maintainer has maintain or admin as well.
   */
  lemma AnswersAreVerdicts(cfg: Config, t: Truth, run: seq<State>, moves: seq<(nat, Step)>, i: nat, c: nat)
    requires IsRun(cfg, run, moves) && i < |run| && c in run[i].callers && run[i].callers[c].pc.Answered?
    requires Consistent(t, run[i].callers[c].key)
    requires forall x :: x in run[i].heard && x.key == run[i].callers[c].key ==> Truthful(t, x)
    ensures var k := run[i].callers[c]; IsVerdict(cfg, t, k.key, k.op, k.pc.result)
  {
    RunKeepsInv(cfg, run, moves, i);
    var k := run[i].callers[c];
    assert CallerHeard(cfg, run[i], k);
    if k.pc != FirstPc(cfg, k.key, k.op) {
      var acc :| Explained(run[i].heard, k.key, k.op, k.pc.result, acc);
      RecordGivesVerdict(cfg, t, run[i].heard, k.key, k.op, k.pc.result, acc);
    }
  }

  // ---- what each reply leads to, and what is cached ----

  /** A record with no right at all. */
  predicate HasNothing(a: Access) {
    a == Access(a.authenticated, [], false, false, false, false, Unchecked, Unchecked)
  }

  /** A turned-away token is cached, invalid for 401 and else without a role; failures are returned. */
  lemma RepoReplyIsTaken(s: State, s': State, f: nat, reply: RepoReply)
    requires RepoAnswers(s, s', f, reply)
    ensures f in s'.flights && s'.cache == s.cache
    ensures var stage := s'.flights[f].stage;
            match reply
            case RepoError(e) =>
              if IsTurnedAway(e) then
                stage.Store? && HasNothing(stage.acc) && (stage.acc.authenticated <==> e != Status(401))
              else stage == Return(None)
            case NoPermissions =>
              stage.Return? && stage.result.Some? && HasNothing(stage.result.value) && stage.result.value.authenticated
            case Permissions(_, _, _, _, _) => stage == AskUser(reply)
  {
    if reply.RepoError? {
      ClassifyMeans(reply.e, s.clock);
    }
  }

  /** A login is cached with the permissions; a turned-away user lookup is answered but not cached. */
  lemma UserReplyIsTaken(s: State, s': State, f: nat, reply: UserReply)
    requires UserAnswers(s, s', f, reply)
    ensures f in s.flights && f in s'.flights && s.flights[f].stage.AskUser? && s.flights[f].stage.perms.Permissions?
    ensures s'.cache == s.cache
    ensures var stage, p := s'.flights[f].stage, s.flights[f].stage.perms;
            match reply
            case UserError(e) =>
              if IsTurnedAway(e) then
                && stage.Return? && stage.result.Some? && HasNothing(stage.result.value)
                && (stage.result.value.authenticated <==> e != Status(401))
              else stage == Return(None)
            case Login(login) =>
              && stage.Store?
              && stage.acc
                 == Access(true, login, p.private, p.pull, p.push, p.maintain || p.admin, Unchecked, Unchecked)
  {
    if reply.UserError? {
      ClassifyMeans(reply.e, s.clock);
    }
  }

  /** A probe that passed or was refused is recorded, a 401 caches the token as invalid, a failure is returned. */
  lemma ProbeReplyIsTaken(s: State, s': State, f: nat, e: Option<GitHubError>)
    requires ProbeAnswers(s, s', f, e)
    ensures f in s.flights && f in s'.flights && s.flights[f].stage.AskProbe? && s'.cache == s.cache
    ensures var stage, acc := s'.flights[f].stage, s.flights[f].stage.acc;
            if IsPassed(e) then stage == Record(acc, Allowed)
            else if e == Some(Status(401)) then stage.Store? && HasNothing(stage.acc) && !stage.acc.authenticated
            else if IsTurnedAway(e.value) then stage == Record(acc, AuthCache.Denied)
            else stage == Return(None)
  {
    ProbeOutcomeMeans(e);
  }

  /** A caller whose key has an unexpired entry takes that entry, and GitHub is not asked. */
  lemma CachedIsTaken(s: State, s': State, c: nat)
    requires Look(s, s', c)
    ensures c in s.callers && c in s'.callers && s'.heard == s.heard && s'.flights == s.flights
    ensures var k := s.callers[c].key;
            if k in s.cache && s.clock <= s.cache[k].expires then s'.callers[c].pc == Have(s.cache[k].access)
            else s'.callers[c].pc == Missed
  {}

  /** A flight about to probe takes a cached record that has the probe already, and GitHub is not asked. */
  lemma CachedProbeIsTaken(s: State, s': State, f: nat)
    requires ProbeLooks(s, s', f)
    ensures f in s.flights && f in s'.flights && s.flights[f].key.ProbeOf? && s.flights[f].stage.CheckCache?
    ensures s'.heard == s.heard
    ensures var fk, stage := s.flights[f].key, s'.flights[f].stage;
            if fk.key in s.cache && s.clock <= s.cache[fk.key].expires && !NeedsProbe(s.cache[fk.key].access, fk.op)
            then stage == Return(Some(s.cache[fk.key].access))
            else stage == AskProbe(s.flights[f].stage.acc)
  {}

  /** What a flight stores is found until the TTL is over, and is what the flight returns. */
  lemma StoredIsFound(cfg: Config, s: State, s': State, f: nat, later: int)
    requires Stores(cfg, s, s', f) && cfg.cacheTTL > 0 && s.clock <= later
    ensures f in s.flights && f in s'.flights && s.flights[f].stage.Store?
    ensures var acc, k := s.flights[f].stage.acc, s.flights[f].key.key;
            && s'.flights[f].stage == Return(Some(acc))
            && (later - s.clock <= cfg.cacheTTL && (acc.authenticated || later - s.clock <= 10_000_000_000) ==>
                  Find(s'.cache, k, later) == Some(acc))
  {}

  /** A recorded probe is on the entry that is found, and on the record the flight returns. */
  lemma RecordedIsFound(s: State, s': State, f: nat, now: int)
    requires Records(s, s', f)
    ensures f in s.flights && f in s'.flights && s.flights[f].stage.Record? && s.flights[f].key.ProbeOf?
    ensures var fk, outcome := s.flights[f].key, s.flights[f].stage.outcome;
            var returned, found := s'.flights[f].stage, Find(s'.cache, fk.key, now);
            && returned.Return? && returned.result.Some?
            && outcome == (if fk.op == Upload then returned.result.value.write else returned.result.value.read)
            && (found.Some? <==> Find(s.cache, fk.key, now).Some?)
            && (found.Some? ==> outcome == if fk.op == Upload then found.value.write else found.value.read)
  {}

  // ---- progress ----

  predicate IsWaiting(pc: Pc) {
    !pc.Answered? && !pc.Errored?
  }

  /** A step of a caller or of a flight; the clock, the sweeper, new callers and leaving do not count. */
  predicate IsWork(step: Step) {
    !step.TickStep? && !step.SweepStep? && !step.BeginStep? && !step.LeaveStep?
  }

  /** A flight that is asking GitHub goes on with whatever the answer is. */
  lemma AskingGoesOn(cfg: Config, s: State, f: nat, repo: RepoReply, user: UserReply, probe: Option<GitHubError>)
    returns (step: Step, s': State)
    requires f in s.flights && StageHeard(s.heard, s.flights[f].key, s.flights[f].stage)
    requires s.flights[f].stage.AskRepo? || s.flights[f].stage.AskUser? || s.flights[f].stage.AskProbe?
    ensures IsWork(step) && Next(cfg, s, s', f, step)
  {
    var fk := s.flights[f].key;
    match s.flights[f].stage
    case AskRepo =>
      step := RepoStep(repo);
      var next := match repo
        case RepoError(e) => (match Classify(e, s.clock) case Definitive(acc) => Store(acc) case _ => Return(None))
        case NoPermissions => Return(Some(NO_ROLE))
        case Permissions(_, _, _, _, _) => AskUser(repo);
      s' := SetStage(s, f, next).(heard := s.heard + {AboutRepo(fk.key, repo)});
    case AskUser(perms) =>
      step := UserStep(user);
      var next := match user
        case UserError(e) =>
          (match Classify(e, s.clock) case Definitive(acc) => Return(Some(acc)) case _ => Return(None))
        case Login(login) => Store(Granted(perms, login));
      s' := SetStage(s, f, next).(heard := s.heard + {AboutUser(fk.key, user)});
    case AskProbe(acc) =>
      step := ProbeStep(probe);
      var next := if probe == Some(Status(401)) then Store(NO_ACCESS)
                  else match ProbeOutcome(probe) case Some(outcome) => Record(acc, outcome) case None => Return(None);
      s' := SetStage(s, f, next).(heard := s.heard + {AboutProbe(fk.key, fk.op, probe)});
  }

  /** A running flight can always go on, whatever GitHub's next answer is. */
  lemma FlightGoesOn(cfg: Config, s: State, f: nat, repo: RepoReply, user: UserReply, probe: Option<GitHubError>)
    returns (step: Step, s': State)
    requires f in s.flights && StageHeard(s.heard, s.flights[f].key, s.flights[f].stage)
    ensures IsWork(step) && Next(cfg, s, s', f, step)
  {
    var fk := s.flights[f].key;
    match s.flights[f].stage
    case CheckCache(acc) =>
      step := ProbeLookStep;
      var found := Find(s.cache, fk.key, s.clock);
      s' := SetStage(s, f, if found.Some? && !NeedsProbe(found.value, fk.op) then Return(found) else AskProbe(acc))
            .(cache := AfterFind(s.cache, fk.key, s.clock));
    case Store(acc) =>
      step := StoreStep;
      s' := SetStage(s, f, Return(Some(acc))).(cache := AfterStore(s.cache, fk.key, acc, s.clock, cfg.cacheTTL));
    case Record(acc, outcome) =>
      step := RecordStep;
      s' := SetStage(s, f, Return(Some(WithProbe(acc, fk.op, outcome))))
            .(cache := AfterRecord(s.cache, fk.key, fk.op, outcome));
    case Return(result) =>
      step := LandStep;
      s' := s.(flights := s.flights - {f}, open := s.open - {fk}, landed := s.landed[f := Landed(fk, result)]);
    case _ => step, s' := AskingGoesOn(cfg, s, f, repo, user, probe);
  }

  lemma CallerJoins(s: State, c: nat, fk: FlightKey, first: Stage) returns (s': State)
    requires c in s.callers
    ensures Join(s, s', c, fk, first)
  {
    if fk in s.open {
      s' := SetPc(s, c, OnFlight(fk, s.open[fk]));
    } else {
      s' := SetPc(s, c, OnFlight(fk, s.nextFlight)).(
        flights := s.flights[s.nextFlight := Flight(fk, first)], open := s.open[fk := s.nextFlight],
        nextFlight := s.nextFlight + 1);
    }
  }

  lemma CallerGoesOn(cfg: Config, s: State, c: nat) returns (step: Step, s': State)
    requires c in s.callers
    requires var pc := s.callers[c].pc;
             || pc.Start? || pc.Missed? || pc.Have? || (pc.Waiting? && pc.flight in s.landed)
             || (pc.Probing? && pc.flight in s.landed)
    ensures IsWork(step) && Next(cfg, s, s', c, step)
  {
    var k := s.callers[c];
    match k.pc
    case Start =>
      step := LookStep;
      var pc := match Find(s.cache, k.key, s.clock) case Some(acc) => Have(acc) case None => Missed;
      s' := SetPc(s, c, pc).(cache := AfterFind(s.cache, k.key, s.clock));
    case Missed =>
      step := JoinStep;
      s' := CallerJoins(s, c, LookupOf(k.key), AskRepo);
    case Have(acc) =>
      step := ProceedStep;
      if NeedsProbe(acc, k.op) {
        s' := CallerJoins(s, c, ProbeOf(k.key, k.op), CheckCache(acc));
      } else {
        s' := SetPc(s, c, Answered(ResultFor(acc, k.op)));
      }
    case Waiting(f) =>
      step := ReceiveStep;
      s' := SetPc(s, c, match s.landed[f].result case None => Errored case Some(acc) => Have(acc));
    case Probing(f) =>
      step := ReceiveStep;
      s' := SetPc(s, c, match s.landed[f].result case None => Errored
                        case Some(acc) => Answered(ResultFor(acc, k.op)));
  }

  /**
   * Nobody waits for nothing: in every state of every run, a caller without an answer can take a step itself, or the
   * flight it waits for can, whatever GitHub answers next.
   */
  lemma NeverStuck(cfg: Config, run: seq<State>, moves: seq<(nat, Step)>, i: nat, c: nat, repo: RepoReply,
                   user: UserReply, probe: Option<GitHubError>)
    returns (n: nat, step: Step, s': State)
    requires IsRun(cfg, run, moves) && i < |run| && c in run[i].callers && IsWaiting(run[i].callers[c].pc)
    ensures IsWork(step) && Next(cfg, run[i], s', n, step)
    ensures n == c || (run[i].callers[c].pc in {Waiting(n), Probing(n)} && n in run[i].flights)
  {
    RunKeepsInv(cfg, run, moves, i);
    var s, pc := run[i], run[i].callers[c].pc;
    assert CallerHeard(cfg, s, s.callers[c]);
    if (pc.Waiting? || pc.Probing?) && pc.flight !in s.landed {
      n := pc.flight;
      assert StageHeard(s.heard, s.flights[n].key, s.flights[n].stage);
      step, s' := FlightGoesOn(cfg, s, n, repo, user, probe);
    } else {
      n := c;
      step, s' := CallerGoesOn(cfg, s, c);
    }
  }

  function CallerLeft(pc: Pc): nat {
    match pc
    case Start => 5
    case Missed => 4
    case Waiting(_) => 3
    case Have(_) => 2
    case Probing(_) => 1
    case _ => 0
  }

  function FlightLeft(stage: Stage): nat {
    match stage
    case AskRepo => 4
    case AskUser(_) => 3
    case CheckCache(_) => 4
    case AskProbe(_) => 3
    case Store(_) => 2
    case Record(_, _) => 2
    case Return(_) => 1
  }

  predicate IsCallers(step: Step) {
    step.LookStep? || step.JoinStep? || step.ProceedStep? || step.ReceiveStep?
  }

  lemma CallersAdvance(cfg: Config, s: State, s': State, c: nat, step: Step)
    requires Next(cfg, s, s', c, step) && IsCallers(step)
    ensures c in s.callers && c in s'.callers && CallerLeft(s'.callers[c].pc) < CallerLeft(s.callers[c].pc)
  {}

  lemma FlightsAdvance(cfg: Config, s: State, s': State, f: nat, step: Step)
    requires Next(cfg, s, s', f, step) && IsWork(step) && !IsCallers(step)
    ensures f in s.flights && (f in s'.flights ==> FlightLeft(s'.flights[f].stage) < FlightLeft(s.flights[f].stage))
  {}

  /** Every such step brings its caller or its flight closer to its end: five steps for a caller, four for a flight. */
  lemma StepsAdvance(cfg: Config, s: State, s': State, n: nat, step: Step)
    requires Next(cfg, s, s', n, step) && IsWork(step)
    ensures IsCallers(step) ==>
              n in s.callers && n in s'.callers && CallerLeft(s'.callers[n].pc) < CallerLeft(s.callers[n].pc)
    ensures !IsCallers(step) ==>
              n in s.flights && (n in s'.flights ==> FlightLeft(s'.flights[n].stage) < FlightLeft(s.flights[n].stage))
  {
    if IsCallers(step) {
      CallersAdvance(cfg, s, s', n, step);
    } else {
      FlightsAdvance(cfg, s, s', n, step);
    }
  }
}
