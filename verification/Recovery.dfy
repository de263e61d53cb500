/**
 Import recovery: the retry loop over export, poll, download and import, its backoff ladder and
 recall rules, and resuming from progress markers after a restart. The loop is proved to make runs
 of a state machine, and the guarantees are theorems about every run of that machine.
 */
module Recovery {
  import opened Wrappers
  import opened MySql
  import opened Importer

  // ---------- The backoff ladder ----------

  const RECOVERY_BASE_DELAY_SECONDS := 30

  function Pow2(n: nat): nat {
    if n == 0 then 1 else 2 * Pow2(n - 1)
  }

  function AtLeastZero(n: int): nat {
    if n < 0 then 0 else n
  }

  function Sum(s: seq<nat>): nat {
    if s == [] then 0 else Sum(s[..|s| - 1]) + s[|s| - 1]
  }

  /** The total delay of the first `k` retries. */
  function SleptAfter(k: nat): int {
    30 * (Pow2(k) - 1)
  }

  /** The delays before each retry: after `k` of them thirty times 2^k - 1 seconds have been slept. */
  function BackoffLadder(maxRetries: int): (ladder: seq<nat>)
    ensures |ladder| == AtLeastZero(maxRetries)
    ensures forall k :: 0 <= k <= |ladder| ==> Sum(ladder[..k]) == SleptAfter(k)
  {
    if maxRetries <= 0 then []
    else
      var front := BackoffLadder(maxRetries - 1);
      LongerLadder(front);
      front + [RECOVERY_BASE_DELAY_SECONDS * Pow2(|front|)]
  }

  lemma LongerLadder(front: seq<nat>)
    requires forall k :: 0 <= k <= |front| ==> Sum(front[..k]) == SleptAfter(k)
    ensures var ladder := front + [RECOVERY_BASE_DELAY_SECONDS * Pow2(|front|)];
            forall k :: 0 <= k <= |ladder| ==> Sum(ladder[..k]) == SleptAfter(k)
  {
    var n := |front|;
    var ladder := front + [RECOVERY_BASE_DELAY_SECONDS * Pow2(n)];
    forall k | 0 <= k <= |ladder|
      ensures Sum(ladder[..k]) == SleptAfter(k)
    {
      if k <= n {
        assert ladder[..k] == front[..k];
      } else {
        assert ladder[..n] == front[..n] && ladder[..k] == ladder[..n + 1];
        SumStep(ladder, n);
        NextDelay(n);
      }
    }
  }

  lemma NextDelay(n: nat)
    ensures SleptAfter(n + 1) == SleptAfter(n) + RECOVERY_BASE_DELAY_SECONDS * Pow2(n)
  {
  }

  lemma SumStep(s: seq<nat>, k: nat)
    requires k < |s|
    ensures Sum(s[..k + 1]) == Sum(s[..k]) + s[k]
  {
    assert s[..k + 1][..k] == s[..k];
  }

  // ---------- Lists of tables ----------

  ghost predicate Disjoint(ts: seq<Table>, us: seq<Table>) {
    forall t :: t in ts ==> t !in us
  }

  function Tables(ts: seq<Table>): set<Table> {
    set t | t in ts
  }

  /** The tables of a list that are in a set, in order. */
  function Among(ts: seq<Table>, us: set<Table>): (r: seq<Table>)
    ensures forall t :: t in r <==> t in ts && t in us
    ensures DistinctTables(ts) ==> DistinctTables(r)
  {
    if ts == [] then []
    else
      var r := Among(ts[..|ts| - 1], us);
      var last := ts[|ts| - 1];
      assert ts == ts[..|ts| - 1] + [last];
      if last in us then r + [last] else r
  }

  /** The tables of a list that are not in a set, in order. */
  function Outside(ts: seq<Table>, us: set<Table>): (r: seq<Table>)
    ensures forall t :: t in r <==> t in ts && t !in us
    ensures DistinctTables(ts) ==> DistinctTables(r)
  {
    if ts == [] then []
    else
      var r := Outside(ts[..|ts| - 1], us);
      var last := ts[|ts| - 1];
      assert ts == ts[..|ts| - 1] + [last];
      if last in us then r else r + [last]
  }

  function Minus(ts: seq<Table>, us: seq<Table>): seq<Table> {
    Outside(ts, Tables(us))
  }

  /** Append what is not in the list yet. */
  function AppendNew(ts: seq<Table>, us: seq<Table>): (r: seq<Table>)
    ensures ts <= r
    ensures forall t :: t in r <==> t in ts || t in us
    ensures DistinctTables(ts) ==> DistinctTables(r)
  {
    if us == [] then ts
    else
      var r := AppendNew(ts, us[..|us| - 1]);
      var last := us[|us| - 1];
      assert us == us[..|us| - 1] + [last];
      if last in r then r else r + [last]
  }

  // ---------- The stages as an adversary ----------

  datatype ExportReply = JobCreated(id: string) | ExportFails(error: Error)

  /** A job's tables are the keys of a dictionary. */
  type JobTables = ts: seq<Table> | DistinctTables(ts) ghost witness []

  /** A polled job: its tables, and those whose export is reported Failed. */
  datatype PollReply = Job(names: JobTables, failed: set<Table>) | PollFails(error: Error)

  /** Any download error is tagged with whether the presigned URLs expired. */
  datatype DownloadReply = Downloaded(files: seq<File>) | DownloadFails(expired: bool) | DownloadStops(error: Error)

  /**
   Every stage's reply in every attempt. `poll` may depend on what the polled job owes: the tables
   it was asked for and those it reported before.
   */
  datatype Environment = Environment(
    export_: nat -> ExportReply,
    poll: (nat, set<Table>) -> PollReply,
    download: nat -> DownloadReply,
    fault: nat -> Fault,
    cancelBeforeSleep: nat -> bool,
    cancelAfterSleep: nat -> bool
  )

  /** A job reports at least what it was asked for and what it reported before. */
  ghost predicate HonestJobs(env: Environment) {
    forall n, owed :: var reply := env.poll(n, owed);
      reply.Job? ==> forall t :: t in owed ==> t in reply.names
  }

  /** Jobs report only the given tables. */
  ghost predicate JobsWithin(env: Environment, tables: iset<Table>) {
    forall n, owed :: var reply := env.poll(n, owed);
      reply.Job? ==> forall t :: t in reply.names ==> t in tables
  }

  // ---------- The loop's variables ----------

  datatype State = State(
    attempt: nat,
    jobId: string,
    needPost: bool,
    working: Option<seq<Table>>,   // None: the concrete set was never learned
    exportTables: seq<Table>,
    imported: seq<Table>,
    owed: set<Table>               // on the server's side: what the current job must report
  )

  /** What a run is asked for, the schema it imports against, and how. */
  datatype Plan = Plan(
    initial: seq<Table>, known: set<Table>, transportNames: set<Table>, single: bool, noDelete: bool, dryRun: bool)

  /** How an attempt leaves the loop body: an exception, the whole set done, or something still outstanding. */
  datatype Step = Raise(error: Error) | Done(st: State) | Again(st: State)

  /** How an attempt ended: the POST failed, exports failed, a later stage raised, or nothing was left. */
  datatype Ending = PostFailed | TablesFailed | Interrupted(error: Error) | Finishing

  /** The endings after which the next attempt POSTs: no live job, failed exports, or expired URLs. */
  predicate AsksForPost(e: Ending) {
    e.PostFailed? || e.TablesFailed? || e == Interrupted(DownloadError(true))
  }

  /**
   One attempt: its step, the world it leaves, how it ended, the tables its job reported, and, if the
   import stage was reached, what it was given and how it ended.
   */
  datatype Move = Move(step: Step, world: World, ending: Ending, reported: set<Table>, load: Option<Load>)

  datatype Load = Load(tables: seq<Table>, files: seq<File>, err: Option<Error>)

  // ---------- One attempt ----------

  /** The recovery from a retryable error: narrow the scope by the durable markers and pick the recall mode. */
  function Recover(st: State, initial: seq<Table>, markers: set<Table>, e: Error): State {
    var scope := if st.working.Some? then st.working else if initial != [] then Some(initial) else None;
    var flushed := if scope.Some? then Among(scope.value, markers) else [];
    var working := if scope.Some? then Some(Minus(scope.value, flushed)) else None;
    st.(imported := AppendNew(st.imported, flushed),
        working := working,
        exportTables := if working.Some? then working.value else initial,
        needPost := st.needPost || (e.DownloadError? && e.expired))
  }

  /** An exception inside the loop body: recovered from, or re-raised. */
  function AfterError(st: State, plan: Plan, markers: set<Table>, e: Error): Step {
    if IsRecoverable(e) then Again(Recover(st, plan.initial, markers, e)) else Raise(e)
  }

  /** The tables of a job that are still to do, and those of them whose export did not fail. */
  function Present(names: seq<Table>, imported: seq<Table>): seq<Table> {
    Minus(names, imported)
  }

  function ReadyTables(names: seq<Table>, failed: set<Table>, imported: seq<Table>): seq<Table> {
    Outside(Present(names, imported), failed)
  }

  /** The end of an attempt whose ready tables are all imported: what is left is what failed to export. */
  function Leftover(st: State, names: seq<Table>, ready: seq<Table>): State {
    var left := Minus(Present(names, st.imported), ready);
    st.(imported := AppendNew(st.imported, ready), working := Some(left), exportTables := left, needPost := left != [])
  }

  function Finish(st: State, names: seq<Table>, ready: seq<Table>): Step {
    var s := Leftover(st, names, ready);
    if s.needPost then Again(s) else Done(s)
  }

  function FinishEnding(st: State, names: seq<Table>, ready: seq<Table>): Ending {
    if Leftover(st, names, ready).needPost then TablesFailed else Finishing
  }

  function ImportConfig(plan: Plan, ready: seq<Table>): Config {
    Config(ready, plan.known, plan.transportNames, plan.noDelete, plan.single, plan.dryRun)
  }

  /** The state in which a freshly POSTed job is polled. */
  function Posted(st: State, id: string): State {
    st.(jobId := id, needPost := false, owed := Tables(st.exportTables))
  }

  /** The state with a job at hand, after a POST where one is needed; None when the POST fails. */
  function AtHand(env: Environment, st: State): Option<State> {
    if !st.needPost then Some(st)
    else match env.export_(st.attempt)
      case ExportFails(_) => None
      case JobCreated(id) => Some(Posted(st, id))
  }

  /** The state once the job has answered: all it has still to do is outstanding. */
  function Answered(st: State, names: seq<Table>): State {
    st.(owed := st.owed + Tables(names), working := Some(Present(names, st.imported)))
  }

  /** How far the stages let an attempt get, with the state at that point. */
  datatype Case =
    | PostStops(s: State, e: Error)
    | PollStops(s: State, e: Error)
    | DownloadBreaks(s: State, e: Error, names: JobTables)
    | NothingReady(s: State, names: JobTables)
    | Loads(s: State, names: JobTables, ready: seq<Table>, files: seq<File>)

  function DownloadCase(env: Environment, s: State, names: JobTables, ready: seq<Table>): Case {
    match env.download(s.attempt)
    case DownloadFails(expired) => DownloadBreaks(s, DownloadError(expired), names)
    case DownloadStops(e) => DownloadBreaks(s, e, names)
    case Downloaded(files) => Loads(s, names, ready, files)
  }

  function JobCase(env: Environment, s: State): Case {
    match env.poll(s.attempt, s.owed)
    case PollFails(e) => PollStops(s, e)
    case Job(names, failed) =>
      var ready := ReadyTables(names, failed, s.imported);
      if ready == [] then NothingReady(Answered(s, names), names) else DownloadCase(env, Answered(s, names), names, ready)
  }

  function CaseOf(env: Environment, st: State): Case {
    var s := st.(attempt := st.attempt + 1);
    match AtHand(env, s)
    case None => PostStops(s, env.export_(s.attempt).error)
    case Some(s') => JobCase(env, s')
  }

  /** What the attempt amounts to; `w'` and `err` are what the import leaves, where it is reached. */
  function MoveOf(plan: Plan, c: Case, w: World, w': World, err: Option<Error>): Move {
    match c
    case PostStops(s, e) => Move(AfterError(s, plan, w.markers, e), w, PostFailed, {}, None)
    case PollStops(s, e) => Move(AfterError(s, plan, w.markers, e), w, Interrupted(e), {}, None)
    case DownloadBreaks(s, e, names) => Move(AfterError(s, plan, w.markers, e), w, Interrupted(e), Tables(names), None)
    case NothingReady(s, names) => Move(Finish(s, names, []), w, FinishEnding(s, names, []), Tables(names), None)
    case Loads(s, names, ready, files) =>
      match err
      case Some(e) => Move(AfterError(s, plan, w'.markers, e), w', Interrupted(e), Tables(names), Some(Load(ready, files, err)))
      case None => Move(Finish(s, names, ready), w', FinishEnding(s, names, ready), Tables(names), Some(Load(ready, files, err)))
  }

  function ErrOf(m: Move): Option<Error> {
    if m.load.Some? then m.load.value.err else None
  }

  /** What the import stage, where it was reached, may have left. */
  ghost predicate LeftBy(env: Environment, plan: Plan, n: nat, w: World, m: Move) {
    m.load.Some? ==>
      var load := m.load.value;
      Leaves(w, ImportConfig(plan, load.tables), load.files, env.fault(n), m.world, load.err)
  }

  /** One turn of the retry loop, from the state and world before it. */
  ghost predicate Turn(env: Environment, plan: Plan, st: State, w: World, m: Move) {
    m == MoveOf(plan, CaseOf(env, st), w, m.world, ErrOf(m)) && LeftBy(env, plan, st.attempt + 1, w, m)
  }

  /** The move of a case is a turn when the import, where it is reached, may leave what it is said to. */
  lemma MakesTurn(env: Environment, plan: Plan, st: State, c: Case, w: World, w': World, err: Option<Error>)
    requires c == CaseOf(env, st)
    requires c.Loads? ==> Leaves(w, ImportConfig(plan, c.ready), c.files, env.fault(st.attempt + 1), w', err)
    ensures Turn(env, plan, st, w, MoveOf(plan, c, w, w', err))
  {
  }

  /** One turn of the retry loop, up to the checks that follow the try block. */
  method RunAttempt(importer: SqlImporter, env: Environment, plan: Plan, st: State) returns (step: Step, ghost m: Move)
    modifies importer
    ensures Turn(env, plan, st, old(importer.Durable()), m)
    ensures m.step == step && m.world == importer.Durable()
  {
    var s := st.(attempt := st.attempt + 1);
    ghost var c, w := CaseOf(env, st), importer.Durable();
    AtHandFacts(env, st);
    if s.needPost {
      match env.export_(s.attempt)
      case ExportFails(e) =>
        step := AfterError(s, plan, importer.markers, e);
        m := MoveOf(plan, c, w, w, None);
        MakesTurn(env, plan, st, c, w, w, None);
        return;
      case JobCreated(id) => s := Posted(s, id);
    }
    var err;
    err, s, step := PollAndLoad(importer, env, plan, s);
    m := MoveOf(plan, c, w, importer.Durable(), err);
    StagedTurn(env, plan, st, c, w, importer.Durable(), err, s, step);
    if err.Some? {
      step := AfterError(s, plan, importer.markers, err.value);
    }
  }

  /** What the stages after the POST return: the state they reach, an exception or the step, and the world. */
  ghost predicate Staged(plan: Plan, fault: Fault, c: Case, w: World, w': World, err: Option<Error>, s: State, step: Step) {
    && s == c.s && !c.PostStops?
    && (c.PollStops? || c.DownloadBreaks? ==> err == Some(c.e))
    && (c.NothingReady? ==> err.None? && step == Finish(s, c.names, []))
    && (c.Loads? && err.None? ==> step == Finish(s, c.names, c.ready))
    && if c.Loads? then Leaves(w, ImportConfig(plan, c.ready), c.files, fault, w', err) else w' == w
  }

  /** The stages' results are what the attempt amounts to. */
  lemma StagedTurn(env: Environment, plan: Plan, st: State, c: Case, w: World, w': World, err: Option<Error>, s: State, step: Step)
    requires c == CaseOf(env, st) && Staged(plan, env.fault(st.attempt + 1), c, w, w', err, s, step)
    ensures var m := MoveOf(plan, c, w, w', err);
            && Turn(env, plan, st, w, m) && m.world == w'
            && m.step == if err.Some? then AfterError(s, plan, w'.markers, err.value) else step
  {
    MakesTurn(env, plan, st, c, w, w', err);
    StepOf(plan, c, w, w', err, step);
  }

  lemma StepOf(plan: Plan, c: Case, w: World, w': World, err: Option<Error>, step: Step)
    requires !c.PostStops? && (c.PollStops? || c.DownloadBreaks? ==> err == Some(c.e)) && (!c.Loads? ==> w' == w)
    requires c.NothingReady? ==> err.None? && step == Finish(c.s, c.names, [])
    requires c.Loads? && err.None? ==> step == Finish(c.s, c.names, c.ready)
    ensures var m := MoveOf(plan, c, w, w', err);
            m.world == w' && m.step == if err.Some? then AfterError(c.s, plan, w'.markers, err.value) else step
  {
  }

  /** The stages after the POST; an exception comes back with the state it left. */
  method PollAndLoad(importer: SqlImporter, env: Environment, plan: Plan, st: State) returns (err: Option<Error>, s: State, step: Step)
    modifies importer
    ensures Staged(plan, env.fault(st.attempt), JobCase(env, st), old(importer.Durable()), importer.Durable(), err, s, step)
  {
    s, step := st, Raise(Killed);
    match env.poll(s.attempt, s.owed)
    case PollFails(e) => err := Some(e);
    case Job(names, failed) =>
      var ready := ReadyTables(names, failed, s.imported);
      s := Answered(s, names);
      if ready == [] {
        err, step := None, Finish(s, names, []);
        return;
      }
      match env.download(s.attempt)
      case DownloadFails(expired) => err := Some(DownloadError(expired));
      case DownloadStops(e) => err := Some(e);
      case Downloaded(files) =>
        err := importer.RunImport(ImportConfig(plan, ready), files, env.fault(s.attempt));
        step := Finish(s, names, ready);
  }

  // ---------- Whole runs ----------

  datatype RunResult =
    | Returned(imported: seq<Table>, permanentlyFailed: seq<Table>)
    | Raised(error: Error)

  /** What giving up reports: the outstanding tables, or the whole request when they were never learned. */
  function GivenUp(st: State, initial: seq<Table>): (ts: seq<Table>)
    ensures st.working != Some([]) ==> ts != []
  {
    if st.working.Some? then st.working.value else if initial != [] then initial else ["*"]
  }

  /** The parameters of a run. */
  datatype Setup = Setup(env: Environment, plan: Plan, maxRetries: int, start: State, world: World)

  /** The variables before the first attempt. */
  function Start(plan: Plan, jobId: string, completed: seq<Table>): State {
    State(0, jobId, jobId == "", None, plan.initial, completed, {})
  }

  function StateAfter(x: Setup, moves: seq<Move>): State {
    if moves == [] || moves[|moves| - 1].step.Raise? then x.start else moves[|moves| - 1].step.st
  }

  function WorldAfter(x: Setup, moves: seq<Move>): World {
    if moves == [] then x.world else moves[|moves| - 1].world
  }

  /** Whether the loop would go to sleep: something is outstanding, retries are left, and nobody cancelled. */
  predicate Sleeps(x: Setup, m: Move) {
    && m.step.Again? && m.step.st.working != Some([]) && m.step.st.attempt <= x.maxRetries
    && !x.env.cancelBeforeSleep(m.step.st.attempt)
  }

  predicate Continues(x: Setup, m: Move) {
    Sleeps(x, m) && !x.env.cancelAfterSleep(m.step.st.attempt)
  }

  /** How the loop is left after an attempt with which it does not continue. */
  function Closing(x: Setup, m: Move): RunResult {
    CloseRun(m.step, x.plan.initial, x.maxRetries)
  }

  /** Attempts one after another, the loop continuing after each but perhaps the last. */
  ghost predicate Path(x: Setup, moves: seq<Move>) {
    moves == [] ||
    var front := moves[..|moves| - 1];
    && Path(x, front)
    && (front != [] ==> Continues(x, front[|front| - 1]))
    && Turn(x.env, x.plan, StateAfter(x, front), WorldAfter(x, front), moves[|moves| - 1])
  }

  ghost predicate IsRun(x: Setup, moves: seq<Move>, r: RunResult) {
    && moves != [] && Path(x, moves)
    && !Continues(x, moves[|moves| - 1]) && r == Closing(x, moves[|moves| - 1])
  }

  /** The sleeps of a run: one after each attempt that was followed by a retry or cancelled while asleep. */
  function Retries(x: Setup, moves: seq<Move>): int {
    if moves != [] && Sleeps(x, moves[|moves| - 1]) then |moves| else |moves| - 1
  }

  lemma PathStep(x: Setup, moves: seq<Move>, m: Move)
    requires Path(x, moves) && (moves != [] ==> Continues(x, moves[|moves| - 1]))
    requires Turn(x.env, x.plan, StateAfter(x, moves), WorldAfter(x, moves), m)
    ensures Path(x, moves + [m])
  {
    assert (moves + [m])[..|moves|] == moves;
  }

  /** The retry loop makes runs of the state machine, sleeping the ladder's delays and no others. */
  method RunWithRecovery(importer: SqlImporter, env: Environment, plan: Plan, maxRetries: int, jobId: string, completed: seq<Table>)
      returns (r: RunResult, slept: nat, ghost moves: seq<Move>)
    modifies importer
    ensures var x := Setup(env, plan, maxRetries, Start(plan, jobId, completed), old(importer.Durable()));
            && IsRun(x, moves, r) && WorldAfter(x, moves) == importer.Durable()
            && slept == SleptAfter(AtLeastZero(Retries(x, moves)))
  {
    var ladder := BackoffLadder(maxRetries);
    var st := Start(plan, jobId, completed);
    ghost var x := Setup(env, plan, maxRetries, st, importer.Durable());
    slept, moves := 0, [];
    while true
      invariant Path(x, moves) && (moves != [] ==> Continues(x, moves[|moves| - 1]))
      invariant StateAfter(x, moves) == st && WorldAfter(x, moves) == importer.Durable()
      invariant st.attempt == |moves| <= |ladder| && slept == Sum(ladder[..|moves|])
      decreases |ladder| - |moves|
    {
      var step;
      step, moves := NextMove(importer, x, env, plan, st, moves);
      var stop;
      stop, slept := BackOff(x, env, maxRetries, step, slept, ladder, moves);
      if stop {
        r := CloseRun(step, plan.initial, maxRetries);
        RunEnds(x, moves, r);
        return;
      }
      st := step.st;
    }
  }

  /** The checks and the sleep between two attempts; the loop is left unless it should go on. */
  method BackOff(ghost x: Setup, env: Environment, maxRetries: int, step: Step, slept: nat, ladder: seq<nat>, ghost moves: seq<Move>)
      returns (stop: bool, slept': nat)
    requires x.env == env && x.maxRetries == maxRetries && ladder == BackoffLadder(maxRetries)
    requires moves != [] && moves[|moves| - 1].step == step && (!step.Raise? ==> step.st.attempt == |moves|)
    requires step.Done? ==> step.st.working == Some([])
    requires |moves| - 1 <= |ladder| && slept == Sum(ladder[..|moves| - 1])
    ensures stop <==> !Continues(x, moves[|moves| - 1])
    ensures slept' == SleptAfter(AtLeastZero(Retries(x, moves)))
    ensures !stop ==> |moves| <= |ladder| && slept' == Sum(ladder[..|moves|])
  {
    slept' := slept;
    if step.Raise? || step.st.working == Some([]) || step.st.attempt > maxRetries || env.cancelBeforeSleep(step.st.attempt) {
      return true, slept';
    }
    SumStep(ladder, step.st.attempt - 1);
    slept' := slept + ladder[step.st.attempt - 1];
    stop := env.cancelAfterSleep(step.st.attempt);
  }

  /** What the loop returns or raises when it is left. */
  function CloseRun(step: Step, initial: seq<Table>, maxRetries: int): RunResult {
    match step
    case Raise(e) => Raised(e)
    case Done(st) => Returned(st.imported, [])
    case Again(st) =>
      if st.working == Some([]) then Returned(st.imported, [])
      else if st.attempt > maxRetries then Returned(st.imported, GivenUp(st, initial))
      else Raised(RecoveryCancelled)
  }

  lemma RunEnds(x: Setup, moves: seq<Move>, r: RunResult)
    requires Path(x, moves) && moves != [] && !Continues(x, moves[|moves| - 1])
    requires r == CloseRun(moves[|moves| - 1].step, x.plan.initial, x.maxRetries)
    ensures IsRun(x, moves, r)
  {
  }

  /** An attempt extends the run so far. */
  method NextMove(importer: SqlImporter, ghost x: Setup, env: Environment, plan: Plan, st: State, ghost moves: seq<Move>)
      returns (step: Step, ghost moves': seq<Move>)
    requires x.env == env && x.plan == plan
    requires Path(x, moves) && (moves != [] ==> Continues(x, moves[|moves| - 1]))
    requires StateAfter(x, moves) == st && WorldAfter(x, moves) == importer.Durable()
    modifies importer
    ensures Path(x, moves') && |moves'| == |moves| + 1 && moves'[|moves|].step == step
    ensures WorldAfter(x, moves') == importer.Durable()
    ensures !step.Raise? ==> step.st.attempt == st.attempt + 1
    ensures step.Done? ==> step.st.working == Some([])
  {
    ghost var m;
    step, m := RunAttempt(importer, env, plan, st);
    TurnCounts(env, plan, st, WorldAfter(x, moves), m);
    PathStep(x, moves, m);
    moves' := moves + [m];
  }

  /** What the case of an attempt with a job at hand inherits from the state. */
  lemma JobFacts(env: Environment, s: State)
    ensures var c := JobCase(env, s);
            && !c.PostStops? && (if c.PollStops? then c.s == s else c.s == Answered(s, c.names))
            && (!c.PollStops? ==> env.poll(s.attempt, s.owed).Job? && env.poll(s.attempt, s.owed).names == c.names)
            && (c.Loads? ==> c.ready != [] && DistinctTables(c.ready) && forall t :: t in c.ready ==> t in c.names && t !in s.imported)
  {
  }

  /** The state that a job is polled in: the same lists, and nothing left to POST. */
  lemma AtHandFacts(env: Environment, st: State)
    ensures var s := st.(attempt := st.attempt + 1);
            match AtHand(env, s)
            case None => s.needPost && env.export_(s.attempt).ExportFails? && CaseOf(env, st) == PostStops(s, env.export_(s.attempt).error)
            case Some(s') =>
              && CaseOf(env, st) == JobCase(env, s') && s'.attempt == s.attempt && s'.imported == s.imported && !s'.needPost
              && s'.working == s.working && s'.exportTables == s.exportTables
              && (s.needPost ==> s'.owed == Tables(s.exportTables)) && (!s.needPost ==> s' == s)
  {
  }

  /** What a case inherits from the state before it. */
  lemma CaseFacts(env: Environment, st: State)
    ensures var c := CaseOf(env, st);
            && c.s.attempt == st.attempt + 1 && c.s.imported == st.imported
            && (c.PostStops? <==> c.s.needPost)
            && (c.PostStops? || c.PollStops? ==> c.s.working == st.working && c.s.exportTables == st.exportTables)
            && (!c.PostStops? && !c.PollStops? ==> c.s.working == Some(Present(c.names, st.imported)))
            && (c.Loads? ==> c.ready != [] && DistinctTables(c.ready) && forall t :: t in c.ready ==> t in c.names && t !in st.imported)
  {
    AtHandFacts(env, st);
    match AtHand(env, st.(attempt := st.attempt + 1))
    case None =>
    case Some(s) => JobFacts(env, s);
  }

  lemma TurnCounts(env: Environment, plan: Plan, st: State, w: World, m: Move)
    requires Turn(env, plan, st, w, m)
    ensures !m.step.Raise? ==> m.step.st.attempt == st.attempt + 1
    ensures m.step.Done? ==> m.step.st.working == Some([])
  {
    CaseFacts(env, st);
  }

  // ---------- What every attempt keeps ----------

  ghost predicate Inv(st: State, initial: seq<Table>, markers: set<Table>) {
    && DistinctTables(st.imported)
    && (st.working.Some? ==> Disjoint(st.working.value, st.imported))
    && (st.working.None? ==> Disjoint(initial, st.imported))
    && st.exportTables == (if st.working.Some? then st.working.value else initial)
    && (forall t :: t in st.imported ==> t in markers)
  }

  /** Narrowing the scope by the markers keeps what is imported distinct, marked and apart from what is outstanding. */
  lemma RecoverKeepsInv(st: State, initial: seq<Table>, ms: set<Table>, markers: set<Table>, e: Error)
    requires DistinctTables(st.imported) && ms <= markers && forall t :: t in st.imported ==> t in ms
    requires Disjoint(if st.working.Some? then st.working.value else initial, st.imported)
    ensures Inv(Recover(st, initial, markers, e), initial, markers)
    ensures st.imported <= Recover(st, initial, markers, e).imported
  {
  }

  lemma FinishKeepsInv(st: State, names: seq<Table>, ready: seq<Table>, initial: seq<Table>, ms: set<Table>, markers: set<Table>)
    requires DistinctTables(st.imported) && forall t :: t in st.imported ==> t in ms
    requires ms + Tables(ready) <= markers
    ensures Inv(Leftover(st, names, ready), initial, markers)
    ensures st.imported <= Leftover(st, names, ready).imported
  {
  }

  /** What an attempt makes of its lists: see TurnKeepsInv. */
  ghost predicate Progress(imported: seq<Table>, initial: seq<Table>, w: World, m: Move) {
    && w.markers <= m.world.markers
    && (!m.step.Raise? ==> Inv(m.step.st, initial, m.world.markers) && imported <= m.step.st.imported)
    && (m.load.Some? ==> Disjoint(m.load.value.tables, imported))
  }

  /** Markers only grow, and an import that ended normally marked everything it was given. */
  ghost predicate MarkersGrow(w: World, m: Move) {
    && w.markers <= m.world.markers
    && (m.load.Some? ==> m.world.markers <= w.markers + Tables(m.load.value.tables))
    && (m.load.Some? && m.load.value.err.None? ==> Tables(m.load.value.tables) <= m.world.markers)
  }

  lemma TurnGrowsMarkers(env: Environment, plan: Plan, st: State, w: World, m: Move)
    requires Turn(env, plan, st, w, m)
    ensures MarkersGrow(w, m)
  {
    if m.load.None? {
      assert m.world == w;
    }
  }

  /**
   An attempt keeps the imported list distinct, marked and apart from what is outstanding; markers
   and imported tables only grow, and no imported table reaches the import stage again.
   */
  lemma TurnKeepsInv(env: Environment, plan: Plan, st: State, w: World, m: Move)
    requires Turn(env, plan, st, w, m) && Inv(st, plan.initial, w.markers)
    ensures Progress(st.imported, plan.initial, w, m)
  {
    TurnGrowsMarkers(env, plan, st, w, m);
    CaseFacts(env, st);
    CaseKeepsInv(plan, CaseOf(env, st), w, m);
  }

  lemma CaseKeepsInv(plan: Plan, c: Case, w: World, m: Move)
    requires m == MoveOf(plan, c, w, m.world, ErrOf(m)) && MarkersGrow(w, m)
    requires DistinctTables(c.s.imported) && forall t :: t in c.s.imported ==> t in w.markers
    requires Disjoint(if c.s.working.Some? then c.s.working.value else plan.initial, c.s.imported)
    requires c.Loads? ==> Disjoint(c.ready, c.s.imported)
    ensures Progress(c.s.imported, plan.initial, w, m)
  {
    if c.NothingReady? {
      FinishKeepsInv(c.s, c.names, [], plan.initial, w.markers, m.world.markers);
    } else if c.Loads? && ErrOf(m).None? {
      FinishKeepsInv(c.s, c.names, c.ready, plan.initial, w.markers, m.world.markers);
    } else {
      RecoverKeepsInv(c.s, plan.initial, w.markers, m.world.markers, if c.Loads? then ErrOf(m).value else c.e);
    }
  }

  /** The next attempt POSTs exactly after a failed POST, failed exports or expired URLs. */
  lemma TurnRecall(env: Environment, plan: Plan, st: State, w: World, m: Move)
    requires Turn(env, plan, st, w, m)
    ensures m.step.Again? ==> (m.step.st.needPost <==> AsksForPost(m.ending))
  {
    CaseFacts(env, st);
  }

  /** The attempt was stopped by the error: the POST it needed failed with it, or a later stage raised it. */
  ghost predicate StoppedBy(env: Environment, st: State, m: Move, e: Error) {
    (st.needPost && env.export_(st.attempt + 1) == ExportFails(e)) || m.ending == Interrupted(e)
  }

  lemma StoppedAsClassified(env: Environment, plan: Plan, st: State, w: World, m: Move, e: Error)
    requires Turn(env, plan, st, w, m) && StoppedBy(env, st, m, e)
    ensures if IsRecoverable(e) then m.step.Again? else m.step == Raise(e)
  {
    AtHandFacts(env, st);
    match AtHand(env, st.(attempt := st.attempt + 1))
    case None =>
    case Some(s) => JobFacts(env, s);
  }

  /**
   Which failures are retried: a network error, any failed download, and the six transient statuses;
   other errors as their texts read, unless a local one has a fatal errno. Any other failure is raised
   unchanged: every other status, wrong usage, schemas and values, permissions, and a cancellation.
   */
  lemma StopIsRetriedOrRaised(env: Environment, plan: Plan, st: State, w: World, m: Move, e: Error)
    requires Turn(env, plan, st, w, m) && StoppedBy(env, st, m, e)
    ensures e.NetworkError? || e.DownloadError? ==> m.step.Again?
    ensures e.ApiStatus? && e.code in [408, 429, 500, 502, 503, 504] ==> m.step.Again?
    ensures e.ApiStatus? && e.code !in [408, 429, 500, 502, 503, 504] ==> m.step == Raise(e)
    ensures e.UsageError? || e.SchemaError? || e.ValueError? || e.PermissionError? || e.RecoveryCancelled? || e.Killed? ==> m.step == Raise(e)
    ensures e.OtherError? ==> if e.readsLikeTransport then m.step.Again? else m.step == Raise(e)
    ensures e.LocalError? ==> if e.readsLikeTransport && !e.fatalErrno then m.step.Again? else m.step == Raise(e)
  {
    StoppedAsClassified(env, plan, st, w, m, e);
  }

  /** Something left over after the ready tables were imported is reported failed. */
  lemma LeftoverFailed(st: State, names: seq<Table>, failed: set<Table>)
    requires Leftover(st, names, ReadyTables(names, failed, st.imported)).needPost
    ensures exists t :: t in names && t in failed
  {
    var left := Minus(Present(names, st.imported), ReadyTables(names, failed, st.imported));
    var t := left[0];
    assert t in left;
    assert t in names && t in failed;
  }

  /** Nothing learned is lost: it is imported, outstanding, or owed by the job that will be polled. */
  ghost predicate NothingLost(st: State, learned: set<Table>) {
    && (st.working.None? ==> learned == {})
    && (forall t :: t in learned ==> t in st.imported || (st.working.Some? && t in st.working.value))
    && (!st.needPost ==> forall t :: t in learned && t !in st.imported ==> t in st.owed)
  }

  lemma RecoverLosesNothing(st: State, learned: set<Table>, initial: seq<Table>, markers: set<Table>, e: Error)
    requires NothingLost(st, learned)
    ensures NothingLost(Recover(st, initial, markers, e), learned)
  {
  }

  lemma FinishLosesNothing(st: State, names: seq<Table>, ready: seq<Table>, learned: set<Table>)
    requires forall t :: t in learned && t !in st.imported ==> t in names
    requires Tables(names) <= st.owed
    ensures NothingLost(Leftover(st, names, ready), learned + Tables(names))
  {
  }

  /** A case in which nothing learned is lost, with honest jobs. */
  lemma CaseLosesNothing(env: Environment, st: State, learned: set<Table>)
    requires HonestJobs(env) && NothingLost(st, learned)
    requires st.exportTables == (if st.working.Some? then st.working.value else st.exportTables)
    ensures var c := CaseOf(env, st);
            if c.PostStops? || c.PollStops? then NothingLost(c.s, learned)
            else (forall t :: t in learned && t !in c.s.imported ==> t in c.names) && Tables(c.names) <= c.s.owed
  {
    AtHandFacts(env, st);
    match AtHand(env, st.(attempt := st.attempt + 1))
    case None =>
    case Some(s) =>
      JobFacts(env, s);
      if env.poll(s.attempt, s.owed).Job? {
        AnswerLosesNothing(env, s, learned);
      }
  }

  lemma AnswerLosesNothing(env: Environment, s: State, learned: set<Table>)
    requires HonestJobs(env) && env.poll(s.attempt, s.owed).Job? && forall t :: t in learned && t !in s.imported ==> t in s.owed
    ensures forall t :: t in learned && t !in s.imported ==> t in env.poll(s.attempt, s.owed).names
  {
  }

  lemma TurnLosesNothing(env: Environment, plan: Plan, st: State, w: World, m: Move, learned: set<Table>)
    requires Turn(env, plan, st, w, m) && Inv(st, plan.initial, w.markers)
    requires HonestJobs(env) && NothingLost(st, learned)
    ensures !m.step.Raise? ==> NothingLost(m.step.st, learned + m.reported)
  {
    CaseFacts(env, st);
    CaseLosesNothing(env, st, learned);
    MoveLosesNothing(plan, CaseOf(env, st), w, m, learned);
  }

  lemma MoveLosesNothing(plan: Plan, c: Case, w: World, m: Move, learned: set<Table>)
    requires m == MoveOf(plan, c, w, m.world, ErrOf(m))
    requires c.PostStops? || c.PollStops? ==> NothingLost(c.s, learned)
    requires !c.PostStops? && !c.PollStops? ==>
               && (forall t :: t in learned && t !in c.s.imported ==> t in c.names) && Tables(c.names) <= c.s.owed
               && c.s.working == Some(Present(c.names, c.s.imported))
    ensures !m.step.Raise? ==> NothingLost(m.step.st, learned + m.reported)
  {
    if c.PostStops? || c.PollStops? {
      RecoverLosesNothing(c.s, learned, plan.initial, w.markers, c.e);
      assert learned + {} == learned;
    } else if c.NothingReady? {
      FinishLosesNothing(c.s, c.names, [], learned);
    } else if c.Loads? && ErrOf(m).None? {
      FinishLosesNothing(c.s, c.names, c.ready, learned);
    } else {
      RecoverLosesNothing(c.s, learned + Tables(c.names), plan.initial, m.world.markers, if c.Loads? then ErrOf(m).value else c.e);
    }
  }

  // ---------- What every run keeps ----------

  ghost function Learned(moves: seq<Move>): set<Table> {
    if moves == [] then {} else Learned(moves[..|moves| - 1]) + moves[|moves| - 1].reported
  }

  /** A run that has not raised yet. */
  predicate Alive(moves: seq<Move>) {
    moves == [] || !moves[|moves| - 1].step.Raise?
  }

  ghost predicate Proper(x: Setup) {
    x.start.attempt == 0 && Inv(x.start, x.plan.initial, x.world.markers)
  }

  lemma {:induction false} PathPrefix(x: Setup, moves: seq<Move>, i: nat)
    requires Path(x, moves) && i <= |moves|
    ensures Path(x, moves[..i]) && (i < |moves| ==> Alive(moves[..i]))
    ensures 0 < i < |moves| ==> Continues(x, moves[i - 1])
    ensures i < |moves| ==> Turn(x.env, x.plan, StateAfter(x, moves[..i]), WorldAfter(x, moves[..i]), moves[i])
  {
    if i == |moves| {
      assert moves[..i] == moves;
    } else if i == |moves| - 1 {
      PathLast(x, moves);
    } else {
      var front := moves[..|moves| - 1];
      PathLast(x, moves);
      PathPrefix(x, front, i);
      assert front[..i] == moves[..i] && front[i] == moves[i];
    }
  }

  lemma PathLast(x: Setup, moves: seq<Move>)
    requires Path(x, moves) && moves != []
    ensures var front := moves[..|moves| - 1];
            && Path(x, front) && Alive(front) && (front != [] ==> Continues(x, front[|front| - 1]))
            && Turn(x.env, x.plan, StateAfter(x, front), WorldAfter(x, front), moves[|moves| - 1])
  {
  }

  lemma {:induction false} PathKeepsInv(x: Setup, moves: seq<Move>)
    requires Path(x, moves) && Proper(x)
    ensures x.world.markers <= WorldAfter(x, moves).markers
    ensures Alive(moves) ==>
              && Inv(StateAfter(x, moves), x.plan.initial, WorldAfter(x, moves).markers)
              && StateAfter(x, moves).attempt == |moves|
  {
    if moves == [] {
    } else {
      var front, m := moves[..|moves| - 1], moves[|moves| - 1];
      PathKeepsInv(x, front);
      TurnKeepsInv(x.env, x.plan, StateAfter(x, front), WorldAfter(x, front), m);
      TurnCounts(x.env, x.plan, StateAfter(x, front), WorldAfter(x, front), m);
    }
  }

  /** At most one attempt more than the retries, and the ladder is never exhausted. */
  lemma RunIsBounded(x: Setup, moves: seq<Move>, r: RunResult)
    requires IsRun(x, moves, r) && Proper(x)
    ensures |moves| <= AtLeastZero(x.maxRetries) + 1
    ensures 0 <= Retries(x, moves) <= AtLeastZero(x.maxRetries)
    ensures r.Returned? ==> Retries(x, moves) == |moves| - 1
  {
    PathKeepsInv(x, moves);
    var front := moves[..|moves| - 1];
    PathKeepsInv(x, front);
  }

  /** The attempt did not raise, and left something to do. */
  predicate Outstanding(m: Move) {
    m.step.Again? && m.step.st.working != Some([])
  }

  /** After attempt `i`, counted from zero, there is a retry left and nobody cancels. */
  predicate RetryLeft(x: Setup, i: nat) {
    i < x.maxRetries && !x.env.cancelBeforeSleep(i + 1) && !x.env.cancelAfterSleep(i + 1)
  }

  /**
   Over a run: an error that is retried, like a table left over, is followed by another attempt while a
   retry is left, nobody cancels and something is outstanding; one that is not ends the run with itself.
   */
  lemma RunRetries(x: Setup, moves: seq<Move>, r: RunResult, i: nat)
    requires IsRun(x, moves, r) && Proper(x) && i < |moves|
    ensures moves[i].step.Raise? ==> i == |moves| - 1 && r == Raised(moves[i].step.error)
    ensures Outstanding(moves[i]) ==> (i + 1 < |moves| <==> RetryLeft(x, i))
    ensures Outstanding(moves[i]) && i + 1 == |moves| ==>
              if i + 1 > x.maxRetries then r.Returned? && r.permanentlyFailed != [] else r == Raised(RecoveryCancelled)
  {
    PathPrefix(x, moves, i);
    PathKeepsInv(x, moves[..i]);
    TurnCounts(x.env, x.plan, StateAfter(x, moves[..i]), WorldAfter(x, moves[..i]), moves[i]);
    if i + 1 < |moves| {
      PathPrefix(x, moves, i + 1);
    }
  }

  /**
   A run that meets a network error, a failed download or a transient status with a retry left and
   something outstanding goes on; one that meets any other status, wrong usage or schemas, a wrong value
   or missing permissions ends there, with exactly that error.
   */
  lemma RunMeetsError(x: Setup, moves: seq<Move>, r: RunResult, i: nat, e: Error)
    requires IsRun(x, moves, r) && Proper(x) && i < |moves| && StoppedBy(x.env, StateAfter(x, moves[..i]), moves[i], e)
    ensures e.NetworkError? || e.DownloadError? || (e.ApiStatus? && e.code in [408, 429, 500, 502, 503, 504]) ==>
              moves[i].step.Again? && (Outstanding(moves[i]) && RetryLeft(x, i) ==> i + 1 < |moves|)
    ensures e.UsageError? || e.SchemaError? || e.ValueError? || e.PermissionError? || e.RecoveryCancelled?
              || (e.ApiStatus? && e.code !in [408, 429, 500, 502, 503, 504]) ==>
              i + 1 == |moves| && r == Raised(e)
  {
    PathPrefix(x, moves, i);
    StopIsRetriedOrRaised(x.env, x.plan, StateAfter(x, moves[..i]), WorldAfter(x, moves[..i]), moves[i], e);
    RunRetries(x, moves, r, i);
  }

  /**
   The recall rule over a run: the first attempt POSTs exactly when no job id was given, a later one
   exactly after a failed POST, failed exports or expired URLs; and what is named in a POST is what
   is outstanding, or the original request while that was never learned.
   */
  lemma RunRecall(x: Setup, moves: seq<Move>, i: nat)
    requires Path(x, moves) && Proper(x) && i < |moves|
    ensures var st := StateAfter(x, moves[..i]);
            && (st.needPost <==> if i == 0 then x.start.needPost else AsksForPost(moves[i - 1].ending))
            && st.exportTables == if st.working.Some? then st.working.value else x.plan.initial
  {
    PathPrefix(x, moves, i);
    PathKeepsInv(x, moves[..i]);
    if i > 0 {
      PathPrefix(x, moves, i - 1);
      assert moves[..i][i - 1] == moves[i - 1];
      TurnRecall(x.env, x.plan, StateAfter(x, moves[..i - 1]), WorldAfter(x, moves[..i - 1]), moves[i - 1]);
    }
  }

  lemma {:induction false} ImportedOnlyGrows(x: Setup, moves: seq<Move>, i: nat)
    requires Path(x, moves) && Proper(x) && i <= |moves| && Alive(moves)
    ensures StateAfter(x, moves[..i]).imported <= StateAfter(x, moves).imported
    decreases |moves|
  {
    if i == |moves| {
      assert moves[..i] == moves;
    } else {
      var front, m := moves[..|moves| - 1], moves[|moves| - 1];
      PathPrefix(x, moves, |front|);
      assert front[..i] == moves[..i];
      ImportedOnlyGrows(x, front, i);
      PathKeepsInv(x, front);
      TurnKeepsInv(x.env, x.plan, StateAfter(x, front), WorldAfter(x, front), m);
    }
  }

  /** A table once in the imported list never reaches the import stage again. */
  lemma ImportedOnce(x: Setup, moves: seq<Move>, i: nat, j: nat, t: Table)
    requires Path(x, moves) && Proper(x) && i <= j < |moves| && moves[j].load.Some?
    requires t in StateAfter(x, moves[..i]).imported
    ensures t !in moves[j].load.value.tables
  {
    PathPrefix(x, moves, j);
    assert moves[..j][..i] == moves[..i];
    ImportedOnlyGrows(x, moves[..j], i);
    ImportedIsNotLoaded(x, moves, j, t);
  }

  lemma ImportedIsNotLoaded(x: Setup, moves: seq<Move>, j: nat, t: Table)
    requires Path(x, moves) && Proper(x) && j < |moves| && moves[j].load.Some?
    requires t in StateAfter(x, moves[..j]).imported
    ensures t !in moves[j].load.value.tables
  {
    PathPrefix(x, moves, j);
    PathKeepsInv(x, moves[..j]);
    TurnKeepsInv(x.env, x.plan, StateAfter(x, moves[..j]), WorldAfter(x, moves[..j]), moves[j]);
  }

  lemma {:induction false} PathLosesNothing(x: Setup, moves: seq<Move>)
    requires Path(x, moves) && Proper(x) && HonestJobs(x.env)
    ensures Alive(moves) ==> NothingLost(StateAfter(x, moves), Learned(moves))
  {
    if moves == [] {
    } else {
      var front, m := moves[..|moves| - 1], moves[|moves| - 1];
      PathPrefix(x, moves, |front|);
      PathLosesNothing(x, front);
      PathKeepsInv(x, front);
      TurnLosesNothing(x.env, x.plan, StateAfter(x, front), WorldAfter(x, front), m, Learned(front));
    }
  }

  /**
   No table is lost and no false success: a run that returns imported each table once, all of them
   marked; an empty failure list means that the outstanding set was known and became empty; and with
   honest jobs every table ever learned is in exactly one of the two lists.
   */
  lemma RunAccounts(x: Setup, moves: seq<Move>, r: RunResult)
    requires IsRun(x, moves, r) && Proper(x) && r.Returned?
    ensures DistinctTables(r.imported) && forall t :: t in r.imported ==> t in WorldAfter(x, moves).markers
    ensures r.permanentlyFailed == [] <==> StateAfter(x, moves).working == Some([])
    ensures HonestJobs(x.env) ==> forall t :: t in Learned(moves) ==> (t in r.imported <==> t !in r.permanentlyFailed)
  {
    var m := moves[|moves| - 1];
    PathKeepsInv(x, moves);
    PathPrefix(x, moves, |moves| - 1);
    TurnCounts(x.env, x.plan, StateAfter(x, moves[..|moves| - 1]), WorldAfter(x, moves[..|moves| - 1]), m);
    if HonestJobs(x.env) {
      PathLosesNothing(x, moves);
    }
  }

  // ---------- Exactly when a table is lost ----------

  /** The attempt that follows gets a job's answer. */
  predicate JobAnswers(env: Environment, st: State) {
    var c := CaseOf(env, st);
    !c.PostStops? && !c.PollStops?
  }

  /** What was learned before the last answer of a job, was not imported by then, and is missing from that answer. */
  ghost function Forgotten(x: Setup, moves: seq<Move>): (ts: set<Table>)
    ensures ts <= Learned(moves)
  {
    if moves == [] then {}
    else
      var front, m := moves[..|moves| - 1], moves[|moves| - 1];
      if JobAnswers(x.env, StateAfter(x, front)) then set t | t in Learned(front) && t !in StateAfter(x, front).imported && t !in m.reported
      else Forgotten(x, front)
  }

  /** The table is imported or outstanding. */
  predicate AccountedFor(st: State, t: Table) {
    t in st.imported || (st.working.Some? && t in st.working.value)
  }

  /** An attempt accounts for what its case accounts for. */
  lemma MoveAccounts(plan: Plan, c: Case, w: World, m: Move)
    requires m == MoveOf(plan, c, w, m.world, ErrOf(m)) && c.s.working.Some?
    requires !c.PostStops? && !c.PollStops? ==> c.s.working == Some(Present(c.names, c.s.imported))
    requires c.Loads? ==> forall t :: t in c.ready ==> t in c.names && t !in c.s.imported
    ensures !m.step.Raise? ==> m.step.st.working.Some? && forall t :: AccountedFor(m.step.st, t) <==> AccountedFor(c.s, t)
  {
  }

  lemma TurnForgets(env: Environment, plan: Plan, st: State, w: World, m: Move)
    requires Turn(env, plan, st, w, m) && !m.step.Raise?
    ensures JobAnswers(env, st) ==>
              m.step.st.working.Some? && forall t :: AccountedFor(m.step.st, t) <==> t in st.imported || t in m.reported
    ensures !JobAnswers(env, st) ==> m.reported == {}
    ensures !JobAnswers(env, st) && st.working.Some? ==>
              m.step.st.working.Some? && forall t :: AccountedFor(m.step.st, t) <==> AccountedFor(st, t)
  {
    CaseFacts(env, st);
    if CaseOf(env, st).s.working.Some? {
      MoveAccounts(plan, CaseOf(env, st), w, m);
    }
  }

  /** What is learned is accounted for, except for what is forgotten. */
  lemma {:induction false} PathForgets(x: Setup, moves: seq<Move>)
    requires Path(x, moves) && Proper(x) && Alive(moves)
    ensures StateAfter(x, moves).working.None? ==> Learned(moves) == {}
    ensures forall t :: t in Learned(moves) ==> (t in Forgotten(x, moves) <==> !AccountedFor(StateAfter(x, moves), t))
  {
    if moves == [] {
    } else {
      var front, m := moves[..|moves| - 1], moves[|moves| - 1];
      PathPrefix(x, moves, |front|);
      PathForgets(x, front);
      TurnForgets(x.env, x.plan, StateAfter(x, front), WorldAfter(x, front), m);
      if !JobAnswers(x.env, StateAfter(x, front)) {
        assert Learned(moves) == Learned(front);
      }
    }
  }

  /**
   Every table a run learned of ends in exactly one of its two lists if and only if the last job that
   answered still named every table learned before it and not imported by then. Honest jobs do.
   */
  lemma RunAccountsIff(x: Setup, moves: seq<Move>, r: RunResult)
    requires IsRun(x, moves, r) && Proper(x) && r.Returned?
    ensures (forall t :: t in Learned(moves) ==> (t in r.imported <==> t !in r.permanentlyFailed)) <==> Forgotten(x, moves) == {}
    ensures HonestJobs(x.env) ==> Forgotten(x, moves) == {}
  {
    PathForgets(x, moves);
    PathKeepsInv(x, moves);
    RunAccounts(x, moves, r);
    ListsAccount(x, moves, r);
    if t :| t in Forgotten(x, moves) {
      assert t in Learned(moves) && !(t in r.imported <==> t !in r.permanentlyFailed);
    }
  }

  lemma ListsAccount(x: Setup, moves: seq<Move>, r: RunResult)
    requires IsRun(x, moves, r) && Proper(x) && r.Returned?
    ensures var st := StateAfter(x, moves); st.working.Some? ==>
              forall t :: && (AccountedFor(st, t) <==> t in r.imported || t in r.permanentlyFailed)
                          && (t in r.imported ==> t !in r.permanentlyFailed)
  {
    PathKeepsInv(x, moves);
    PathLast(x, moves);
    var front := moves[..|moves| - 1];
    TurnCounts(x.env, x.plan, StateAfter(x, front), WorldAfter(x, front), moves[|moves| - 1]);
  }

  // ---------- Marked tables ----------

  /** What a table was completed with: the content it was loaded into, and the files. */
  datatype Import = Import(base: Content, files: seq<File>)

  /** Every marked table holds exactly what the attempt that finished it loaded. */
  ghost predicate Exact(w: World, finished: map<Table, Import>) {
    ExactOn(w.dest, w.markers, finished)
  }

  ghost predicate ExactOn(dest: Destination, tables: set<Table>, finished: map<Table, Import>) {
    forall t :: t in tables ==> t in finished && Rows(dest, t) == Loaded(finished[t].base, finished[t].files, t)
  }

  /** Each table holds, under every key, the row of the key's last accepted record, or what its base has there. */
  ghost predicate RecordsOn(dest: Destination, tables: set<Table>, finished: map<Table, Import>) {
    forall t :: t in tables ==> t in finished && HoldsRecords(Rows(dest, t), finished[t].base, finished[t].files, t)
  }

  lemma ExactHoldsRecords(dest: Destination, tables: set<Table>, finished: map<Table, Import>)
    requires ExactOn(dest, tables, finished)
    ensures RecordsOn(dest, tables, finished)
  {
    forall t | t in tables
      ensures HoldsRecords(Rows(dest, t), finished[t].base, finished[t].files, t)
    {
      LoadHoldsRecords(finished[t].base, finished[t].files, t);
    }
  }

  /** These are the files some attempt downloaded. */
  ghost predicate IsDownload(env: Environment, files: seq<File>) {
    exists n :: env.download(n) == Downloaded(files)
  }

  /** The files were downloaded in one attempt, and unless deletes are off they were loaded into an empty table. */
  ghost predicate IsImport(env: Environment, noDelete: bool, i: Import) {
    IsDownload(env, i.files) && (noDelete || i.base == map[])
  }

  /** Whatever is newly recorded as a table's import is one. */
  ghost predicate Extended(was: map<Table, Import>, now: map<Table, Import>, env: Environment, noDelete: bool) {
    forall t :: t in now ==> (t in was && now[t] == was[t]) || IsImport(env, noDelete, now[t])
  }

  /** No marked table changed. */
  ghost predicate Kept(w: World, w': World) {
    w.markers <= w'.markers && forall t :: t in w.markers ==> Rows(w'.dest, t) == Rows(w.dest, t)
  }

  /** Every table marked in between holds its base content and the complete files. */
  ghost predicate MarksLoaded(w: World, c: Config, files: seq<File>, w': World) {
    forall t :: t in w'.markers && t !in w.markers ==> Rows(w'.dest, t) == Loaded(Base(w, c, t), files, t)
  }

  /** Every marked table that a job may report and the schema has is in the imported list. */
  ghost predicate Guarded(imported: seq<Table>, markers: set<Table>, reportable: iset<Table>, known: set<Table>) {
    forall t :: t in markers && t in reportable && t in known ==> t in imported
  }

  /** Every table that a job may report and the schema has is marked already. */
  ghost predicate AllMarked(markers: set<Table>, reportable: iset<Table>, known: set<Table>) {
    forall t :: t in reportable && t in known ==> t in markers
  }

  /** What makes jobs harmless: a dry run must find nothing to mark, and a real one nothing marked to drop. */
  ghost predicate Harmless(dryRun: bool, imported: seq<Table>, markers: set<Table>, reportable: iset<Table>, known: set<Table>) {
    if dryRun then AllMarked(markers, reportable, known) else Guarded(imported, markers, reportable, known)
  }

  lemma NoFilesNoLoad(base: Content, files: seq<File>, t: Table)
    requires FilesOf(files, t) == []
    ensures Loaded(base, files, t) == base
  {
    FilesOfUpserts(files, t);
  }

  /** A dry run that finds nothing to mark in the schema marks at most tables without files. */
  lemma DryMarksLoaded(w: World, c: Config, files: seq<File>, fault: Fault, w': World, err: Option<Error>)
    requires Leaves(w, c, files, fault, w', err) && c.dryRun && forall t :: t in c.tables && t in c.known ==> t in w.markers
    ensures MarksLoaded(w, c, files, w')
  {
    forall t | t in w'.markers && t !in w.markers
      ensures Rows(w'.dest, t) == Loaded(Base(w, c, t), files, t)
    {
      assert t !in c.known;
      NoFilesNoLoad(Base(w, c, t), files, t);
    }
  }

  lemma ImportKeepsMarked(w: World, c: Config, files: seq<File>, fault: Fault, w': World, err: Option<Error>,
                          imported: seq<Table>, reportable: iset<Table>)
    requires Leaves(w, c, files, fault, w', err) && Harmless(c.dryRun, imported, w.markers, reportable, c.known)
    requires forall t :: t in c.tables ==> t in reportable && t !in imported
    ensures Kept(w, w') && MarksLoaded(w, c, files, w')
  {
    if c.dryRun {
      DryMarksLoaded(w, c, files, fault, w', err);
    }
    forall t | t in w.markers
      ensures Rows(w'.dest, t) == Rows(w.dest, t)
    {
      assert !c.dryRun && t in c.tables ==> t !in c.known;
    }
  }

  /** The record of imports after an attempt that kept the marked tables and marked only loaded ones. */
  ghost function Recorded(finished: map<Table, Import>, w: World, c: Config, files: seq<File>, w': World): map<Table, Import> {
    finished + map t | t in w'.markers && t !in w.markers :: Import(Base(w, c, t), files)
  }

  lemma RecordedIsExact(finished: map<Table, Import>, w: World, c: Config, files: seq<File>, w': World)
    requires Kept(w, w') && MarksLoaded(w, c, files, w')
    ensures var finished' := Recorded(finished, w, c, files, w');
            && (Exact(w, finished) ==> Exact(w', finished'))
            && forall t :: t in finished' ==>
                 (t in finished && finished'[t] == finished[t]) || (finished'[t].files == files && (c.noDelete || finished'[t].base == map[]))
  {
  }

  /** A harmless attempt touches no marked table, and newly marked ones hold its complete download. */
  lemma TurnKeepsExact(env: Environment, plan: Plan, st: State, w: World, m: Move, reportable: iset<Table>, finished: map<Table, Import>)
      returns (finished': map<Table, Import>)
    requires Turn(env, plan, st, w, m) && JobsWithin(env, reportable)
    requires Harmless(plan.dryRun, st.imported, w.markers, reportable, plan.known)
    ensures Kept(w, m.world) && Extended(finished, finished', env, plan.noDelete) && (Exact(w, finished) ==> Exact(m.world, finished'))
    ensures MoveMarksLoaded(plan, w, m)
    ensures !m.step.Raise? ==> Harmless(plan.dryRun, m.step.st.imported, m.world.markers, reportable, plan.known)
  {
    finished' := finished;
    var c := CaseOf(env, st);
    CaseFacts(env, st);
    TurnGrowsMarkers(env, plan, st, w, m);
    if c.Loads? {
      LoadIsReported(env, st);
      var load, config := m.load.value, ImportConfig(plan, m.load.value.tables);
      ImportKeepsMarked(w, config, load.files, env.fault(st.attempt + 1), m.world, load.err, st.imported, reportable);
      finished' := Recorded(finished, w, config, load.files, m.world);
      RecordedIsExact(finished, w, config, load.files, m.world);
    } else {
      assert m.world == w;
    }
    NewlyMarkedJoin(plan, c, w, m);
  }

  /** What a move marked, its import loaded. */
  ghost predicate MoveMarksLoaded(plan: Plan, w: World, m: Move) {
    if m.load.Some? then MarksLoaded(w, ImportConfig(plan, m.load.value.tables), m.load.value.files, m.world) else m.world.markers == w.markers
  }

  /** What is loaded was downloaded, and reported by a job. */
  lemma LoadIsReported(env: Environment, st: State)
    requires CaseOf(env, st).Loads?
    ensures var c := CaseOf(env, st);
            && IsDownload(env, c.files)
            && exists n, owed :: env.poll(n, owed).Job? && env.poll(n, owed).names == c.names
  {
    var c := CaseOf(env, st);
    var s := AtHand(env, st.(attempt := st.attempt + 1)).value;
    assert env.download(s.attempt) == Downloaded(c.files);
    assert env.poll(s.attempt, s.owed).names == c.names;
  }

  /** What an attempt marks joins the imported list, whether it ended normally or in a retryable error. */
  lemma NewlyMarkedJoin(plan: Plan, c: Case, w: World, m: Move)
    requires m == MoveOf(plan, c, w, m.world, ErrOf(m)) && MarkersGrow(w, m)
    requires c.Loads? ==> c.s.working == Some(Present(c.names, c.s.imported)) && forall t :: t in c.ready ==> t in c.names && t !in c.s.imported
    ensures !m.step.Raise? ==> forall t :: t in m.world.markers && t !in w.markers ==> t in m.step.st.imported
    ensures !m.step.Raise? ==> forall t :: t in c.s.imported ==> t in m.step.st.imported
  {
  }

  lemma {:induction false} PathKeepsExact(x: Setup, moves: seq<Move>, reportable: iset<Table>, finished: map<Table, Import>)
      returns (finished': map<Table, Import>)
    requires Path(x, moves) && Proper(x) && JobsWithin(x.env, reportable)
    requires Harmless(x.plan.dryRun, x.start.imported, x.world.markers, reportable, x.plan.known)
    ensures Kept(x.world, WorldAfter(x, moves)) && Extended(finished, finished', x.env, x.plan.noDelete)
    ensures Exact(x.world, finished) ==> Exact(WorldAfter(x, moves), finished')
    ensures LastMarksLoaded(x, moves)
    ensures Alive(moves) ==>
              Harmless(x.plan.dryRun, StateAfter(x, moves).imported, WorldAfter(x, moves).markers, reportable, x.plan.known)
  {
    if moves == [] {
      finished' := finished;
    } else {
      var front, m := moves[..|moves| - 1], moves[|moves| - 1];
      PathPrefix(x, moves, |front|);
      PathKeepsInv(x, front);
      var mid := PathKeepsExact(x, front, reportable, finished);
      finished' := TurnKeepsExact(x.env, x.plan, StateAfter(x, front), WorldAfter(x, front), m, reportable, mid);
    }
  }

  /** What the last move of a run so far marked, its import loaded. */
  ghost predicate LastMarksLoaded(x: Setup, moves: seq<Move>) {
    moves != [] ==> MoveMarksLoaded(x.plan, WorldAfter(x, moves[..|moves| - 1]), moves[|moves| - 1])
  }

  // ---------- Exactly when markers mean what they say ----------

  /** What an attempt that nothing disturbs leaves. */
  ghost function Calmly(w: World, c: Config, files: seq<File>): World {
    World(if c.dryRun then w.dest else w.dest + map t | t in c.tables :: Loaded(Base(w, c, t), files, t),
          w.markers + Tables(c.tables))
  }

  lemma CalmLeaves(w: World, c: Config, files: seq<File>)
    requires AllKnown(c)
    ensures Leaves(w, c, files, Never, Calmly(w, c, files), None)
  {
    CalmRows(w, c, files);
    CompleteLeaves(w, c, files, Calmly(w, c, files));
  }

  lemma CalmRows(w: World, c: Config, files: seq<File>)
    ensures forall t :: Rows(Calmly(w, c, files).dest, t) ==
              if !c.dryRun && t in c.tables then Loaded(Base(w, c, t), files, t) else Rows(w.dest, t)
  {
  }

  lemma CompleteLeaves(w: World, c: Config, files: seq<File>, w': World)
    requires AllKnown(c) && w'.markers == w.markers + Tables(c.tables) && (c.dryRun ==> w'.dest == w.dest)
    requires forall t :: Rows(w'.dest, t) == if !c.dryRun && t in c.tables then Loaded(Base(w, c, t), files, t) else Rows(w.dest, t)
    ensures Leaves(w, c, files, Never, w', None)
  {
  }

  /** What an attempt that breaks right after it recreated its tables leaves. */
  function Recreate(d: Destination, tables: seq<Table>): Destination {
    d + map t | t in tables :: map[]
  }

  lemma BreakLeaves(w: World, c: Config, files: seq<File>, kind: Error)
    requires !c.noDelete && !c.dryRun && AllKnown(c)
    ensures Leaves(w, c, files, Fault(1 + |c.tables|, kind, 0), World(Recreate(w.dest, c.tables), w.markers), Some(kind))
  {
  }

  /** One record for a table. */
  function OneRecord(t: Table, row: Row): seq<File> {
    [File(Some(t), [Entry([], row, 0, true)])]
  }

  lemma OneRecordLoads(base: Content, t: Table, row: Row)
    ensures Loaded(base, OneRecord(t, row), t) == base[[] := row]
  {
    var e := Entry([], row, 0, true);
    var f := File(Some(t), [e]);
    OneRecordUpserts(t, e, f);
    FoldOneMore(base, [], ToUpsert(t, e));
    assert [] + [ToUpsert(t, e)] == [ToUpsert(t, e)];
  }

  lemma OneRecordUpserts(t: Table, e: Entry, f: File)
    requires e.accepted && f == File(Some(t), [e])
    ensures AllUpserts([f], {t}) == [ToUpsert(t, e)]
  {
    assert [f][..0] == [] && [e][..0] == [];
    assert EntryUpserts(t, [e]) == [] + [ToUpsert(t, e)];
    assert AllUpserts([f], {t}) == [] + FileUpserts(f, {t});
  }

  /** A row that the content does not hold under the empty key. */
  function OtherRow(c: Content): (row: Row)
    ensures !([] in c && c[[]] == row)
  {
    var row := map["c" := Null];
    if [] in c && c[[]] == map[] then assert "c" in row; row else map[]
  }

  /** Files that would change the table. */
  function ChangingFiles(w: World, t: Table): seq<File> {
    OneRecord(t, OtherRow(Rows(w.dest, t)))
  }

  lemma FilesChange(w: World, c: Config, t: Table)
    ensures Loaded(Base(w, c, t), ChangingFiles(w, t), t) != Rows(w.dest, t)
  {
    var row := OtherRow(Rows(w.dest, t));
    OneRecordLoads(Base(w, c, t), t, row);
    assert Base(w, c, t)[[] := row][[]] == row;
  }

  /** An undisturbed attempt that is given the table changes it, or, in a dry run, marks it without loading it. */
  lemma TouchingAttempt(w: World, c: Config, t: Table)
    requires AllKnown(c) && t in c.tables
    ensures Leaves(w, c, ChangingFiles(w, t), Never, Calmly(w, c, ChangingFiles(w, t)), None)
    ensures !c.dryRun ==> Rows(Calmly(w, c, ChangingFiles(w, t)).dest, t) != Rows(w.dest, t)
    ensures c.dryRun && t !in w.markers ==> !MarksLoaded(w, c, ChangingFiles(w, t), Calmly(w, c, ChangingFiles(w, t)))
  {
    CalmLeaves(w, c, ChangingFiles(w, t));
    FilesChange(w, c, t);
    assert t in Calmly(w, c, ChangingFiles(w, t)).markers;
  }

  /**
   An attempt leaves every marked table alone, whatever it downloads and however it breaks, if and
   only if it is a dry run or none of the tables it is given is marked.
   */
  lemma AttemptKeepsMarkedIff(w: World, c: Config)
    requires AllKnown(c)
    ensures (forall files, fault, w', err :: Leaves(w, c, files, fault, w', err) ==> Kept(w, w')) <==>
            (c.dryRun || forall t :: t in c.tables ==> t !in w.markers)
  {
    if t :| !c.dryRun && t in c.tables && t in w.markers {
      TouchingAttempt(w, c, t);
      var files := ChangingFiles(w, t);
      assert Leaves(w, c, files, Never, Calmly(w, c, files), None) && !Kept(w, Calmly(w, c, files));
    }
  }

  /**
   A marker that an attempt writes means a complete load, whatever it downloads and however it breaks, if
   and only if it is not a dry run or all the tables it is given are marked already.
   */
  lemma AttemptMarksLoadedIff(w: World, c: Config)
    requires AllKnown(c)
    ensures (forall files, fault, w', err :: Leaves(w, c, files, fault, w', err) ==> MarksLoaded(w, c, files, w')) <==>
            (!c.dryRun || forall t :: t in c.tables ==> t in w.markers)
  {
    if t :| c.dryRun && t in c.tables && t !in w.markers {
      TouchingAttempt(w, c, t);
      var files := ChangingFiles(w, t);
      assert Leaves(w, c, files, Never, Calmly(w, c, files), None) && !MarksLoaded(w, c, files, Calmly(w, c, files));
    }
  }

  /** Every run, at every point, with jobs that report only the given tables, leaves the marked tables alone. */
  ghost predicate RunsKeepMarked(plan: Plan, maxRetries: int, start: State, w: World, reportable: iset<Table>) {
    forall env, moves :: var x := Setup(env, plan, maxRetries, start, w);
      JobsWithin(env, reportable) && Path(x, moves) ==> Kept(w, WorldAfter(x, moves))
  }

  /** Every attempt of every run with jobs that report only the given tables marks only what it loaded. */
  ghost predicate RunsMarkLoaded(plan: Plan, maxRetries: int, start: State, w: World, reportable: iset<Table>) {
    forall env, moves :: var x := Setup(env, plan, maxRetries, start, w);
      JobsWithin(env, reportable) && Path(x, moves) ==> LastMarksLoaded(x, moves)
  }

  /** The environment whose only job has one ready table and downloads the given files, and nothing breaks. */
  function Serving(t: Table, files: seq<File>): Environment {
    Environment(n => JobCreated("j"), (n, owed) => Job([t], {}), n => Downloaded(files), n => Never, n => false, n => false)
  }

  /** With a job at hand, an attempt gets as far as that job's answer and the download let it. */
  lemma CaseAtHand(env: Environment, st: State, names: JobTables, failed: set<Table>)
    requires !st.needPost && env.poll(st.attempt + 1, st.owed) == Job(names, failed) && ReadyTables(names, failed, st.imported) != []
    ensures CaseOf(env, st) == DownloadCase(env, Answered(st.(attempt := st.attempt + 1), names), names, ReadyTables(names, failed, st.imported))
  {
    CaseAnswered(env, st, st.(attempt := st.attempt + 1), names, failed);
  }

  lemma CaseAnswered(env: Environment, st: State, s: State, names: JobTables, failed: set<Table>)
    requires AtHand(env, st.(attempt := st.attempt + 1)) == Some(s)
    requires env.poll(s.attempt, s.owed) == Job(names, failed) && ReadyTables(names, failed, s.imported) != []
    ensures CaseOf(env, st) == DownloadCase(env, Answered(s, names), names, ReadyTables(names, failed, s.imported))
  {
    AtHandFacts(env, st);
  }

  lemma ServingJobs(t: Table, files: seq<File>)
    ensures JobsWithin(Serving(t, files), iset{t})
  {
  }

  lemma ServingCase(t: Table, files: seq<File>, st: State) returns (c: Case)
    requires ReadyTables([t], {}, st.imported) == [t]
    ensures c == CaseOf(Serving(t, files), st)
    ensures c == Loads(Answered(AtHand(Serving(t, files), st.(attempt := st.attempt + 1)).value, [t]), [t], [t], files)
  {
    CaseAnswered(Serving(t, files), st, AtHand(Serving(t, files), st.(attempt := st.attempt + 1)).value, [t], {});
    c := CaseOf(Serving(t, files), st);
  }

  /** The first attempt of a run whose job has one ready table, undisturbed. */
  lemma ServingTurn(plan: Plan, st: State, w: World, t: Table, files: seq<File>) returns (m: Move)
    requires t !in st.imported && t in plan.known
    ensures Turn(Serving(t, files), plan, st, w, m)
    ensures m.world == Calmly(w, ImportConfig(plan, [t]), files) && m.load == Some(Load([t], files, None))
    ensures m.step == Finish(Answered(AtHand(Serving(t, files), st.(attempt := st.attempt + 1)).value, [t]), [t], [t])
  {
    OnlyReady(t, st.imported);
    var c := ServingCase(t, files, st);
    m := CalmTurn(Serving(t, files), plan, st, c, w);
  }

  lemma OnlyReady(t: Table, completed: seq<Table>)
    requires t !in completed
    ensures ReadyTables([t], {}, completed) == [t]
  {
    OnlyMember(Present([t], completed), t);
    OnlyMember(ReadyTables([t], {}, completed), t);
  }

  lemma OnlyMember(ts: seq<Table>, t: Table)
    requires DistinctTables(ts) && forall u :: u in ts <==> u == t
    ensures ts == [t]
  {
    assert |ts| > 1 ==> ts[0] != ts[1];
    forall i | 0 <= i < |ts|
      ensures ts[i] == t
    {
      assert ts[i] in ts;
    }
    assert t in ts;
  }

  lemma OneMove(x: Setup, m: Move)
    requires Turn(x.env, x.plan, x.start, x.world, m)
    ensures Path(x, [m]) && WorldAfter(x, [m]) == m.world
    ensures LastMarksLoaded(x, [m]) <==> MoveMarksLoaded(x.plan, x.world, m)
  {
    PathStep(x, [], m);
    assert [] + [m] == [m] && [m][..0] == [];
  }

  /** A run that touches a table it is not guarded against, or marks it without loading it. */
  lemma TouchingRun(plan: Plan, maxRetries: int, start: State, w: World, t: Table) returns (x: Setup, m: Move)
    requires t !in start.imported && t in plan.known
    ensures x == Setup(Serving(t, ChangingFiles(w, t)), plan, maxRetries, start, w) && JobsWithin(x.env, iset{t}) && Path(x, [m])
    ensures !plan.dryRun ==> Rows(WorldAfter(x, [m]).dest, t) != Rows(w.dest, t)
    ensures plan.dryRun && t !in w.markers ==> !LastMarksLoaded(x, [m])
  {
    var files := ChangingFiles(w, t);
    x := Setup(Serving(t, files), plan, maxRetries, start, w);
    m := ServingTurn(plan, start, w, t, files);
    ServingJobs(t, files);
    OneMove(x, m);
    TouchingAttempt(w, ImportConfig(plan, [t]), t);
  }

  /**
   Over whole runs: marked tables are left alone in every run whose jobs report only the given
   tables if and only if it is a dry run or every one of these tables that is marked, and that the
   schema has, is already counted as completed.
   */
  lemma RunsKeepMarkedIff(plan: Plan, maxRetries: int, jobId: string, completed: seq<Table>, w: World, reportable: iset<Table>)
    requires Inv(Start(plan, jobId, completed), plan.initial, w.markers)
    ensures RunsKeepMarked(plan, maxRetries, Start(plan, jobId, completed), w, reportable) <==>
            plan.dryRun || Guarded(completed, w.markers, reportable, plan.known)
  {
    var start := Start(plan, jobId, completed);
    if plan.dryRun || Guarded(completed, w.markers, reportable, plan.known) {
      forall env, moves | JobsWithin(env, reportable) && Path(Setup(env, plan, maxRetries, start, w), moves)
        ensures Kept(w, WorldAfter(Setup(env, plan, maxRetries, start, w), moves))
      {
        var x := Setup(env, plan, maxRetries, start, w);
        if plan.dryRun {
          DryRunKeepsAll(x, moves);
        } else {
          var _ := PathKeepsExact(x, moves, reportable, map[]);
        }
      }
    } else {
      var t :| t in w.markers && t in reportable && t in plan.known && t !in completed;
      var x, m := TouchingRun(plan, maxRetries, start, w, t);
      assert Path(x, [m]) && !Kept(w, WorldAfter(x, [m]));
    }
  }

  lemma {:induction false} DryRunKeepsAll(x: Setup, moves: seq<Move>)
    requires Path(x, moves) && x.plan.dryRun
    ensures WorldAfter(x, moves).dest == x.world.dest && x.world.markers <= WorldAfter(x, moves).markers
  {
    if moves == [] {
    } else {
      var front := moves[..|moves| - 1];
      DryRunKeepsAll(x, front);
      TurnGrowsMarkers(x.env, x.plan, StateAfter(x, front), WorldAfter(x, front), moves[|moves| - 1]);
    }
  }

  /**
   Over whole runs: every attempt of every run whose jobs report only the given tables marks only
   tables that it loaded completely if and only if it is not a dry run or every one of these tables that
   the schema has is marked already.
   */
  lemma RunsMarkLoadedIff(plan: Plan, maxRetries: int, jobId: string, completed: seq<Table>, w: World, reportable: iset<Table>)
    requires Inv(Start(plan, jobId, completed), plan.initial, w.markers)
    ensures RunsMarkLoaded(plan, maxRetries, Start(plan, jobId, completed), w, reportable) <==>
            !plan.dryRun || AllMarked(w.markers, reportable, plan.known)
  {
    var start := Start(plan, jobId, completed);
    if !plan.dryRun || AllMarked(w.markers, reportable, plan.known) {
      forall env, moves | JobsWithin(env, reportable) && Path(Setup(env, plan, maxRetries, start, w), moves)
        ensures LastMarksLoaded(Setup(env, plan, maxRetries, start, w), moves)
      {
        var x := Setup(env, plan, maxRetries, start, w);
        if plan.dryRun {
          var _ := PathKeepsExact(x, moves, reportable, map[]);
        } else if moves != [] {
          RealMoveMarksLoaded(x, moves);
        }
      }
    } else {
      var t :| t in reportable && t in plan.known && t !in w.markers;
      assert t !in start.imported;
      var x, m := TouchingRun(plan, maxRetries, start, w, t);
      assert Path(x, [m]) && !LastMarksLoaded(x, [m]);
    }
  }

  lemma RealMoveMarksLoaded(x: Setup, moves: seq<Move>)
    requires Path(x, moves) && moves != [] && !x.plan.dryRun
    ensures LastMarksLoaded(x, moves)
  {
    PathLast(x, moves);
  }

  // ---------- Resuming after a restart ----------

  /** What the import command is given, apart from a job id. */
  datatype Command = Command(
    latest: seq<Table>, only: seq<Table>, transportNames: set<Table>, maxRetries: int, single: bool, noDelete: bool, dryRun: bool)

  /** The tables a run is about: the filter, or everything in the latest schema. */
  function Candidates(cmd: Command): seq<Table> {
    if cmd.only != [] then cmd.only else cmd.latest
  }

  function Completed(candidate: seq<Table>, markers: set<Table>): (ts: seq<Table>)
    ensures DistinctTables(ts)
    ensures forall t :: t in ts <==> t in candidate && t in markers
  {
    AppendNew([], Among(candidate, markers))
  }

  /** A fresh run asks for the filter as given; a resumed one for what is not completed. */
  function InitialRequest(cmd: Command, completed: seq<Table>): seq<Table> {
    if completed != [] then Minus(Candidates(cmd), completed) else cmd.only
  }

  function PlanOf(cmd: Command, completed: seq<Table>): Plan {
    Plan(InitialRequest(cmd, completed), Tables(cmd.latest), cmd.transportNames, cmd.single, cmd.noDelete, cmd.dryRun)
  }

  function SetupOf(cmd: Command, env: Environment, jobId: string, w: World): Setup {
    var completed := Completed(Candidates(cmd), w.markers);
    var plan := PlanOf(cmd, completed);
    Setup(env, plan, cmd.maxRetries, Start(plan, jobId, completed), w)
  }

  lemma SetupIsProper(cmd: Command, env: Environment, jobId: string, w: World)
    ensures Proper(SetupOf(cmd, env, jobId, w))
  {
  }

  datatype Exit = ExitSuccess | ExitError

  /** How one process of the import command ends: its exit code and the tables it reports as imported. */
  datatype Report = Report(exit: Exit, imported: seq<Table>)

  /** One process, with recovery on: it has nothing to resume, or makes a run. Whole-run success clears the markers. */
  ghost predicate IsProcess(cmd: Command, env: Environment, jobId: string, w: World, moves: seq<Move>, w': World, report: Report) {
    var x := SetupOf(cmd, env, jobId, w);
    if x.start.imported != [] && x.plan.initial == [] then
      w' == World(w.dest, {}) && report == Report(ExitSuccess, x.start.imported)
    else
      exists r :: IsRun(x, moves, r) && Concluded(WorldAfter(x, moves), r, w', report)
  }

  ghost predicate Concluded(w: World, r: RunResult, w': World, report: Report) {
    if r.Returned? && r.permanentlyFailed == [] then w' == World(w.dest, {}) && report == Report(ExitSuccess, r.imported)
    else w' == w && report == Report(ExitError, if r.Returned? then r.imported else [])
  }

  /** The tables a job may report without a marker losing its meaning; see CommandIsSafeIff. */
  ghost function Reportable(cmd: Command, markers: set<Table>): iset<Table> {
    iset t | t !in cmd.latest || if cmd.dryRun then t in markers else t in Candidates(cmd) || t !in markers
  }

  /**
   A command's runs leave marked tables alone and mark only what they load, with every job that reports
   only the given tables, if and only if these are all reportable.
   */
  lemma CommandIsSafeIff(cmd: Command, jobId: string, w: World, reportable: iset<Table>)
    ensures var completed := Completed(Candidates(cmd), w.markers);
            var plan := PlanOf(cmd, completed);
            RunsKeepMarked(plan, cmd.maxRetries, Start(plan, jobId, completed), w, reportable)
            && RunsMarkLoaded(plan, cmd.maxRetries, Start(plan, jobId, completed), w, reportable) <==>
            forall t :: t in reportable ==> t in Reportable(cmd, w.markers)
  {
    var completed := Completed(Candidates(cmd), w.markers);
    var plan := PlanOf(cmd, completed);
    RunsKeepMarkedIff(plan, cmd.maxRetries, jobId, completed, w, reportable);
    RunsMarkLoadedIff(plan, cmd.maxRetries, jobId, completed, w, reportable);
  }

  /** Without a filter, every job of a real run is harmless. */
  lemma FullImportIsSafe(cmd: Command, markers: set<Table>, env: Environment)
    requires cmd.only == [] && !cmd.dryRun
    ensures JobsWithin(env, Reportable(cmd, markers))
  {
  }

  /**
   One process whose jobs report only what they may: it touches no marked table, and every table that
   is marked after it or that it reports as imported holds what one attempt loaded.
   */
  lemma ProcessIsExact(cmd: Command, env: Environment, jobId: string, w: World, moves: seq<Move>, w': World, report: Report,
                       finished: map<Table, Import>)
      returns (finished': map<Table, Import>)
    requires IsProcess(cmd, env, jobId, w, moves, w', report)
    requires JobsWithin(env, Reportable(cmd, w.markers)) && Exact(w, finished)
    ensures forall t :: t in w.markers ==> Rows(w'.dest, t) == Rows(w.dest, t)
    ensures Exact(w', finished') && ExactOn(w'.dest, Tables(report.imported), finished')
    ensures Extended(finished, finished', env, cmd.noDelete)
    ensures report.exit.ExitError? ==> w.markers <= w'.markers && Tables(report.imported) <= w'.markers
  {
    var x := SetupOf(cmd, env, jobId, w);
    finished' := finished;
    if !(x.start.imported != [] && x.plan.initial == []) {
      var r :| IsRun(x, moves, r) && Concluded(WorldAfter(x, moves), r, w', report);
      SetupIsProper(cmd, env, jobId, w);
      finished' := PathKeepsExact(x, moves, Reportable(cmd, w.markers), finished);
      if r.Returned? {
        RunAccounts(x, moves, r);
      }
    }
  }

  /**
   No false success: a process that exits with success either had nothing left to do or imported every table
   that its jobs reported and did not forget; one that exits with an error keeps its markers.
   */
  lemma SuccessMeansAllImported(cmd: Command, env: Environment, jobId: string, w: World, moves: seq<Move>, w': World, report: Report)
    requires IsProcess(cmd, env, jobId, w, moves, w', report)
    ensures var x := SetupOf(cmd, env, jobId, w);
            if x.start.imported != [] && x.plan.initial == [] then
              report.exit.ExitSuccess? && forall t :: t in Candidates(cmd) ==> t in w.markers && t in report.imported
            else
              && (report.exit.ExitSuccess? ==> forall t :: t in Learned(moves) && t !in Forgotten(x, moves) ==> t in report.imported)
              && (report.exit.ExitError? ==> w'.markers == WorldAfter(x, moves).markers)
  {
    var x := SetupOf(cmd, env, jobId, w);
    SetupIsProper(cmd, env, jobId, w);
    if x.start.imported != [] && x.plan.initial == [] {
      forall t | t in Candidates(cmd)
        ensures t in x.start.imported
      {
        assert t !in Minus(Candidates(cmd), x.start.imported);
      }
    } else {
      var r :| IsRun(x, moves, r) && Concluded(WorldAfter(x, moves), r, w', report);
      if report.exit.ExitSuccess? {
        SuccessfulRun(x, moves, r);
      }
    }
  }

  lemma SuccessfulRun(x: Setup, moves: seq<Move>, r: RunResult)
    requires IsRun(x, moves, r) && Proper(x) && r.Returned? && r.permanentlyFailed == []
    ensures forall t :: t in Learned(moves) && t !in Forgotten(x, moves) ==> t in r.imported
  {
    RunAccounts(x, moves, r);
    PathForgets(x, moves);
    ListsAccount(x, moves, r);
  }

  /** One process of the import command with recovery on. */
  method DoImport(importer: SqlImporter, env: Environment, cmd: Command, jobId: string)
      returns (report: Report, ghost moves: seq<Move>)
    modifies importer
    ensures IsProcess(cmd, env, jobId, old(importer.Durable()), moves, importer.Durable(), report)
  {
    var completed := Completed(Candidates(cmd), importer.markers);
    var plan := PlanOf(cmd, completed);
    moves := [];
    if completed != [] && plan.initial == [] {
      importer.markers := {};
      return Report(ExitSuccess, completed), moves;
    }
    var r, _, ms := RunWithRecovery(importer, env, plan, cmd.maxRetries, jobId, completed);
    moves := ms;
    ghost var w := importer.Durable();
    if r.Returned? && r.permanentlyFailed == [] {
      importer.markers := {};
      report := Report(ExitSuccess, r.imported);
    } else {
      report := Report(ExitError, if r.Returned? then r.imported else []);
    }
    assert Concluded(w, r, importer.Durable(), report);
  }

  /** A real import of everything, or one whose jobs, which may depend on the markers, report only what they may. */
  ghost predicate SafeProcess(cmd: Command, env: set<Table> -> Environment) {
    (cmd.only == [] && !cmd.dryRun) || forall ms :: JobsWithin(env(ms), Reportable(cmd, ms))
  }

  /** Each finished table's import is that of some process. */
  ghost predicate ImportsOf(finished: map<Table, Import>, cmds: nat -> Command, envs: nat -> set<Table> -> Environment) {
    forall t :: t in finished ==> exists n, ms :: IsImport(envs(n)(ms), cmds(n).noDelete, finished[t])
  }

  lemma MoreImports(was: map<Table, Import>, now: map<Table, Import>, cmds: nat -> Command, envs: nat -> set<Table> -> Environment,
                    n: nat, ms: set<Table>)
    requires ImportsOf(was, cmds, envs) && Extended(was, now, envs(n)(ms), cmds(n).noDelete)
    ensures ImportsOf(now, cmds, envs)
  {
  }

  /**
   Any number of restarts that share their markers, each with its own flags, latest schema and job id
   and with any behaviour of the stages, until one succeeds. If every process is safe, every table that
   is marked, and every table the last process reports as imported, holds exactly what one attempt of
   one process loaded: the complete files of one download, into an empty table unless deletes are off.
   */
  method ImportWithRestarts(importer: SqlImporter, envs: nat -> set<Table> -> Environment, jobIds: nat -> string, cmds: nat -> Command,
                            processes: nat)
      returns (report: Report, ghost finished: map<Table, Import>)
    requires importer.markers == {}
    modifies importer
    ensures report.exit.ExitSuccess? ==> importer.markers == {}
    ensures (forall n :: 0 <= n < processes ==> SafeProcess(cmds(n), envs(n))) ==>
              && Exact(importer.Durable(), finished) && ExactOn(importer.dest, Tables(report.imported), finished)
              && RecordsOn(importer.dest, importer.markers + Tables(report.imported), finished)
              && ImportsOf(finished, cmds, envs)
  {
    finished, report := map[], Report(ExitError, []);
    ghost var safe := forall n :: 0 <= n < processes ==> SafeProcess(cmds(n), envs(n));
    for n := 0 to processes
      invariant report.exit.ExitError?
      invariant safe ==> Exact(importer.Durable(), finished) && Tables(report.imported) <= importer.markers
      invariant ImportsOf(finished, cmds, envs)
    {
      ghost var w := importer.Durable();
      var env := envs(n)(importer.markers);
      ghost var moves;
      report, moves := DoImport(importer, env, cmds(n), jobIds(n));
      if safe {
        if cmds(n).only == [] && !cmds(n).dryRun {
          FullImportIsSafe(cmds(n), w.markers, env);
        }
        ghost var was := finished;
        finished := ProcessIsExact(cmds(n), env, jobIds(n), w, moves, importer.Durable(), report, finished);
        MoreImports(was, finished, cmds, envs, n, w.markers);
      }
      if report.exit.ExitSuccess? {
        if safe {
          ExactHoldsRecords(importer.dest, importer.markers + Tables(report.imported), finished);
        }
        return;
      }
    }
    if safe {
      ExactHoldsRecords(importer.dest, importer.markers + Tables(report.imported), finished);
    }
  }

  // ---------- Markers that say too much ----------

  /** The record that the examples export. */
  function Exported(t: Table): seq<File> {
    OneRecord(t, map[])
  }

  lemma ExportedLoads(t: Table)
    ensures Loaded(map[], Exported(t), t) != map[]
  {
    OneRecordLoads(map[], t, map[]);
    assert [] in Loaded(map[], Exported(t), t);
  }

  function Both(a: Table, b: Table): JobTables
    requires a != b
  {
    [a, b]
  }

  /** The first process: `a` is reported failed, `b` is loaded and marked, and the next POST is refused for good. */
  function FirstEnvironment(a: Table, b: Table): Environment
    requires a != b
  {
    Environment(n => ExportFails(UsageError), (n, owed) => Job(Both(a, b), {a}), n => Downloaded(Exported(b)),
                n => Never, n => false, n => false)
  }

  /** The command, with its filter and flag, whose latest schema has both tables. */
  function TwoTables(a: Table, b: Table, only: seq<Table>, dryRun: bool): Command {
    Command([a, b], only, {}, 5, false, false, dryRun)
  }

  function TwoTablesPlan(a: Table, b: Table, initial: seq<Table>, dryRun: bool): Plan {
    Plan(initial, {a, b}, {}, false, false, dryRun)
  }

  /** A process that finds nothing of its candidates marked asks for its filter as given. */
  lemma FreshSetup(a: Table, b: Table, only: seq<Table>, dryRun: bool, env: Environment, w: World)
    requires forall t :: t in Candidates(TwoTables(a, b, only, dryRun)) ==> t !in w.markers
    ensures var plan := TwoTablesPlan(a, b, only, dryRun);
            SetupOf(TwoTables(a, b, only, dryRun), env, "J", w) == Setup(env, plan, 5, Start(plan, "J", []), w)
  {
    EmptyOrHasTable(Completed(Candidates(TwoTables(a, b, only, dryRun)), w.markers));
    assert Tables([a, b]) == {a, b};
  }

  lemma EmptyOrHasTable(ts: seq<Table>)
    ensures ts == [] || exists t :: t in ts
  {
    if ts != [] {
      assert ts[0] in ts;
    }
  }

  lemma TwoMembers(ts: seq<Table>, a: Table, b: Table)
    requires DistinctTables(ts) && a != b && forall u :: u in ts <==> u == a || u == b
    ensures |ts| == 2
  {
    assert |ts| > 1 ==> ts[0] != ts[1];
    assert |ts| > 2 ==> ts[0] != ts[2] && ts[1] != ts[2];
    forall i | 0 <= i < |ts|
      ensures ts[i] == a || ts[i] == b
    {
      assert ts[i] in ts;
    }
    assert a in ts && b in ts;
  }

  lemma FirstCase(a: Table, b: Table, st: State) returns (c: Case)
    requires a != b && !st.needPost && st.imported == []
    ensures c == CaseOf(FirstEnvironment(a, b), st)
    ensures c == Loads(Answered(st.(attempt := st.attempt + 1), Both(a, b)), Both(a, b), [b], Exported(b))
  {
    OnlyMember(ReadyTables(Both(a, b), {a}, []), b);
    CaseAtHand(FirstEnvironment(a, b), st, Both(a, b), {a});
    c := CaseOf(FirstEnvironment(a, b), st);
  }

  /** The first attempt of the first process marks `b`, having loaded it unless it is a dry run, and leaves `a` outstanding. */
  lemma FirstLoad(a: Table, b: Table, plan: Plan, st: State, w: World) returns (m: Move)
    requires a != b && b in plan.known && !st.needPost && st.imported == [] && st.attempt == 0 && w == World(map[], {})
    ensures Turn(FirstEnvironment(a, b), plan, st, w, m) && m.world.markers == {b}
    ensures plan.dryRun ==> m.world.dest == map[]
    ensures m.step.Again? && m.step.st.attempt == 1 && m.step.st.needPost && m.step.st.working == Some([a])
  {
    var c := FirstCase(a, b, st);
    m := CalmTurn(FirstEnvironment(a, b), plan, st, c, w);
    FirstLeftover(a, b, c.s);
    CalmFromNothing(ImportConfig(plan, [b]), Exported(b), b);
  }

  lemma CalmFromNothing(c: Config, files: seq<File>, t: Table)
    requires c.tables == [t]
    ensures var w := Calmly(World(map[], {}), c, files); w.markers == {t} && (c.dryRun ==> w.dest == map[])
  {
    assert {} + Tables([t]) == {t};
  }

  lemma FirstLeftover(a: Table, b: Table, s: State)
    requires a != b && s.imported == []
    ensures var st := Leftover(s, Both(a, b), [b]); st.needPost && st.working == Some([a]) && st.attempt == s.attempt
  {
    OnlyMember(Minus(Present(Both(a, b), []), [b]), a);
  }

  /** An attempt whose import nothing disturbs. */
  lemma CalmTurn(env: Environment, plan: Plan, st: State, c: Case, w: World) returns (m: Move)
    requires c == CaseOf(env, st) && c.Loads? && env.fault(st.attempt + 1) == Never && forall t :: t in c.ready ==> t in plan.known
    ensures Turn(env, plan, st, w, m) && m.world == Calmly(w, ImportConfig(plan, c.ready), c.files)
    ensures m.step == Finish(c.s, c.names, c.ready) && m.load == Some(Load(c.ready, c.files, None))
  {
    var w' := Calmly(w, ImportConfig(plan, c.ready), c.files);
    m := MoveOf(plan, c, w, w', None);
    CalmMakesTurn(env, plan, st, c, w, w');
    FinishMoves(plan, c, w, w');
  }

  lemma CalmMakesTurn(env: Environment, plan: Plan, st: State, c: Case, w: World, w': World)
    requires c == CaseOf(env, st) && c.Loads? && env.fault(st.attempt + 1) == Never && forall t :: t in c.ready ==> t in plan.known
    requires w' == Calmly(w, ImportConfig(plan, c.ready), c.files)
    ensures Turn(env, plan, st, w, MoveOf(plan, c, w, w', None))
  {
    CalmLeaves(w, ImportConfig(plan, c.ready), c.files);
    MakesTurn(env, plan, st, c, w, w', None);
  }

  /** An import stage that ended normally finishes the attempt. */
  lemma FinishMoves(plan: Plan, c: Case, w: World, w': World)
    requires c.Loads?
    ensures var m := MoveOf(plan, c, w, w', None);
            m.world == w' && m.step == Finish(c.s, c.names, c.ready) && m.load == Some(Load(c.ready, c.files, None))
  {
  }

  lemma FirstProcess(a: Table, b: Table, only: seq<Table>, dryRun: bool) returns (moves: seq<Move>, w: World)
    requires a != b
    ensures IsProcess(TwoTables(a, b, only, dryRun), FirstEnvironment(a, b), "J", World(map[], {}), moves, w, Report(ExitError, []))
    ensures w.markers == {b} && (dryRun ==> w.dest == map[])
  {
    var env, w0 := FirstEnvironment(a, b), World(map[], {});
    FreshSetup(a, b, only, dryRun, env, w0);
    var x := SetupOf(TwoTables(a, b, only, dryRun), env, "J", w0);
    var m1 := FirstLoad(a, b, x.plan, x.start, w0);
    w := m1.world;
    var m2 := Move(Raise(UsageError), w, PostFailed, {}, None);
    moves := TwoMoves(x, m1, m2);
    assert Concluded(w, Raised(UsageError), w, Report(ExitError, []));
  }

  /** A run of two attempts. */
  lemma TwoMoves(x: Setup, m1: Move, m2: Move) returns (moves: seq<Move>)
    requires Turn(x.env, x.plan, x.start, x.world, m1) && Continues(x, m1)
    requires Turn(x.env, x.plan, m1.step.st, m1.world, m2) && !Continues(x, m2)
    ensures IsRun(x, moves, Closing(x, m2)) && WorldAfter(x, moves) == m2.world && moves == [m1, m2]
  {
    OneMove(x, m1);
    PathStep(x, [m1], m2);
    moves := [m1] + [m2];
  }

  // ---------- A dry run's marker ----------

  /** The process after the dry run: `b` counts as completed, and `a` is asked for. */
  lemma SecondSetup(a: Table, b: Table, env: Environment, w: World)
    requires a != b && w.markers == {b}
    ensures var plan := TwoTablesPlan(a, b, [a], false);
            SetupOf(TwoTables(a, b, [], false), env, "", w) == Setup(env, plan, 5, Start(plan, "", [b]), w)
  {
    var cmd := TwoTables(a, b, [], false);
    OneCompleted(a, b, cmd.latest);
    ResumedSetup(cmd, env, "", w, [b], [a]);
  }

  /** A process that resumes asks for what is not completed. */
  lemma ResumedSetup(cmd: Command, env: Environment, jobId: string, w: World, completed: seq<Table>, initial: seq<Table>)
    requires completed == Completed(Candidates(cmd), w.markers) && completed != [] && initial == Minus(Candidates(cmd), completed)
    ensures var plan := Plan(initial, Tables(cmd.latest), cmd.transportNames, cmd.single, cmd.noDelete, cmd.dryRun);
            SetupOf(cmd, env, jobId, w) == Setup(env, plan, cmd.maxRetries, Start(plan, jobId, completed), w)
  {
  }

  lemma OneCompleted(a: Table, b: Table, latest: seq<Table>)
    requires a != b && latest == [a, b]
    ensures Completed(latest, {b}) == [b] && Minus(latest, [b]) == [a] && Tables(latest) == {a, b}
  {
    assert DistinctTables(latest);
    OnlyMember(Completed(latest, {b}), b);
    OnlyMember(Minus(latest, [b]), a);
  }

  /** With one job for one table, undisturbed, an attempt that has nothing else to do is done. */
  lemma ServingIsDone(plan: Plan, st: State, w: World, t: Table, files: seq<File>) returns (m: Move)
    requires t !in st.imported && t in plan.known
    ensures Turn(Serving(t, files), plan, st, w, m) && m.world == Calmly(w, ImportConfig(plan, [t]), files)
    ensures m.step.Done? && (forall u :: u in st.imported || u == t ==> u in m.step.st.imported)
  {
    m := ServingTurn(plan, st, w, t, files);
    NothingLeft(st, t);
  }

  lemma NothingLeft(s: State, t: Table)
    ensures var st := Leftover(s, [t], [t]); !st.needPost && forall u :: u in st.imported <==> u in s.imported || u == t
  {
    EmptyOrHasTable(Minus(Present([t], s.imported), [t]));
  }

  /**
   A dry run's marker is believed: a dry process marks `b` and breaks, and the real one that follows counts
   `b` as completed and succeeds without ever loading it.
   */
  lemma DryRunMarker(a: Table, b: Table) returns (w: World, moves: seq<Move>, w': World, moves': seq<Move>, report: Report)
    requires a != b
    ensures IsProcess(TwoTables(a, b, [], true), FirstEnvironment(a, b), "J", World(map[], {}), moves, w, Report(ExitError, []))
    ensures IsProcess(TwoTables(a, b, [], false), Serving(a, Exported(a)), "", w, moves', w', report)
    ensures report.exit.ExitSuccess? && b in report.imported
    ensures forall files :: IsDownload(FirstEnvironment(a, b), files) ==> Rows(w'.dest, b) != Loaded(map[], files, b)
  {
    moves, w := FirstProcess(a, b, [], true);
    moves', w', report := BelievingProcess(a, b, w);
    ExportedLoads(b);
  }

  lemma BelievingProcess(a: Table, b: Table, w: World) returns (moves: seq<Move>, w': World, report: Report)
    requires a != b && w.markers == {b}
    ensures IsProcess(TwoTables(a, b, [], false), Serving(a, Exported(a)), "", w, moves, w', report)
    ensures report.exit.ExitSuccess? && b in report.imported && Rows(w'.dest, b) == Rows(w.dest, b)
  {
    var env, plan := Serving(a, Exported(a)), TwoTablesPlan(a, b, [a], false);
    var start := Start(plan, "", [b]);
    var m := ServingIsDone(plan, start, w, a, Exported(a));
    SecondSetup(a, b, env, w);
    DoneProcess(TwoTables(a, b, [], false), env, "", w, Setup(env, plan, 5, start, w), m);
    CalmElsewhere(w, ImportConfig(plan, [a]), Exported(a), b);
    moves, w', report := [m], World(m.world.dest, {}), Report(ExitSuccess, m.step.st.imported);
  }

  lemma CalmElsewhere(w: World, c: Config, files: seq<File>, t: Table)
    requires t !in c.tables
    ensures Rows(Calmly(w, c, files).dest, t) == Rows(w.dest, t)
  {
  }

  /** A process whose first attempt is done. */
  lemma DoneProcess(cmd: Command, env: Environment, jobId: string, w: World, x: Setup, m: Move)
    requires x == SetupOf(cmd, env, jobId, w) && !(x.start.imported != [] && x.plan.initial == [])
    requires Turn(x.env, x.plan, x.start, x.world, m) && m.step.Done?
    ensures IsProcess(cmd, env, jobId, w, [m], World(m.world.dest, {}), Report(ExitSuccess, m.step.st.imported))
  {
    OneMove(x, m);
    var r := Returned(m.step.st.imported, []);
    RunEnds(x, [m], r);
    assert Concluded(m.world, r, World(m.world.dest, {}), Report(ExitSuccess, r.imported));
  }

  // ---------- A job that forgets ----------

  /** A job that reports both tables at first, when the download fails, and only `a` when it is polled again. */
  function ShrinkingEnvironment(a: Table, b: Table): Environment
    requires a != b
  {
    Environment(n => JobCreated("K"), (n, owed) => if n == 1 then Job(Both(a, b), {}) else Job([a], {}),
                n => if n == 1 then DownloadFails(false) else Downloaded(Exported(a)), n => Never, n => false, n => false)
  }

  lemma FirstPoll(a: Table, b: Table, plan: Plan, st: State, w: World) returns (m: Move)
    requires a != b && st.attempt == 0 && !st.needPost && st.imported == [] && w.markers == {}
    ensures Turn(ShrinkingEnvironment(a, b), plan, st, w, m) && m.world == w && b in m.reported
    ensures m.step.Again? && m.step.st.attempt == 1 && !m.step.st.needPost && m.step.st.imported == []
    ensures m.step.st.working.Some? && m.step.st.working.value != []
  {
    var env, s, e := ShrinkingEnvironment(a, b), Answered(st.(attempt := 1), Both(a, b)), DownloadError(false);
    TwoMembers(ReadyTables(Both(a, b), {}, []), a, b);
    CaseAtHand(env, st, Both(a, b), {});
    m := BrokenDownload(env, plan, st, s, Both(a, b), w, e);
    RecoverMembers(s, plan.initial, {}, e);
    EmptyOrHasTable(m.step.st.imported);
    StaleScope(a, b, s.working.value);
  }

  /** A download that breaks in a retryable way recovers and reports the job's tables. */
  lemma BrokenDownload(env: Environment, plan: Plan, st: State, s: State, names: JobTables, w: World, e: Error) returns (m: Move)
    requires CaseOf(env, st) == DownloadBreaks(s, e, names) && IsRecoverable(e)
    ensures Turn(env, plan, st, w, m) && m.world == w && m.reported == Tables(names)
    ensures m.step == Again(Recover(s, plan.initial, w.markers, e))
  {
    m := Move(Again(Recover(s, plan.initial, w.markers, e)), w, Interrupted(e), Tables(names), None);
  }

  lemma SecondPoll(a: Table, b: Table, plan: Plan, st: State, w: World) returns (m: Move)
    requires a != b && st.attempt == 1 && !st.needPost && st.imported == [] && a in plan.known
    ensures Turn(ShrinkingEnvironment(a, b), plan, st, w, m)
    ensures m.step.Done? && b !in m.step.st.imported
  {
    var c := ShrunkCase(a, b, st);
    m := CalmTurn(ShrinkingEnvironment(a, b), plan, st, c, w);
    NothingLeft(c.s, a);
  }

  lemma ShrunkCase(a: Table, b: Table, st: State) returns (c: Case)
    requires a != b && st.attempt == 1 && !st.needPost && st.imported == []
    ensures c == CaseOf(ShrinkingEnvironment(a, b), st)
    ensures c == Loads(Answered(st.(attempt := 2), [a]), [a], [a], Exported(a))
  {
    OnlyReady(a, []);
    CaseAtHand(ShrinkingEnvironment(a, b), st, [a], {});
    c := CaseOf(ShrinkingEnvironment(a, b), st);
  }

  /**
   A table is lost without a trace: a full import whose job reported `a` and `b`, and then, polled again
   after a failed download, only `a`, succeeds without `b`.
   */
  lemma ForgottenTable(a: Table, b: Table, w: World) returns (moves: seq<Move>, w': World, report: Report)
    requires a != b && w.markers == {}
    ensures IsProcess(TwoTables(a, b, [], false), ShrinkingEnvironment(a, b), "J", w, moves, w', report)
    ensures b in Learned(moves) && report.exit.ExitSuccess? && b !in report.imported
  {
    var env, plan := ShrinkingEnvironment(a, b), TwoTablesPlan(a, b, [], false);
    FreshSetup(a, b, [], false, env, w);
    var x := Setup(env, plan, 5, Start(plan, "J", []), w);
    var m1 := FirstPoll(a, b, plan, x.start, w);
    var m2 := SecondPoll(a, b, plan, m1.step.st, m1.world);
    w', report := DoneInTwo(TwoTables(a, b, [], false), env, "J", w, x, m1, m2);
    moves := [m1, m2];
    assert moves[..1] == [m1] && [m1][..0] == [];
  }

  /** A process whose second attempt is done. */
  lemma DoneInTwo(cmd: Command, env: Environment, jobId: string, w: World, x: Setup, m1: Move, m2: Move) returns (w': World, report: Report)
    requires x == SetupOf(cmd, env, jobId, w) && !(x.start.imported != [] && x.plan.initial == [])
    requires Turn(x.env, x.plan, x.start, x.world, m1) && Continues(x, m1)
    requires Turn(x.env, x.plan, m1.step.st, m1.world, m2) && m2.step.Done?
    ensures IsProcess(cmd, env, jobId, w, [m1, m2], w', report)
    ensures w' == World(m2.world.dest, {}) && report == Report(ExitSuccess, m2.step.st.imported)
  {
    var moves := TwoMoves(x, m1, m2);
    var r := Returned(m2.step.st.imported, []);
    w', report := World(m2.world.dest, {}), Report(ExitSuccess, r.imported);
    assert Concluded(m2.world, r, w', report);
  }

  // ---------- A stale marker ----------

  /** The second process: both tables are ready, and the first attempt breaks when it lists the directory. */
  function SecondEnvironment(a: Table, b: Table): Environment
    requires a != b
  {
    Environment(n => ExportFails(UsageError), (n, owed) => Job(Both(a, b), {}), n => Downloaded(Exported(b)),
                n => if n == 1 then Fault(3, OtherError(true), 0) else Never, n => false, n => false)
  }

  /** Both processes are given a filter on `a` and a job that also exported `b`. */
  function StalePlan(a: Table, b: Table): Plan {
    TwoTablesPlan(a, b, [a], false)
  }

  /** The first attempt of the second process drops both tables and, by the stale marker, counts `b` as imported. */
  lemma StaleBreak(a: Table, b: Table, st: State, w: World) returns (m: Move)
    requires a != b && st == Start(StalePlan(a, b), "J", []) && w.markers == {b}
    ensures Turn(SecondEnvironment(a, b), StalePlan(a, b), st, w, m)
    ensures m.world.markers == {b} && Rows(m.world.dest, b) == map[]
    ensures m.step.Again? && m.step.st.attempt == 1 && !m.step.st.needPost
    ensures m.step.st.imported == [b] && m.step.st.working == Some([a])
  {
    var c := SecondCase(a, b, st);
    TwoMembers(c.ready, a, b);
    m := BreakingTurn(SecondEnvironment(a, b), StalePlan(a, b), st, c, w, OtherError(true));
    StaleScope(a, b, c.s.working.value);
    StaleRecover(a, b, c.s);
  }

  /** An attempt that breaks in a retryable way right after it recreated its tables. */
  lemma BreakingTurn(env: Environment, plan: Plan, st: State, c: Case, w: World, e: Error) returns (m: Move)
    requires c == CaseOf(env, st) && c.Loads? && IsRecoverable(e) && env.fault(st.attempt + 1) == Fault(1 + |c.ready|, e, 0)
    requires !plan.noDelete && !plan.dryRun && forall t :: t in c.ready ==> t in plan.known
    ensures Turn(env, plan, st, w, m) && m.step == Again(Recover(c.s, plan.initial, w.markers, e))
    ensures m.world.markers == w.markers && forall t :: t in c.ready ==> Rows(m.world.dest, t) == map[]
  {
    var w' := World(Recreate(w.dest, c.ready), w.markers);
    BreakLeaves(w, ImportConfig(plan, c.ready), c.files, e);
    m := BrokenTurn(env, plan, st, c, w, w', e);
  }

  /** An attempt whose import breaks in a retryable way. */
  lemma BrokenTurn(env: Environment, plan: Plan, st: State, c: Case, w: World, w': World, e: Error) returns (m: Move)
    requires c == CaseOf(env, st) && c.Loads? && IsRecoverable(e)
    requires Leaves(w, ImportConfig(plan, c.ready), c.files, env.fault(st.attempt + 1), w', Some(e))
    ensures Turn(env, plan, st, w, m) && m.world == w' && m.step == Again(Recover(c.s, plan.initial, w'.markers, e))
  {
    MakesTurn(env, plan, st, c, w, w', Some(e));
    m := MoveOf(plan, c, w, w', Some(e));
    BreakMoves(plan, c, w, w', e);
  }

  /** A retryable error of the import stage recovers. */
  lemma BreakMoves(plan: Plan, c: Case, w: World, w': World, e: Error)
    requires c.Loads? && IsRecoverable(e)
    ensures var m := MoveOf(plan, c, w, w', Some(e)); m.world == w' && m.step == Again(Recover(c.s, plan.initial, w'.markers, e))
  {
  }

  /** With a job at hand, the second process loads whatever is not imported yet. */
  lemma SecondCase(a: Table, b: Table, st: State) returns (c: Case)
    requires a != b && !st.needPost && ReadyTables(Both(a, b), {}, st.imported) != []
    ensures c == CaseOf(SecondEnvironment(a, b), st)
    ensures c == Loads(Answered(st.(attempt := st.attempt + 1), Both(a, b)), Both(a, b), ReadyTables(Both(a, b), {}, st.imported), Exported(b))
  {
    CaseAtHand(SecondEnvironment(a, b), st, Both(a, b), {});
    c := CaseOf(SecondEnvironment(a, b), st);
  }

  /** The members of the lists after recovering with a known scope. */
  lemma RecoverMembers(st: State, initial: seq<Table>, markers: set<Table>, e: Error)
    requires st.working.Some?
    ensures var r := Recover(st, initial, markers, e);
            && (forall t :: t in r.imported <==> t in st.imported || (t in st.working.value && t in markers))
            && r.working.Some? && (forall t :: t in r.working.value <==> t in st.working.value && t !in markers)
            && (DistinctTables(st.imported) ==> DistinctTables(r.imported))
            && (DistinctTables(st.working.value) ==> DistinctTables(r.working.value))
            && r.attempt == st.attempt
  {
  }

  lemma StaleScope(a: Table, b: Table, scope: seq<Table>)
    requires a != b && scope == Present(Both(a, b), [])
    ensures DistinctTables(scope) && forall t :: t in scope <==> t == a || t == b
  {
  }

  lemma StaleRecover(a: Table, b: Table, s: State)
    requires a != b && s.imported == [] && s.working.Some?
    requires DistinctTables(s.working.value) && forall t :: t in s.working.value <==> t == a || t == b
    ensures var r := Recover(s, [a], {b}, OtherError(true)); r.imported == [b] && r.working == Some([a])
  {
    RecoverMembers(s, [a], {b}, OtherError(true));
    StaleLists(a, b, s.working.value, Recover(s, [a], {b}, OtherError(true)));
  }

  lemma StaleLists(a: Table, b: Table, scope: seq<Table>, r: State)
    requires a != b && r.working.Some? && DistinctTables(r.imported) && DistinctTables(r.working.value)
    requires forall t :: t in scope <==> t == a || t == b
    requires forall t :: t in r.imported <==> t in scope && t == b
    requires forall t :: t in r.working.value <==> t in scope && t != b
    ensures r.imported == [b] && r.working == Some([a])
  {
    OnlyMember(r.imported, b);
    OnlyMember(r.working.value, a);
  }

  /** Its second attempt loads `a` alone and is done. */
  lemma StaleFinish(a: Table, b: Table, st: State, w: World) returns (m: Move)
    requires a != b && st.attempt == 1 && !st.needPost && st.imported == [b] && w.markers == {b} && Rows(w.dest, b) == map[]
    ensures Turn(SecondEnvironment(a, b), StalePlan(a, b), st, w, m) && Rows(m.world.dest, b) == map[]
    ensures m.step.Done? && b in m.step.st.imported
  {
    OnlyMember(ReadyTables(Both(a, b), {}, [b]), a);
    var c := SecondCase(a, b, st);
    m := CalmTurn(SecondEnvironment(a, b), StalePlan(a, b), st, c, w);
    CalmElsewhere(w, ImportConfig(StalePlan(a, b), [a]), Exported(b), b);
    StaleLeftover(a, b, c.s);
  }

  lemma StaleLeftover(a: Table, b: Table, s: State)
    requires a != b && s.imported == [b]
    ensures var st := Leftover(s, Both(a, b), [a]); !st.needPost && b in st.imported
  {
    EmptyOrHasTable(Minus(Present(Both(a, b), [b]), [a]));
  }

  lemma SecondProcess(a: Table, b: Table, w: World) returns (moves: seq<Move>, w': World, report: Report)
    requires a != b && w.markers == {b}
    ensures IsProcess(TwoTables(a, b, [a], false), SecondEnvironment(a, b), "J", w, moves, w', report)
    ensures report.exit.ExitSuccess? && b in report.imported && Rows(w'.dest, b) == map[]
  {
    var env := SecondEnvironment(a, b);
    FreshSetup(a, b, [a], false, env, w);
    var x := SetupOf(TwoTables(a, b, [a], false), env, "J", w);
    var m1 := StaleBreak(a, b, x.start, w);
    var m2 := StaleFinish(a, b, m1.step.st, m1.world);
    w', report := DoneInTwo(TwoTables(a, b, [a], false), env, "J", w, x, m1, m2);
    moves := [m1, m2];
  }

  /**
   A table that one process marked, the next one dropped, and that it then counted as imported because
   of its stale marker: both are given a job that exported more than the filter names. The last
   process succeeds and reports `b`, whose rows are no attempt's load.
   */
  lemma StaleMarkerRun(a: Table, b: Table) returns (w: World, moves: seq<Move>, w': World, moves': seq<Move>, report: Report)
    requires a != b
    ensures IsProcess(TwoTables(a, b, [a], false), FirstEnvironment(a, b), "J", World(map[], {}), moves, w, Report(ExitError, []))
    ensures IsProcess(TwoTables(a, b, [a], false), SecondEnvironment(a, b), "J", w, moves', w', report)
    ensures report.exit.ExitSuccess? && b in report.imported
    ensures forall files :: IsDownload(FirstEnvironment(a, b), files) || IsDownload(SecondEnvironment(a, b), files) ==>
              Rows(w'.dest, b) != Loaded(map[], files, b)
  {
    moves, w := FirstProcess(a, b, [a], false);
    moves', w', report := SecondProcess(a, b, w);
    ExportedLoads(b);
  }
}
