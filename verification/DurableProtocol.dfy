/** The durable run protocol: any number of attempts, the job queue, the users and the clock,
    interleaved one database statement or one local step at a time.

    Every write an attempt issues may be answered, may be refused by the database (rolled
    back), or may end for the client in a timeout, a dropped connection or a crash. In the
    last case the write joins `late` and may still commit at any later moment, or never. */
module DurableProtocol {
  import opened Wrappers
  import opened DurableTypes
  import opened DurableSql

  // ---------- what an attempt can ask of the database ----------

  /** The writes of one attempt. `base`, `advanced`, `carry`, `direct` and `early` are client-side
      bookkeeping no statement reads: `base` counts the run-state commits the run was derived from. */
  datatype Write =
    | Claim
    | Heartbeat
    | Persist(run: AgentRun, rows: seq<TranscriptRow>, base: nat, advanced: bool)
    | Suspend(run: AgentRun, rows: seq<TranscriptRow>, base: nat, call: string, question: string)
    | Finish(status: Status, reason: Option<FailReason>, output: Option<string>, run: AgentRun,
             rows: seq<TranscriptRow>, base: nat, carry: bool, direct: bool)
    | FailUnstorable(direct: bool)
    | Release(early: bool)
    | Requeue

  /** A write that stores a run state. */
  predicate Bearing(w: Write) {
    w.Persist? || w.Suspend? || w.Finish?
  }

  /** Whether `w`, executed now for `me`, matches the row. */
  predicate Matches(c: Config, db: RunDb, me: Token, w: Write) {
    if w.Claim? then Claimable(db.row, c.takeover, db.now) else Owned(db.row, me)
  }

  function Commit(c: Config, db: RunDb, me: Token, w: Write): RunDb {
    if w.Requeue? then
      WithJob(if Owned(db.row, me) then db.(row := Unlocked(db.row)) else db)
    else if !Matches(c, db, me, w) then db
    else
      match w
      case Claim => db.(row := ClaimedRow(db.row, me, db.now))
      case Heartbeat => db.(row := db.row.(lockedAt := Some(db.now)))
      case Persist(run, rows, _, _) =>
        db.(row := PersistedRow(db.row, run, db.now), transcript := InsertRows(db.transcript, rows))
      case Suspend(run, rows, _, call, question) =>
        db.(row := SuspendedRow(db.row, run, call, question, db.now), transcript := InsertRows(db.transcript, rows))
      case Finish(status, reason, output, run, rows, _, _, _) =>
        db.(row := FinishedRow(db.row, status, reason, output, run, db.now),
            transcript := InsertRows(db.transcript, rows))
      case FailUnstorable(_) => db.(row := UnstorableRow(db.row, db.now))
      case Release(_) => db.(row := Unlocked(db.row))
      case Requeue => db
  }

  // ---------- the attempt's program ----------

  /** What a pending projection (the read of the high-water mark) is for. */
  datatype Goal =
    | GPersist(advanced: bool)
    | GFinish(status: Status, reason: Option<FailReason>, output: Option<string>, direct: bool)
    | GSuspend(call: string, question: string)

  /** Where a persist or heartbeat that ends well goes on. */
  datatype Next = ToLoop | ToTools | ToBudget | ToModel | ToDone(output: string) | ToGuard(tool: bool)

  datatype Pc =
    | Issuing(w: Write, next: Next)
    | CheckingStatus
    | Projecting(goal: Goal, next: Next)
    | LoopHead
    | Tools
    | Guard(tool: bool)
    | DecidedOk
    | DecidedErr
    | Panicked
    | Dead

  /** `progress`: an advancing persist was seen to commit; `refused`: a requeue was tried and not
      seen to commit; `direct`: the attempt left through the path that never requeues. */
  datatype Attempt = Attempt(
    job: JobId, pc: Pc, run: AgentRun, base: nat,
    progress: bool, refused: bool, direct: bool, late: set<Write>)

  /** History of one run, kept for the statements below; no step reads it. */
  datatype Log = Log(
    history: seq<AgentRun>,      // run states in commit order
    projected: bool,             // some run-carrying write has committed
    parks: nat, answers: nat, parkCancels: nat,
    deadLetters: nat,
    advances: nat, advancedBy: set<Token>,
    freshJobs: nat, requeuedBy: set<Token>,
    persistsSinceCancel: nat)
  {
    predicate DeadLettered() {
      deadLetters > 0
    }
  }

  datatype Sys = Sys(db: RunDb, attempts: map<Token, Attempt>, log: Log)

  /** The index of the run state committed last. */
  function Version(log: Log): nat {
    if log.history == [] then 0 else |log.history| - 1
  }

  function Record(log: Log, db: RunDb, me: Token, w: Write): Log {
    if w.Requeue? then
      log.(freshJobs := log.freshJobs + 1, requeuedBy := log.requeuedBy + {me})
    else if !Owned(db.row, me) then log
    else
      match w
      case Persist(run, _, _, advanced) =>
        var l := log.(history := log.history + [run], projected := true,
                      persistsSinceCancel := log.persistsSinceCancel + if db.row.cancelRequested then 1 else 0);
        if advanced then l.(advances := l.advances + 1, advancedBy := l.advancedBy + {me}) else l
      case Suspend(run, _, _, _, _) =>
        log.(history := log.history + [run], projected := true,
             parks := log.parks + if db.row.cancelRequested then 0 else 1)
      case Finish(_, _, _, run, _, _, carry, _) =>
        if carry then log.(history := log.history + [run], projected := true) else log
      case _ => log
  }

  /** `retry_or_requeue`: hand over to a fresh job row after progress, else release and fail. */
  function RetryPc(a: Attempt): Pc {
    if a.progress then Issuing(Requeue, ToLoop) else Issuing(Release(false), ToLoop)
  }

  function ErrOut(a: Attempt, direct: bool): Attempt {
    if direct then a.(pc := Issuing(Release(false), ToLoop), direct := true) else a.(pc := RetryPc(a))
  }

  /** The attempt after write `w` ended in an error or a timeout. */
  function AfterError(a: Attempt, w: Write): Attempt {
    match w
    case Claim => ErrOut(a, true)
    case Heartbeat => ErrOut(a, false)
    case Persist(_, _, _, _) => ErrOut(a, false)
    case Suspend(_, _, _, _, _) => ErrOut(a, false)
    case Finish(_, _, _, _, _, _, _, direct) => ErrOut(a, direct)
    case FailUnstorable(direct) => ErrOut(a, direct)
    case Release(early) => if early then ErrOut(a, false) else a.(pc := DecidedErr)
    case Requeue => a.(pc := Issuing(Release(false), ToLoop), refused := true)
  }

  datatype Verdict = Usable | KindUnknown | StateCorrupt

  const CANCEL_GOAL := GFinish(Cancelled, None, None, false)

  /** `claim_and_validate` on the claimed row. The terminal paths store the row's own state and project nothing. */
  function AfterClaim(a: Attempt, row: Row, version: nat, verdict: Verdict): Attempt {
    var b := a.(run := row.run, base := version);
    if row.cancelRequested then
      b.(pc := Issuing(Finish(Cancelled, None, None, row.run, [], version, false, true), ToLoop))
    else
      match verdict
      case Usable => b.(pc := LoopHead)
      case KindUnknown =>
        b.(pc := Issuing(Finish(Failed, Some(UnknownKind), None, row.run, [], version, false, true), ToLoop))
      case StateCorrupt =>
        b.(pc := Issuing(Finish(Failed, Some(CorruptState), None, row.run, [], version, false, true), ToLoop))
  }

  /** Go on after a persist that committed and saw no cancel request. */
  function Continue(c: Config, a: Attempt, next: Next): Attempt {
    match next
    case ToLoop => a.(pc := LoopHead)
    case ToTools => a.(pc := Tools)
    case ToBudget =>
      if a.run.tokens > c.tokenLimit
      then a.(pc := Projecting(GFinish(Failed, Some(TokenBudget), None, false), ToLoop))
      else a.(pc := LoopHead)
    case ToModel => a.(pc := Guard(false))
    case ToDone(output) => a.(pc := Projecting(GFinish(Succeeded, None, Some(output), false), ToLoop))
    case ToGuard(tool) => a.(pc := Guard(tool))
  }

  /** The attempt after the database answered its write; `db` is the state the write found. */
  function AfterReply(c: Config, s: Sys, me: Token, a: Attempt, w: Write, next: Next, verdict: Verdict): Attempt {
    var hit := Matches(c, s.db, me, w);
    match w
    case Claim => if hit then AfterClaim(a, s.db.row, Version(s.log), verdict) else a.(pc := CheckingStatus)
    case Heartbeat =>
      if !hit then a.(pc := DecidedOk)
      else if s.db.row.cancelRequested then a.(pc := Projecting(CANCEL_GOAL, ToLoop))
      else Continue(c, a, next)
    case Persist(_, _, _, advanced) =>
      if !hit then a.(pc := DecidedOk)
      else
        var b := a.(base := |s.log.history|, progress := a.progress || advanced);
        if s.db.row.cancelRequested then b.(pc := Projecting(CANCEL_GOAL, ToLoop)) else Continue(c, b, next)
    case Suspend(_, _, _, _, _) => a.(pc := DecidedOk)
    case Finish(_, _, _, _, _, _, _, _) => a.(pc := DecidedOk)
    case FailUnstorable(_) => a.(pc := DecidedOk)
    case Release(early) => if early then a.(pc := RetryPc(a)) else a.(pc := DecidedErr)
    case Requeue => a.(pc := DecidedOk)
  }

  /** The write a finished projection leads to. */
  function GoalWrite(a: Attempt, goal: Goal, rows: seq<TranscriptRow>): Write {
    match goal
    case GPersist(advanced) => Persist(a.run, rows, a.base, advanced)
    case GFinish(status, reason, output, direct) => Finish(status, reason, output, a.run, rows, a.base, true, direct)
    case GSuspend(call, question) => Suspend(a.run, rows, a.base, call, question)
  }

  function GoalDirect(goal: Goal): bool {
    goal.GFinish? && goal.direct
  }

  // ---------- local steps ----------

  /** What the loop head does: rig's `next_step` may commit messages and open a batch (`run`). */
  datatype Choice =
    | Shutdown
    | StepFails(run: AgentRun, reason: FailReason)
    | CallModel(run: AgentRun)
    | PrepareFails(run: AgentRun)
    | CallTools(run: AgentRun)
    | AllDone(run: AgentRun, output: string)

  predicate ChoiceOk(a: Attempt, ch: Choice) {
    ch.Shutdown? || Grows(a.run, ch.run)
  }

  function Choose(a: Attempt, ch: Choice): Attempt {
    match ch
    case Shutdown => a.(pc := RetryPc(a))
    case StepFails(run, reason) => a.(run := run, pc := Projecting(GFinish(Failed, Some(reason), None, true), ToLoop))
    case CallModel(run) => a.(run := run, pc := Projecting(GPersist(false), ToModel))
    case PrepareFails(run) => a.(run := run, pc := Projecting(GFinish(Failed, Some(Protocol), None, false), ToLoop))
    case CallTools(run) => a.(run := run, pc := Tools)
    case AllDone(run, output) => a.(run := run, pc := Projecting(GPersist(false), ToDone(output)))
  }

  /** Close the open call at the head and persist; rig may refuse the answer, which fails the run. */
  function AnswerHead(a: Attempt, text: string, refusal: Option<FailReason>, next: Next): Attempt
    requires a.run.open != []
  {
    match refusal
    case None => a.(run := CloseCall(a.run, 0, text), pc := Projecting(GPersist(true), next))
    case Some(reason) => a.(pc := Projecting(GFinish(Failed, Some(reason), None, false), ToLoop))
  }

  /** `call_tools_step` at the next open call; `text` is corrective feedback. */
  function HandleTool(a: Attempt, text: string, refusal: Option<FailReason>): Attempt {
    if a.run.open == [] then a.(pc := LoopHead)
    else
      match a.run.open[0]
      case Malformed(_) => AnswerHead(a, text, refusal, ToTools)
      case Execute(id, name, question) =>
        if name != ASK then a.(pc := Guard(true))
        else if question.None? then AnswerHead(a, text, refusal, ToLoop)
        else a.(pc := Projecting(GSuspend(id, ReplaceNuls(question.value)), ToLoop))
  }

  /** What can happen while a model call or a tool runs under the lease guard. */
  datatype Event =
    | HeartbeatDue
    | ShutdownNow
    | ModelReplied(run: AgentRun)
    | ToolReplied(text: string)
    | Retryable
    | Fatal(run: AgentRun, reason: FailReason)

  predicate EventOk(a: Attempt, tool: bool, e: Event) {
    match e
    case ModelReplied(run) => !tool && Grows(a.run, run)
    case ToolReplied(_) => tool && a.run.open != []
    case Retryable => true
    case Fatal(run, _) => Grows(a.run, run)
    case _ => true
  }

  function GuardEvent(a: Attempt, tool: bool, e: Event): Attempt
    requires EventOk(a, tool, e)
  {
    match e
    case HeartbeatDue => a.(pc := Issuing(Heartbeat, ToGuard(tool)))
    case ShutdownNow => a.(pc := Issuing(Release(true), ToLoop))
    case ModelReplied(run) => a.(run := run, pc := Projecting(GPersist(true), ToBudget))
    case ToolReplied(text) =>
      a.(run := CloseCall(a.run, 0, ReplaceNuls(text)), pc := Projecting(GPersist(true), ToTools))
    case Retryable => a.(pc := RetryPc(a))
    case Fatal(run, reason) => a.(run := run, pc := Projecting(GFinish(Failed, Some(reason), None, false), ToLoop))
  }

  // ---------- the transition system ----------

  datatype Step =
    | Tick(dt: nat)
    | TakeJob(job: JobId, me: Token)
    | BeatJob(me: Token)
    | CompleteJob(me: Token)
    | FailJob(me: Token)
    | UnlockJob(me: Token)
    | Crash(me: Token)
    | Panic(me: Token)
    | Reply(me: Token, verdict: Verdict)
    | TimeOut(me: Token)
    | Reject(me: Token, unstorable: bool)
    | LateCommit(me: Token, w: Write)
    | ReadStatus(me: Token)
    | ReadStatusFails(me: Token)
    | ReadMark(me: Token)
    | ReadMarkFails(me: Token)
    | AtLoop(me: Token, choice: Choice)
    | AtTools(me: Token, text: string, refusal: Option<FailReason>)
    | AtGuard(me: Token, event: Event)
    | UserCancel
    | UserAnswer(text: string)

  predicate OwnsJob(s: Sys, me: Token, job: JobId) {
    job in s.db.jobs && s.db.jobs[job].owner == Some(me)
  }

  predicate JobFree(c: Config, db: RunDb, job: JobId) {
    job in db.jobs && (db.jobs[job].owner.None? || db.jobs[job].lockedAt + c.reclaimWindow < db.now)
  }

  predicate Enabled(c: Config, s: Sys, st: Step) {
    match st
    case Tick(_) => true
    case TakeJob(job, me) => me !in s.attempts && JobFree(c, s.db, job)
    case BeatJob(me) =>
      me in s.attempts && OwnsJob(s, me, s.attempts[me].job) && Active(s.attempts[me].pc)
    case CompleteJob(me) => me in s.attempts && s.attempts[me].pc.DecidedOk? && OwnsJob(s, me, s.attempts[me].job)
    case FailJob(me) => me in s.attempts && Erring(s.attempts[me].pc) && OwnsJob(s, me, s.attempts[me].job)
    case UnlockJob(me) =>
      me in s.attempts && OwnsJob(s, me, s.attempts[me].job) && !Active(s.attempts[me].pc)
    case Crash(me) => me in s.attempts && Active(s.attempts[me].pc)
    case Panic(me) => me in s.attempts && Active(s.attempts[me].pc)
    case Reply(me, _) => me in s.attempts && s.attempts[me].pc.Issuing?
    case TimeOut(me) => me in s.attempts && s.attempts[me].pc.Issuing?
    case Reject(me, unstorable) =>
      me in s.attempts && s.attempts[me].pc.Issuing? && (unstorable ==> Bearing(s.attempts[me].pc.w))
    case LateCommit(me, w) => me in s.attempts && w in s.attempts[me].late
    case ReadStatus(me) => me in s.attempts && s.attempts[me].pc.CheckingStatus?
    case ReadStatusFails(me) => me in s.attempts && s.attempts[me].pc.CheckingStatus?
    case ReadMark(me) => me in s.attempts && s.attempts[me].pc.Projecting?
    case ReadMarkFails(me) => me in s.attempts && s.attempts[me].pc.Projecting?
    case AtLoop(me, ch) => me in s.attempts && s.attempts[me].pc.LoopHead? && ChoiceOk(s.attempts[me], ch)
    case AtTools(me, _, _) => me in s.attempts && s.attempts[me].pc.Tools?
    case AtGuard(me, e) =>
      me in s.attempts && s.attempts[me].pc.Guard? && EventOk(s.attempts[me], s.attempts[me].pc.tool, e)
    case UserCancel => true
    case UserAnswer(_) => true
  }

  /** The handler is still running. */
  predicate Active(pc: Pc) {
    !pc.DecidedOk? && !pc.DecidedErr? && !pc.Panicked? && !pc.Dead?
  }

  /** The handler ended in an error, returned or caught as a panic. */
  predicate Erring(pc: Pc) {
    pc.DecidedErr? || pc.Panicked?
  }

  /** The handler stopped where it was; the write under way, if any, has an unknown outcome. */
  function Fallen(a: Attempt, pc: Pc): Attempt {
    a.(pc := pc, late := a.late + if a.pc.Issuing? then {a.pc.w} else {})
  }

  function NewlyTaken(job: JobId, run: AgentRun): Attempt {
    Attempt(job, Issuing(Claim, ToLoop), run, 0, false, false, false, {})
  }

  function WithAttempt(s: Sys, me: Token, a: Attempt): Sys {
    s.(attempts := s.attempts[me := a])
  }

  function WithJobs(s: Sys, jobs: map<JobId, Job>): Sys {
    s.(db := s.db.(jobs := jobs))
  }

  /** The worker's claim of a job row: an expired owner is charged; out of retries, the row is dead-lettered. */
  function TakeJobStep(c: Config, s: Sys, job: JobId, me: Token): Sys
    requires job in s.db.jobs
  {
    var j := s.db.jobs[job];
    if j.owner.Some? && j.errorCount >= c.maxRetries then
      WithJobs(s, s.db.jobs - {job}).(log := s.log.(deadLetters := s.log.deadLetters + 1))
    else
      var taken := Job(Some(me), s.db.now, j.errorCount + if j.owner.Some? then 1 else 0);
      WithAttempt(WithJobs(s, s.db.jobs[job := taken]), me,
                  NewlyTaken(job, s.db.row.run))
  }

  function FailJobStep(c: Config, s: Sys, job: JobId): Sys
    requires job in s.db.jobs
  {
    var j := s.db.jobs[job];
    if j.errorCount >= c.maxRetries then
      WithJobs(s, s.db.jobs - {job}).(log := s.log.(deadLetters := s.log.deadLetters + 1))
    else WithJobs(s, s.db.jobs[job := Job(None, 0, j.errorCount + 1)])
  }

  function CommitBy(c: Config, s: Sys, me: Token, w: Write): Sys {
    s.(db := Commit(c, s.db, me, w), log := Record(s.log, s.db, me, w))
  }

  function Apply(c: Config, s: Sys, st: Step): Sys
    requires Enabled(c, s, st)
  {
    match st
    case Tick(dt) => s.(db := s.db.(now := s.db.now + dt))
    case TakeJob(job, me) => TakeJobStep(c, s, job, me)
    case BeatJob(me) =>
      var job := s.attempts[me].job;
      WithJobs(s, s.db.jobs[job := s.db.jobs[job].(lockedAt := s.db.now)])
    case CompleteJob(me) => WithJobs(s, s.db.jobs - {s.attempts[me].job})
    case FailJob(me) => FailJobStep(c, s, s.attempts[me].job)
    case UnlockJob(me) =>
      var job := s.attempts[me].job;
      WithJobs(s, s.db.jobs[job := s.db.jobs[job].(owner := None)])
    case Crash(me) => WithAttempt(s, me, Fallen(s.attempts[me], Dead))
    case Panic(me) => WithAttempt(s, me, Fallen(s.attempts[me], Panicked))
    case Reply(me, verdict) =>
      var a := s.attempts[me];
      WithAttempt(CommitBy(c, s, me, a.pc.w), me, AfterReply(c, s, me, a, a.pc.w, a.pc.next, verdict))
    case TimeOut(me) =>
      var a := s.attempts[me];
      WithAttempt(s, me, AfterError(a, a.pc.w).(late := a.late + {a.pc.w}))
    case Reject(me, unstorable) =>
      var a := s.attempts[me];
      WithAttempt(s, me,
                  if unstorable then a.(pc := Issuing(FailUnstorable(a.pc.w.Finish? && a.pc.w.direct), ToLoop))
                  else AfterError(a, a.pc.w))
    case LateCommit(me, w) =>
      WithAttempt(CommitBy(c, s, me, w), me, s.attempts[me].(late := s.attempts[me].late - {w}))
    case ReadStatus(me) =>
      WithAttempt(s, me, s.attempts[me].(pc := if s.db.row.status.Running? then DecidedErr else DecidedOk))
    case ReadStatusFails(me) => WithAttempt(s, me, ErrOut(s.attempts[me], true))
    case ReadMark(me) =>
      var a := s.attempts[me];
      var rows := ProjectRows(NextSeq(s.db.transcript), a.run);
      WithAttempt(s, me, a.(pc := Issuing(GoalWrite(a, a.pc.goal, rows), a.pc.next)))
    case ReadMarkFails(me) =>
      WithAttempt(s, me, ErrOut(s.attempts[me], GoalDirect(s.attempts[me].pc.goal)))
    case AtLoop(me, ch) => WithAttempt(s, me, Choose(s.attempts[me], ch))
    case AtTools(me, text, refusal) => WithAttempt(s, me, HandleTool(s.attempts[me], text, refusal))
    case AtGuard(me, e) => WithAttempt(s, me, GuardEvent(s.attempts[me], s.attempts[me].pc.tool, e))
    case UserCancel =>
      s.(db := s.db.(row := CancelledRow(s.db.row, c.takeover, s.db.now)),
         log := if s.db.row.status.Waiting? then s.log.(parkCancels := s.log.parkCancels + 1) else s.log)
    case UserAnswer(text) =>
      if AnswerTarget(s.db.row).None? then s
      else s.(db := AnsweredDb(s.db, text),
              log := s.log.(history := s.log.history + [AnsweredRun(s.db.row, text)], projected := true,
                            answers := s.log.answers + 1))
  }

  const EMPTY_LOG := Log([], false, 0, 0, 0, 0, 0, {}, 0, {}, 0)

  /** Just after `start` committed. */
  ghost predicate Init(s: Sys) {
    exists run, now :: s == InitialSys(run, now)
  }

  function InitialSys(run: AgentRun, now: Time): Sys {
    Sys(StartedDb(run, now), map[], EMPTY_LOG.(history := [run]))
  }

  /** A run of the system: `states[i + 1]` follows from `states[i]` by `steps[i]`. */
  ghost predicate Behavior(c: Config, states: seq<Sys>, steps: seq<Step>) {
    && |states| == |steps| + 1
    && Init(states[0])
    && forall i :: 0 <= i < |steps| ==> Enabled(c, states[i], steps[i]) && states[i + 1] == Apply(c, states[i], steps[i])
  }

  /** The write a step commits, if any, and for whom. */
  predicate Commits(s: Sys, st: Step, me: Token, w: Write) {
    || (st.Reply? && st.me == me && me in s.attempts && s.attempts[me].pc.Issuing? && s.attempts[me].pc.w == w)
    || (st.LateCommit? && st.me == me && st.w == w)
  }
}
