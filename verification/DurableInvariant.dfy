/** The inductive invariant of the run protocol and its preservation by every step. */
module DurableInvariant {
  import opened Wrappers
  import opened DurableTypes
  import opened DurableSql
  import opened DurableProtocol

  // ---------- the row ----------

  /** A lease exists only on `running`; the pending pair exactly on `waiting`; `finished_at` exactly on
      terminal rows; `fail_reason` exactly on `failed`; `output` exactly on `succeeded`; a cancel request
      never on `queued` or `waiting`. */
  predicate RowOk(row: Row) {
    && (row.lockedBy.Some? <==> row.lockedAt.Some?)
    && (row.lockedBy.Some? ==> row.status.Running?)
    && (row.status.Waiting? <==> row.pendingCall.Some?)
    && (row.pendingCall.Some? <==> row.pendingQuestion.Some?)
    && (row.status.Terminal() <==> row.finishedAt.Some?)
    && (row.status.Failed? <==> row.failReason.Some?)
    && (row.status.Succeeded? <==> row.output.Some?)
    && (row.cancelRequested ==> !row.status.Queued? && !row.status.Waiting?)
    && (row.status.Queued? ==> row.startedAt.None?)
    && (row.status.Running? || row.status.Waiting? ==> row.startedAt.Some?)
  }

  /** The recorded call heads the open batch and is an `ask`. */
  predicate AskHead(run: AgentRun, call: string) {
    run.open != [] && IsAsk(run.open[0]) && run.open[0].id == call
  }

  predicate EndingOk(status: Status, reason: Option<FailReason>, output: Option<string>) {
    && status.Terminal()
    && (status.Failed? <==> reason.Some?)
    && (status.Succeeded? <==> output.Some?)
  }

  // ---------- attempts ----------

  /** The attempt has claimed the run and works on it: losing the lease now would end it in `Ok`. */
  predicate Driving(pc: Pc) {
    || pc.LoopHead? || pc.Tools? || pc.Guard? || pc.Projecting?
    || (pc.Issuing? && (Bearing(pc.w) || pc.w.Heartbeat? || pc.w.FailUnstorable?))
  }

  predicate Carries(w: Write) {
    w.Persist? || w.Suspend? || (w.Finish? && w.carry)
  }

  /** The run state in `w` was derived from commit number `w.base`. */
  predicate WriteOk(log: Log, w: Write) {
    && (Bearing(w) ==> w.base < |log.history| && Grows(log.history[w.base], w.run))
    && (w.Suspend? ==> AskHead(w.run, w.call))
    && (w.Finish? ==> EndingOk(w.status, w.reason, w.output))
    && (w.Finish? && !w.carry ==> w.rows == [] && w.run == log.history[w.base])
  }

  predicate GoalOk(a: Attempt, goal: Goal) {
    && (goal.GSuspend? ==> AskHead(a.run, goal.call))
    && (goal.GFinish? ==> EndingOk(goal.status, goal.reason, goal.output))
  }

  /** Before and while it drives the run, an attempt has no write whose outcome it does not know. */
  predicate Settled(pc: Pc) {
    Driving(pc) || pc.CheckingStatus? || (pc.Issuing? && pc.w.Claim?)
  }

  predicate PcOk(log: Log, a: Attempt) {
    && (Driving(a.pc) ==> a.base < |log.history| && Grows(log.history[a.base], a.run))
    && (a.pc.Issuing? ==> WriteOk(log, a.pc.w))
    && (a.pc.Issuing? && Bearing(a.pc.w) ==> a.pc.w.base == a.base && a.pc.w.run == a.run)
    && (a.pc.Projecting? ==> GoalOk(a, a.pc.goal))
  }

  /** At most one of the writes with unknown outcome carries a run state. */
  predicate LateOk(log: Log, late: set<Write>) {
    && (forall w :: w in late ==> WriteOk(log, w))
    && (forall w, v :: w in late && v in late && Bearing(w) && Bearing(v) ==> w == v)
    && (Claim in late ==> forall w :: w in late ==> !Bearing(w))
  }

  predicate AttemptOk(log: Log, a: Attempt) {
    PcOk(log, a) && LateOk(log, a.late) && (Settled(a.pc) ==> a.late == {})
  }

  /** What the write of the current lease holder must look like: derived from the last commit and
      projected from the stored mark. */
  predicate Timely(s: Sys, w: Write) {
    && (Bearing(w) ==> w.base == Version(s.log))
    && (Carries(w) ==> w.rows == ProjectRows(NextSeq(s.db.transcript), w.run))
  }

  predicate HolderOk(s: Sys, me: Token) {
    && me in s.attempts
    && var a := s.attempts[me];
       && (Driving(a.pc) ==> a.base == Version(s.log))
       && !a.pc.CheckingStatus?
       && (a.pc.Issuing? ==> !a.pc.w.Claim? && Timely(s, a.pc.w))
       && Claim !in a.late
       && (forall w :: w in a.late ==> Timely(s, w))
  }

  // ---------- the log ----------

  predicate LogOk(s: Sys) {
    && s.log.history != []
    && s.db.row.run == s.log.history[|s.log.history| - 1]
    && (forall i :: 0 < i < |s.log.history| ==> Grows(s.log.history[i - 1], s.log.history[i]))
    && s.log.parks == s.log.answers + s.log.parkCancels + (if s.db.row.status.Waiting? then 1 else 0)
  }

  predicate TranscriptOk(s: Sys) {
    && Agrees(s.db.transcript, s.db.row.run)
    && (s.log.projected ==> FullTranscript(s.db.transcript, s.db.row.run))
  }

  predicate QueueOk(s: Sys) {
    && (forall j :: j in s.db.jobs ==> j < s.db.nextJob)
    && (forall j :: j in s.db.jobs && s.db.jobs[j].owner.Some? ==>
          s.db.jobs[j].owner.value in s.attempts && s.attempts[s.db.jobs[j].owner.value].job == j)
  }

  predicate AttemptsOk(s: Sys) {
    forall me :: me in s.attempts ==> AttemptOk(s.log, s.attempts[me])
  }

  predicate Inv(s: Sys) {
    && RowOk(s.db.row)
    && (s.db.row.status.Waiting? ==> AskHead(s.db.row.run, s.db.row.pendingCall.value))
    && LogOk(s)
    && TranscriptOk(s)
    && QueueOk(s)
    && AttemptsOk(s)
    && (s.db.row.lockedBy.Some? ==> HolderOk(s, s.db.row.lockedBy.value))
  }

  lemma InitHolds(s: Sys)
    requires Init(s)
    ensures Inv(s)
  {
    var run, now :| s == InitialSys(run, now);
    assert s.db.transcript == [];
  }

  // ---------- commits ----------

  lemma AttemptOkExtends(log: Log, next: Log, a: Attempt)
    requires AttemptOk(log, a) && log.history <= next.history
    ensures AttemptOk(next, a)
  {
  }

  predicate CommitOk(s: Sys, t: Sys) {
    && RowOk(t.db.row)
    && (t.db.row.status.Waiting? ==> AskHead(t.db.row.run, t.db.row.pendingCall.value))
    && LogOk(t) && TranscriptOk(t) && s.log.history <= t.log.history && s.db.transcript <= t.db.transcript
  }

  lemma PlainCommitKeeps(c: Config, s: Sys, me: Token, w: Write)
    requires Inv(s) && (!Bearing(w) || !Owned(s.db.row, me))
    ensures CommitOk(s, CommitBy(c, s, me, w))
    ensures CommitBy(c, s, me, w).db.transcript == s.db.transcript
  {
  }

  lemma BearingRow(c: Config, s: Sys, me: Token, w: Write)
    requires RowOk(s.db.row) && WriteOk(s.log, w) && Bearing(w) && Owned(s.db.row, me)
    ensures var t := CommitBy(c, s, me, w);
            && RowOk(t.db.row) && t.db.row.run == w.run
            && (t.db.row.status.Waiting? ==> AskHead(t.db.row.run, t.db.row.pendingCall.value))
            && (t.db.row.status.Waiting? <==> w.Suspend? && !s.db.row.cancelRequested)
  {
  }

  lemma BearingLog(c: Config, s: Sys, me: Token, w: Write)
    requires RowOk(s.db.row) && LogOk(s) && WriteOk(s.log, w) && Bearing(w) && Owned(s.db.row, me)
    requires w.base == Version(s.log)
    ensures LogOk(CommitBy(c, s, me, w)) && s.log.history <= CommitBy(c, s, me, w).log.history
    ensures Grows(s.db.row.run, w.run)
    ensures CommitBy(c, s, me, w).log.projected == (s.log.projected || Carries(w))
  {
    BearingRow(c, s, me, w);
  }

  lemma BearingCommitKeeps(c: Config, s: Sys, me: Token, w: Write)
    requires Inv(s) && WriteOk(s.log, w) && Bearing(w) && Owned(s.db.row, me) && Timely(s, w)
    ensures CommitOk(s, CommitBy(c, s, me, w))
    ensures Carries(w) ==> FullTranscript(CommitBy(c, s, me, w).db.transcript, w.run)
    ensures CommitBy(c, s, me, w).db.row.run == w.run
  {
    BearingRow(c, s, me, w);
    BearingLog(c, s, me, w);
    if Carries(w) {
      AgreesGrows(s.db.transcript, s.db.row.run, w.run);
      ProjectionCompletes(s.db.transcript, w.run);
    }
  }

  /** A commit of a well-formed, timely write keeps the row, the log and the transcript in order. */
  lemma CommitKeeps(c: Config, s: Sys, me: Token, w: Write)
    requires Inv(s) && WriteOk(s.log, w)
    requires Owned(s.db.row, me) ==> Timely(s, w)
    ensures var t := CommitBy(c, s, me, w);
            && CommitOk(s, t)
            && (Carries(w) && Owned(s.db.row, me) ==> FullTranscript(t.db.transcript, t.db.row.run))
  {
    if Bearing(w) && Owned(s.db.row, me) {
      BearingCommitKeeps(c, s, me, w);
    } else {
      PlainCommitKeeps(c, s, me, w);
    }
  }

  /** Who holds the lease after a commit: the same as before, the claimer, or nobody. */
  lemma CommitHolder(c: Config, s: Sys, me: Token, w: Write)
    requires RowOk(s.db.row)
    ensures var t := CommitBy(c, s, me, w);
            && (t.db.row.lockedBy.Some? && t.db.row.lockedBy != Some(me) ==>
                  t.db.row == s.db.row && t.db.transcript == s.db.transcript && t.log.history == s.log.history
                  && t.log.projected == s.log.projected)
            && (t.db.row.lockedBy == Some(me) ==>
                  (w.Claim? && Claimable(s.db.row, c.takeover, s.db.now))
                  || (Owned(s.db.row, me) && (w.Claim? || w.Heartbeat? || w.Persist?)))
            && (forall j :: j in s.db.jobs ==> j in t.db.jobs && (j < s.db.nextJob ==> t.db.jobs[j] == s.db.jobs[j]))
  {
  }

  // ---------- every step keeps the invariant ----------

  /** A step that only changes one attempt. */
  lemma LocalKeeps(s: Sys, me: Token, a: Attempt)
    requires Inv(s) && me in s.attempts
    requires AttemptOk(s.log, a) && a.job == s.attempts[me].job
    requires s.db.row.lockedBy == Some(me) ==> HolderOk(WithAttempt(s, me, a), me)
    ensures Inv(WithAttempt(s, me, a))
  {
    var t := WithAttempt(s, me, a);
    if s.db.row.lockedBy.Some? {
      assert HolderOk(s, s.db.row.lockedBy.value);
    }
  }

  /** Attempts other than the writer stay in order under its commit. */
  lemma CommitOthers(c: Config, s: Sys, me: Token, w: Write)
    requires Inv(s) && s.log.history <= CommitBy(c, s, me, w).log.history
    ensures forall other :: other in s.attempts ==> AttemptOk(CommitBy(c, s, me, w).log, s.attempts[other])
  {
    forall other | other in s.attempts
      ensures AttemptOk(CommitBy(c, s, me, w).log, s.attempts[other])
    {
      AttemptOkExtends(s.log, CommitBy(c, s, me, w).log, s.attempts[other]);
    }
  }

  lemma CommitQueue(c: Config, s: Sys, me: Token, w: Write, a: Attempt)
    requires QueueOk(s) && me in s.attempts && a.job == s.attempts[me].job
    ensures QueueOk(WithAttempt(CommitBy(c, s, me, w), me, a))
  {
  }

  /** A step that commits a write of `me` and changes that attempt. */
  lemma CommitStepKeeps(c: Config, s: Sys, me: Token, w: Write, a: Attempt)
    requires Inv(s) && me in s.attempts && WriteOk(s.log, w)
    requires Owned(s.db.row, me) ==> Timely(s, w)
    requires AttemptOk(CommitBy(c, s, me, w).log, a) && a.job == s.attempts[me].job
    requires CommitBy(c, s, me, w).db.row.lockedBy == Some(me) ==>
               HolderOk(WithAttempt(CommitBy(c, s, me, w), me, a), me)
    ensures Inv(WithAttempt(CommitBy(c, s, me, w), me, a))
  {
    var t := CommitBy(c, s, me, w);
    CommitKeeps(c, s, me, w);
    CommitHolder(c, s, me, w);
    CommitOthers(c, s, me, w);
    CommitQueue(c, s, me, w, a);
    if t.db.row.lockedBy.Some? && t.db.row.lockedBy != Some(me) {
      assert HolderOk(s, s.db.row.lockedBy.value);
    }
  }

  lemma ClaimPcOk(s: Sys, a: Attempt, verdict: Verdict)
    requires LogOk(s)
    ensures PcOk(s.log, AfterClaim(a, s.db.row, Version(s.log), verdict))
  {
  }

  lemma ContinuePcOk(c: Config, log: Log, a: Attempt, next: Next)
    requires a.base < |log.history| && Grows(log.history[a.base], a.run)
    ensures PcOk(log, Continue(c, a, next))
    ensures PcOk(log, a.(pc := Projecting(CANCEL_GOAL, ToLoop)))
  {
  }

  lemma IdlePcOk(log: Log, a: Attempt)
    ensures PcOk(log, a.(pc := DecidedOk)) && PcOk(log, a.(pc := DecidedErr)) && PcOk(log, a.(pc := CheckingStatus))
    ensures PcOk(log, a.(pc := RetryPc(a)))
  {
  }

  /** The attempt after a reply is in order, whatever it wrote. */
  lemma ReplyPcOk(c: Config, s: Sys, me: Token, w: Write, a: Attempt, verdict: Verdict)
    requires LogOk(s)
    requires PcOk(s.log, a) && a.pc.Issuing? && a.pc.w == w
    ensures PcOk(CommitBy(c, s, me, w).log, AfterReply(c, s, me, a, w, a.pc.next, verdict))
  {
    var log := CommitBy(c, s, me, w).log;
    IdlePcOk(log, a);
    match w
    case Claim => ClaimPcOk(s, a, verdict);
    case Heartbeat => ContinuePcOk(c, log, a, a.pc.next);
    case Persist(_, _, _, advanced) =>
      if Owned(s.db.row, me) {
        assert log.history[|s.log.history|] == a.run;
        ContinuePcOk(c, log, a.(base := |s.log.history|, progress := a.progress || advanced), a.pc.next);
      }
    case Suspend(_, _, _, _, _) =>
    case Finish(_, _, _, _, _, _, _, _) =>
    case FailUnstorable(_) =>
    case Release(_) =>
    case Requeue =>
  }

  /** A reply leads either out of the drive or, for a settled attempt, on with it. */
  lemma AfterReplyShape(c: Config, s: Sys, me: Token, a: Attempt, w: Write, next: Next, verdict: Verdict)
    requires a.pc.Issuing? && a.pc.w == w
    ensures var b := AfterReply(c, s, me, a, w, next, verdict);
            b.job == a.job && b.late == a.late && (Settled(b.pc) ==> Settled(a.pc))
  {
  }

  /** If the attempt still holds the lease after a reply, what it goes on with is up to date. */
  lemma ReplyHolderOk(c: Config, s: Sys, me: Token, verdict: Verdict)
    requires Inv(s) && Enabled(c, s, Reply(me, verdict))
    ensures var t := Apply(c, s, Reply(me, verdict));
            t.db.row.lockedBy == Some(me) ==> HolderOk(t, me)
  {
    var a := s.attempts[me];
    var w := a.pc.w;
    CommitHolder(c, s, me, w);
    AfterReplyShape(c, s, me, a, w, a.pc.next, verdict);
    if w.Claim? && Claimable(s.db.row, c.takeover, s.db.now) {
      ClaimedHolder(c, s, me, a, verdict);
    } else if w.Heartbeat? && Owned(s.db.row, me) {
      ContinuedHolder(c, a, a.pc.next);
    } else if w.Persist? && Owned(s.db.row, me) {
      ContinuedHolder(c, a.(base := |s.log.history|, progress := a.progress || w.advanced), a.pc.next);
    }
  }

  lemma ClaimedHolder(c: Config, s: Sys, me: Token, a: Attempt, verdict: Verdict)
    requires LogOk(s)
    ensures var b := AfterClaim(a, s.db.row, Version(s.log), verdict);
            && b.base == Version(s.log) && !b.pc.CheckingStatus?
            && (b.pc.Issuing? ==> b.pc.w.Finish? && !b.pc.w.carry && b.pc.w.base == b.base)
  {
  }

  lemma ContinuedHolder(c: Config, a: Attempt, next: Next)
    ensures var b := Continue(c, a, next);
            b.base == a.base && b.late == a.late && !b.pc.CheckingStatus? && !b.pc.Issuing?
  {
  }

  lemma ReplyKeeps(c: Config, s: Sys, me: Token, verdict: Verdict)
    requires Inv(s) && Enabled(c, s, Reply(me, verdict))
    ensures Inv(Apply(c, s, Reply(me, verdict)))
  {
    var a := s.attempts[me];
    var b := AfterReply(c, s, me, a, a.pc.w, a.pc.next, verdict);
    var t := CommitBy(c, s, me, a.pc.w);
    CommitKeeps(c, s, me, a.pc.w);
    AttemptOkExtends(s.log, t.log, a);
    ReplyPcOk(c, s, me, a.pc.w, a, verdict);
    AfterReplyShape(c, s, me, a, a.pc.w, a.pc.next, verdict);
    ReplyHolderOk(c, s, me, verdict);
    CommitStepKeeps(c, s, me, a.pc.w, b);
  }

  lemma LateCommitKeeps(c: Config, s: Sys, me: Token, w: Write)
    requires Inv(s) && Enabled(c, s, LateCommit(me, w))
    ensures Inv(Apply(c, s, LateCommit(me, w)))
  {
    var a := s.attempts[me];
    var t := CommitBy(c, s, me, w);
    CommitKeeps(c, s, me, w);
    CommitHolder(c, s, me, w);
    AttemptOkExtends(s.log, t.log, a);
    CommitStepKeeps(c, s, me, w, a.(late := a.late - {w}));
  }

  /** A crash or a panic leaves the write under way, if any, with an unknown outcome. */
  lemma FallKeeps(s: Sys, me: Token, pc: Pc)
    requires Inv(s) && me in s.attempts && (pc.Dead? || pc.Panicked?)
    ensures Inv(WithAttempt(s, me, Fallen(s.attempts[me], pc)))
  {
    assert AttemptOk(s.log, s.attempts[me]);
    LocalKeeps(s, me, Fallen(s.attempts[me], pc));
  }

  lemma TimeOutKeeps(s: Sys, me: Token)
    requires Inv(s) && me in s.attempts && s.attempts[me].pc.Issuing?
    ensures var a := s.attempts[me]; Inv(WithAttempt(s, me, AfterError(a, a.pc.w).(late := a.late + {a.pc.w})))
  {
    var a := s.attempts[me];
    assert AttemptOk(s.log, a);
    AfterErrorShape(a, a.pc.w);
    LocalKeeps(s, me, AfterError(a, a.pc.w).(late := a.late + {a.pc.w}));
  }

  lemma RejectKeeps(s: Sys, me: Token, b: Attempt)
    requires Inv(s) && me in s.attempts && s.attempts[me].pc.Issuing?
    requires var a := s.attempts[me];
             || b == AfterError(a, a.pc.w)
             || (Bearing(a.pc.w) && b == a.(pc := Issuing(FailUnstorable(a.pc.w.Finish? && a.pc.w.direct), ToLoop)))
    ensures Inv(WithAttempt(s, me, b))
  {
    var a := s.attempts[me];
    assert AttemptOk(s.log, a);
    AfterErrorShape(a, a.pc.w);
    LocalKeeps(s, me, b);
  }

  /** After an error the attempt is on its way out: it releases, requeues or has decided. */
  lemma AfterErrorShape(a: Attempt, w: Write)
    ensures var b := AfterError(a, w);
            && b.job == a.job && b.late == a.late
            && !Driving(b.pc) && !b.pc.CheckingStatus? && !b.pc.Projecting? && !b.pc.DecidedOk?
            && (b.pc.Issuing? ==> b.pc.w.Release? || b.pc.w.Requeue?)
  {
  }

  lemma ReadMarkKeeps(s: Sys, me: Token)
    requires Inv(s) && me in s.attempts && s.attempts[me].pc.Projecting?
    ensures var a := s.attempts[me];
            var rows := ProjectRows(NextSeq(s.db.transcript), a.run);
            Inv(WithAttempt(s, me, a.(pc := Issuing(GoalWrite(a, a.pc.goal, rows), a.pc.next))))
  {
    var a := s.attempts[me];
    var rows := ProjectRows(NextSeq(s.db.transcript), a.run);
    assert AttemptOk(s.log, a);
    LocalKeeps(s, me, a.(pc := Issuing(GoalWrite(a, a.pc.goal, rows), a.pc.next)));
  }

  /** Leaving with nothing more to write than a release or a requeue. */
  lemma LeaveKeeps(s: Sys, me: Token, b: Attempt)
    requires Inv(s) && me in s.attempts
    requires b.job == s.attempts[me].job && b.late == s.attempts[me].late
    requires !Settled(b.pc) && (b.pc.Issuing? ==> b.pc.w.Release? || b.pc.w.Requeue?)
    ensures Inv(WithAttempt(s, me, b))
  {
    assert AttemptOk(s.log, s.attempts[me]);
    LocalKeeps(s, me, b);
  }

  /** What a local step of the attempt's program may do: derive a later run and go on. */
  predicate LocalStep(log: Log, a: Attempt, b: Attempt) {
    && b.job == a.job && b.late == a.late && b.base == a.base && Grows(a.run, b.run)
    && PcOk(log, b)
    && (b.pc.Issuing? ==> b.pc.w.Release? || b.pc.w.Requeue? || b.pc.w.Heartbeat?)
    && !b.pc.CheckingStatus? && !b.pc.DecidedOk?
  }

  lemma ChooseShape(log: Log, a: Attempt, ch: Choice)
    requires ChoiceOk(a, ch) && Driving(a.pc) && PcOk(log, a)
    ensures LocalStep(log, a, Choose(a, ch))
  {
  }

  lemma HandleToolShape(log: Log, a: Attempt, text: string, refusal: Option<FailReason>)
    requires Driving(a.pc) && PcOk(log, a)
    ensures LocalStep(log, a, HandleTool(a, text, refusal))
  {
    if a.run.open != [] && (a.run.open[0].Malformed? || a.run.open[0].question.None?) {
      AnswerHeadShape(log, a, text, refusal, if a.run.open[0].Malformed? then ToTools else ToLoop);
    }
  }

  lemma AnswerHeadShape(log: Log, a: Attempt, text: string, refusal: Option<FailReason>, next: Next)
    requires Driving(a.pc) && PcOk(log, a) && a.run.open != []
    ensures LocalStep(log, a, AnswerHead(a, text, refusal, next))
  {
  }

  lemma GuardEventShape(log: Log, a: Attempt, tool: bool, e: Event)
    requires EventOk(a, tool, e) && Driving(a.pc) && PcOk(log, a)
    ensures LocalStep(log, a, GuardEvent(a, tool, e))
  {
  }

  lemma LocalStepKeeps(s: Sys, me: Token, b: Attempt)
    requires Inv(s) && me in s.attempts && Driving(s.attempts[me].pc) && LocalStep(s.log, s.attempts[me], b)
    ensures Inv(WithAttempt(s, me, b))
  {
    assert AttemptOk(s.log, s.attempts[me]);
    LocalKeeps(s, me, b);
  }

  lemma AttemptStepKeeps(c: Config, s: Sys, st: Step)
    requires Inv(s) && Enabled(c, s, st)
    requires st.Crash? || st.Panic? || st.TimeOut? || st.Reject? || st.ReadStatus? || st.ReadStatusFails?
          || st.ReadMark? || st.ReadMarkFails?
    ensures Inv(Apply(c, s, st))
  {
    var a := s.attempts[st.me];
    if st.Crash? {
      FallKeeps(s, st.me, Dead);
    } else if st.Panic? {
      FallKeeps(s, st.me, Panicked);
    } else if st.TimeOut? {
      TimeOutKeeps(s, st.me);
    } else if st.Reject? {
      RejectKeeps(s, st.me, Apply(c, s, st).attempts[st.me]);
    } else if st.ReadMark? {
      ReadMarkKeeps(s, st.me);
    } else if st.ReadMarkFails? {
      LeaveKeeps(s, st.me, ErrOut(a, GoalDirect(a.pc.goal)));
    } else if st.ReadStatusFails? {
      LeaveKeeps(s, st.me, ErrOut(a, true));
    } else {
      LeaveKeeps(s, st.me, a.(pc := if s.db.row.status.Running? then DecidedErr else DecidedOk));
    }
  }

  lemma ProgramKeeps(c: Config, s: Sys, st: Step)
    requires Inv(s) && Enabled(c, s, st)
    requires st.AtLoop? || st.AtTools? || st.AtGuard?
    ensures Inv(Apply(c, s, st))
  {
    var a := s.attempts[st.me];
    assert AttemptOk(s.log, a);
    if st.AtLoop? {
      ChooseShape(s.log, a, st.choice);
      LocalStepKeeps(s, st.me, Choose(a, st.choice));
    } else if st.AtTools? {
      HandleToolShape(s.log, a, st.text, st.refusal);
      LocalStepKeeps(s, st.me, HandleTool(a, st.text, st.refusal));
    } else {
      GuardEventShape(s.log, a, a.pc.tool, st.event);
      LocalStepKeeps(s, st.me, GuardEvent(a, a.pc.tool, st.event));
    }
  }

  /** A step that only changes job rows and the clock. */
  lemma QueueKeeps(s: Sys, t: Sys)
    requires Inv(s) && QueueOk(t)
    requires t.db == s.db.(jobs := t.db.jobs, now := t.db.now)
    requires t.log == s.log.(deadLetters := t.log.deadLetters)
    requires forall me :: me in s.attempts ==> me in t.attempts && t.attempts[me] == s.attempts[me]
    requires forall me :: me in t.attempts && me !in s.attempts ==> AttemptOk(t.log, t.attempts[me])
    ensures Inv(t)
  {
    forall me | me in t.attempts
      ensures AttemptOk(t.log, t.attempts[me])
    {
      if me in s.attempts {
        AttemptOkExtends(s.log, t.log, s.attempts[me]);
      }
    }
    if s.db.row.lockedBy.Some? {
      assert HolderOk(s, s.db.row.lockedBy.value);
    }
  }

  lemma QueueStepKeeps(c: Config, s: Sys, st: Step)
    requires Inv(s) && Enabled(c, s, st)
    requires st.Tick? || st.TakeJob? || st.BeatJob? || st.CompleteJob? || st.FailJob? || st.UnlockJob?
    ensures Inv(Apply(c, s, st))
  {
    if st.TakeJob? {
      TakeJobKeeps(c, s, st.job, st.me);
    } else {
      assert QueueOk(Apply(c, s, st));
      QueueKeeps(s, Apply(c, s, st));
    }
  }

  lemma TakeJobKeeps(c: Config, s: Sys, job: JobId, me: Token)
    requires Inv(s) && me !in s.attempts && job in s.db.jobs
    ensures Inv(TakeJobStep(c, s, job, me))
  {
    var t := TakeJobStep(c, s, job, me);
    assert QueueOk(t);
    QueueKeeps(s, t);
  }

  lemma UserStepKeeps(c: Config, s: Sys, st: Step)
    requires Inv(s) && Enabled(c, s, st)
    requires st.UserCancel? || st.UserAnswer?
    ensures Inv(Apply(c, s, st))
  {
    var t := Apply(c, s, st);
    if st.UserAnswer? && AnswerTarget(s.db.row).Some? {
      var run := AnsweredRun(s.db.row, st.text);
      AgreesGrows(s.db.transcript, s.db.row.run, run);
      ProjectionCompletes(s.db.transcript, run);
      forall me | me in t.attempts
        ensures AttemptOk(t.log, t.attempts[me])
      {
        AttemptOkExtends(s.log, t.log, s.attempts[me]);
      }
    } else if s.db.row.lockedBy.Some? {
      assert HolderOk(s, s.db.row.lockedBy.value);
      assert t.db.row.lockedBy.Some? ==> HolderOk(t, s.db.row.lockedBy.value);
    }
  }

  lemma StepKeeps(c: Config, s: Sys, st: Step)
    requires Inv(s) && Enabled(c, s, st)
    ensures Inv(Apply(c, s, st))
  {
    if st.Reply? {
      ReplyKeeps(c, s, st.me, st.verdict);
    } else if st.LateCommit? {
      LateCommitKeeps(c, s, st.me, st.w);
    } else if st.UserCancel? || st.UserAnswer? {
      UserStepKeeps(c, s, st);
    } else if st.Tick? || st.TakeJob? || st.BeatJob? || st.CompleteJob? || st.FailJob? || st.UnlockJob? {
      QueueStepKeeps(c, s, st);
    } else if st.AtLoop? || st.AtTools? || st.AtGuard? {
      ProgramKeeps(c, s, st);
    } else {
      AttemptStepKeeps(c, s, st);
    }
  }

  /** The invariant holds in every state of every behavior. */
  lemma {:induction false} AlwaysInv(c: Config, states: seq<Sys>, steps: seq<Step>, n: nat)
    requires Behavior(c, states, steps) && n < |states|
    ensures Inv(states[n])
  {
    if n == 0 {
      InitHolds(states[0]);
    } else {
      AlwaysInv(c, states, steps, n - 1);
      StepKeeps(c, states[n - 1], steps[n - 1]);
    }
  }

  // ---------- one attempt under one step ----------

  /** The step is one of attempt `me` itself. */
  predicate StepOf(st: Step, me: Token) {
    match st
    case Crash(m) => m == me
    case Panic(m) => m == me
    case Reply(m, _) => m == me
    case TimeOut(m) => m == me
    case Reject(m, _) => m == me
    case LateCommit(m, _) => m == me
    case ReadStatus(m) => m == me
    case ReadStatusFails(m) => m == me
    case ReadMark(m) => m == me
    case ReadMarkFails(m) => m == me
    case AtLoop(m, _) => m == me
    case AtTools(m, _, _) => m == me
    case AtGuard(m, _) => m == me
    case _ => false
  }

  /** Nobody else changes an attempt. */
  lemma OthersKeepAttempt(c: Config, s: Sys, st: Step, me: Token)
    requires Enabled(c, s, st) && me in s.attempts && !StepOf(st, me)
    ensures me in Apply(c, s, st).attempts && Apply(c, s, st).attempts[me] == s.attempts[me]
  {
  }

  /** A new attempt is about to claim. */
  lemma NewAttempt(c: Config, s: Sys, st: Step, me: Token)
    requires Enabled(c, s, st) && me !in s.attempts && me in Apply(c, s, st).attempts
    ensures st.TakeJob? && Apply(c, s, st).attempts[me] == NewlyTaken(st.job, s.db.row.run)
  {
  }

  /** Only committed writes and the users change the row, the transcript or the history. */
  lemma OthersKeepRow(c: Config, s: Sys, st: Step)
    requires Enabled(c, s, st)
    requires !st.Reply? && !st.LateCommit? && !st.UserCancel? && !st.UserAnswer?
    ensures var t := Apply(c, s, st);
            && t.db.row == s.db.row && t.db.transcript == s.db.transcript
            && t.log == s.log.(deadLetters := t.log.deadLetters)
  {
  }
}
