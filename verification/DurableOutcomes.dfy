/** What an attempt that holds the run brings about when its writes are answered and nobody steps in between: the stored
    row, transcript and job rows, step by step of its program. */
module DurableOutcomes {
  import opened Wrappers
  import opened DurableTypes
  import opened DurableSql
  import opened DurableProtocol
  import opened DurableInvariant
  import opened DurableTraces

  /** Attempt `me` holds the lease, and no cancel was requested. */
  predicate Leads(s: Sys, me: Token) {
    Inv(s) && s.db.row.lockedBy == Some(me) && me in s.attempts && !s.db.row.cancelRequested
  }

  /** The whole run is in the transcript. */
  predicate Written(t: seq<TranscriptRow>, run: AgentRun) {
    |t| == |run.messages| && forall i :: 0 <= i < |t| ==> t[i].seqNo == i && t[i].message == run.messages[i]
  }

  /** The run state is stored, the lease refreshed, nothing else touched. */
  predicate Stored(s: Sys, me: Token, run: AgentRun, t: Sys) {
    && t.db.row == s.db.row.(run := run, lockedAt := Some(s.db.now))
    && Written(t.db.transcript, run) && t.db.jobs == s.db.jobs && t.db.now == s.db.now
    && Leads(t, me)
  }

  /** The run has ended as said, with this run state, and the attempt has decided to return `Ok`. */
  predicate Ended(s: Sys, me: Token, status: Status, reason: Option<FailReason>, output: Option<string>, run: AgentRun, t: Sys) {
    && t.db.row.status == status && t.db.row.failReason == reason && t.db.row.output == output && t.db.row.run == run
    && t.db.row.finishedAt == Some(s.db.now) && t.db.row.lockedBy.None? && t.db.row.lockedAt.None?
    && Written(t.db.transcript, run) && t.db.jobs == s.db.jobs
    && me in t.attempts && t.attempts[me].pc.DecidedOk?
  }

  lemma HolderOwns(s: Sys, me: Token)
    requires Inv(s) && s.db.row.lockedBy == Some(me)
    ensures Owned(s.db.row, me)
  {
  }

  lemma OneStep(c: Config, s: Sys, st: Step) returns (t: Sys)
    requires Inv(s) && Enabled(c, s, st)
    ensures t == Apply(c, s, st) && Follows(c, s, [st], t) && Inv(t)
  {
    t := Apply(c, s, st);
    assert [st][1..] == [];
    assert Follows(c, t, [], t);
    StepKeeps(c, s, st);
  }

  /** The two steps of a projected write: read the mark, then have the write answered. */
  function WriteSteps(me: Token): seq<Step> {
    [ReadMark(me), Reply(me, Usable)]
  }

  lemma TwoSteps(c: Config, s: Sys, st1: Step, st2: Step) returns (t: Sys)
    requires Inv(s) && Enabled(c, s, st1) && Enabled(c, Apply(c, s, st1), st2)
    ensures t == Apply(c, Apply(c, s, st1), st2) && Follows(c, s, [st1, st2], t) && Inv(t)
  {
    hide Apply, Enabled, Inv;
    var m := OneStep(c, s, st1);
    t := OneStep(c, m, st2);
    FollowsOn(c, s, [st1], m, [st2], t);
    assert [st1] + [st2] == [st1, st2];
  }

  lemma FullIsWritten(t: seq<TranscriptRow>, run: AgentRun)
    requires FullTranscript(t, run)
    ensures Written(t, run)
  {
  }

  /** A persist, projected and answered. */
  lemma Persists(c: Config, s: Sys, me: Token) returns (t: Sys)
    requires Leads(s, me) && s.attempts[me].pc.Projecting? && s.attempts[me].pc.goal.GPersist?
    ensures Follows(c, s, WriteSteps(me), t) && Stored(s, me, s.attempts[me].run, t)
    ensures var a := s.attempts[me];
            t.attempts[me] == Continue(c, a.(base := |s.log.history|, progress := a.progress || a.pc.goal.advanced), a.pc.next)
    ensures forall o :: o in s.attempts && o != me ==> o in t.attempts && t.attempts[o] == s.attempts[o]
  {
    hide ProjectRows, InsertRows, NextSeq, FullTranscript, Follows;
    ProjectedNow(s, me);
    t := TwoSteps(c, s, ReadMark(me), Reply(me, Usable));
    FullIsWritten(t.db.transcript, s.attempts[me].run);
  }

  /** What the holder projects from the stored mark completes the transcript. */
  lemma ProjectedNow(s: Sys, me: Token)
    requires Inv(s) && s.db.row.lockedBy == Some(me) && me in s.attempts && Driving(s.attempts[me].pc)
    ensures var run := s.attempts[me].run;
            FullTranscript(InsertRows(s.db.transcript, ProjectRows(NextSeq(s.db.transcript), run)), run)
  {
    hide InsertRows, ProjectRows, NextSeq;
    assert HolderOk(s, me) && AttemptOk(s.log, s.attempts[me]);
    AgreesGrows(s.db.transcript, s.db.row.run, s.attempts[me].run);
    ProjectionCompletes(s.db.transcript, s.attempts[me].run);
  }

  /** A terminal write, projected and answered. */
  lemma Finishes(c: Config, s: Sys, me: Token) returns (t: Sys)
    requires Inv(s) && s.db.row.lockedBy == Some(me) && me in s.attempts
    requires s.attempts[me].pc.Projecting? && s.attempts[me].pc.goal.GFinish?
    ensures Follows(c, s, WriteSteps(me), t)
    ensures var g := s.attempts[me].pc.goal; Ended(s, me, g.status, g.reason, g.output, s.attempts[me].run, t)
  {
    hide ProjectRows, InsertRows, NextSeq, FullTranscript, Follows;
    ProjectedNow(s, me);
    t := TwoSteps(c, s, ReadMark(me), Reply(me, Usable));
    FullIsWritten(t.db.transcript, s.attempts[me].run);
  }

  // ---------- the loop head ----------

  /** A run that is done succeeds: five steps, and the row holds the output. */
  lemma DoneSucceeds(c: Config, s: Sys, me: Token, run: AgentRun, output: string) returns (t: Sys)
    requires Leads(s, me) && s.attempts[me].pc.LoopHead? && Grows(s.attempts[me].run, run)
    ensures Follows(c, s, [AtLoop(me, AllDone(run, output))] + WriteSteps(me) + WriteSteps(me), t)
    ensures Ended(s, me, Succeeded, None, Some(output), run, t)
  {
    hide Follows, Written;
    var first := AtLoop(me, AllDone(run, output));
    var m := OneStep(c, s, first);
    var n := Persists(c, m, me);
    FollowsOn(c, s, [first], m, WriteSteps(me), n);
    t := Finishes(c, n, me);
    FollowsOn(c, s, [first] + WriteSteps(me), n, WriteSteps(me), t);
  }

  /** A run that cannot go on ends `failed` with the reason rig's error maps to. */
  lemma FailedStepFails(c: Config, s: Sys, me: Token, run: AgentRun, reason: FailReason) returns (t: Sys)
    requires Leads(s, me) && s.attempts[me].pc.LoopHead? && Grows(s.attempts[me].run, run)
    ensures Follows(c, s, [AtLoop(me, StepFails(run, reason))] + WriteSteps(me), t)
    ensures Ended(s, me, Failed, Some(reason), None, run, t)
  {
    hide Follows, Written;
    var first := AtLoop(me, StepFails(run, reason));
    var m := OneStep(c, s, first);
    t := Finishes(c, m, me);
    FollowsOn(c, s, [first], m, WriteSteps(me), t);
  }

  /** A request that cannot be prepared ends the run with `protocol`. */
  lemma UnpreparedFails(c: Config, s: Sys, me: Token, run: AgentRun) returns (t: Sys)
    requires Leads(s, me) && s.attempts[me].pc.LoopHead? && Grows(s.attempts[me].run, run)
    ensures Follows(c, s, [AtLoop(me, PrepareFails(run))] + WriteSteps(me), t)
    ensures Ended(s, me, Failed, Some(Protocol), None, run, t)
  {
    hide Follows, Written;
    var first := AtLoop(me, PrepareFails(run));
    var m := OneStep(c, s, first);
    t := Finishes(c, m, me);
    FollowsOn(c, s, [first], m, WriteSteps(me), t);
  }

  /** The attempt goes on with the stored run; whether it made progress is remembered. */
  predicate GoesOn(t: Sys, me: Token, pc: Pc, progress: bool) {
    me in t.attempts && t.attempts[me].pc == pc && t.attempts[me].run == t.db.row.run && t.attempts[me].progress == progress
  }

  /** The run is stored before the model is called; that is no progress. */
  lemma ModelCallIsCheckpointed(c: Config, s: Sys, me: Token, run: AgentRun) returns (t: Sys)
    requires Leads(s, me) && s.attempts[me].pc.LoopHead? && Grows(s.attempts[me].run, run)
    ensures Follows(c, s, [AtLoop(me, CallModel(run))] + WriteSteps(me), t)
    ensures Stored(s, me, run, t) && GoesOn(t, me, Guard(false), s.attempts[me].progress)
  {
    hide Follows, Written;
    var first := AtLoop(me, CallModel(run));
    var m := OneStep(c, s, first);
    t := Persists(c, m, me);
    FollowsOn(c, s, [first], m, WriteSteps(me), t);
  }

  // ---------- a model reply ----------

  /** A model reply is stored and counts as progress; over the token limit, and only then, the run fails with
      `token_budget`, else the attempt returns to the loop. */
  lemma ModelReplyIsBudgeted(c: Config, s: Sys, me: Token, run: AgentRun) returns (m: Sys, t: Sys)
    requires Leads(s, me) && s.attempts[me].pc == Guard(false) && Grows(s.attempts[me].run, run)
    ensures Follows(c, s, [AtGuard(me, ModelReplied(run))] + WriteSteps(me), m) && Stored(s, me, run, m)
    ensures run.tokens <= c.tokenLimit ==> GoesOn(m, me, LoopHead, true)
    ensures run.tokens > c.tokenLimit ==>
              m.attempts[me].progress && Follows(c, m, WriteSteps(me), t)
              && Ended(m, me, Failed, Some(TokenBudget), None, run, t)
  {
    hide Follows, Written;
    var first := AtGuard(me, ModelReplied(run));
    var n := OneStep(c, s, first);
    m := Persists(c, n, me);
    FollowsOn(c, s, [first], n, WriteSteps(me), m);
    if run.tokens > c.tokenLimit {
      t := Finishes(c, m, me);
    } else {
      t := m;
    }
  }

  /** A failure rig or the gateway calls final ends the run with the reason it maps to. */
  lemma FatalFails(c: Config, s: Sys, me: Token, run: AgentRun, reason: FailReason) returns (t: Sys)
    requires Leads(s, me) && s.attempts[me].pc.Guard? && Grows(s.attempts[me].run, run)
    ensures Follows(c, s, [AtGuard(me, Fatal(run, reason))] + WriteSteps(me), t)
    ensures Ended(s, me, Failed, Some(reason), None, run, t)
  {
    hide Follows, Written;
    var first := AtGuard(me, Fatal(run, reason));
    var m := OneStep(c, s, first);
    t := Finishes(c, m, me);
    FollowsOn(c, s, [first], m, WriteSteps(me), t);
  }

  // ---------- tool calls ----------

  /** A tool's reply closes the call at the head, stored but for its NULs; that is progress, and the batch goes on. */
  lemma ToolReplyIsStored(c: Config, s: Sys, me: Token, text: string) returns (t: Sys)
    requires Leads(s, me) && s.attempts[me].pc == Guard(true) && s.attempts[me].run.open != []
    ensures Follows(c, s, [AtGuard(me, ToolReplied(text))] + WriteSteps(me), t)
    ensures Stored(s, me, t.db.row.run, t) && GoesOn(t, me, Tools, true)
    ensures exists stored :: Sanitized(stored, text) && Closes(s.attempts[me].run, 0, stored, t.db.row.run)
  {
    hide Follows, Written, Sanitized, Closes;
    ReplacesNuls(text);
    CloseCallCloses(s.attempts[me].run, 0, ReplaceNuls(text));
    var first := AtGuard(me, ToolReplied(text));
    var m := OneStep(c, s, first);
    t := Persists(c, m, me);
    FollowsOn(c, s, [first], m, WriteSteps(me), t);
  }

  /** The batch is over when no call is open; a call that is no `ask` runs under the guard. Neither writes. */
  lemma ToolsGoOn(c: Config, s: Sys, me: Token, text: string, refusal: Option<FailReason>)
    requires Leads(s, me) && s.attempts[me].pc.Tools?
    requires var open := s.attempts[me].run.open; open == [] || (open[0].Execute? && open[0].name != ASK)
    ensures var t := Apply(c, s, AtTools(me, text, refusal));
            && t.db == s.db
            && t.attempts[me] == s.attempts[me].(pc := if s.attempts[me].run.open == [] then LoopHead else Guard(true))
  {
  }

  /** The call at the head cannot be executed: it is malformed, or an `ask` whose arguments do not parse. */
  predicate NeedsCorrection(open: seq<ToolCall>) {
    open != [] && (open[0].Malformed? || (IsAsk(open[0]) && open[0].question.None?))
  }

  /** Such a call is closed with corrective feedback and the run goes on: after a malformed call with the batch, after an
      `ask` from the loop head. A run that refuses the feedback fails. */
  lemma CorrectionIsStored(c: Config, s: Sys, me: Token, text: string) returns (t: Sys)
    requires Leads(s, me) && s.attempts[me].pc.Tools? && NeedsCorrection(s.attempts[me].run.open)
    ensures Follows(c, s, [AtTools(me, text, None)] + WriteSteps(me), t) && Stored(s, me, t.db.row.run, t)
    ensures Closes(s.attempts[me].run, 0, text, t.db.row.run)
    ensures GoesOn(t, me, if s.attempts[me].run.open[0].Malformed? then Tools else LoopHead, true)
  {
    hide Follows, Written, Closes;
    CloseCallCloses(s.attempts[me].run, 0, text);
    var first := AtTools(me, text, None);
    var m := OneStep(c, s, first);
    t := Persists(c, m, me);
    FollowsOn(c, s, [first], m, WriteSteps(me), t);
  }

  lemma RefusedCorrectionFails(c: Config, s: Sys, me: Token, text: string, reason: FailReason) returns (t: Sys)
    requires Leads(s, me) && s.attempts[me].pc.Tools? && NeedsCorrection(s.attempts[me].run.open)
    ensures Follows(c, s, [AtTools(me, text, Some(reason))] + WriteSteps(me), t)
    ensures Ended(s, me, Failed, Some(reason), None, s.attempts[me].run, t)
  {
    hide Follows, Written;
    var first := AtTools(me, text, Some(reason));
    var m := OneStep(c, s, first);
    t := Finishes(c, m, me);
    FollowsOn(c, s, [first], m, WriteSteps(me), t);
  }

  /** An `ask` parks the run behind its question, stored but for its NULs: the call recorded, the lease gone, every
      message written, no job added, and the attempt done. */
  lemma AskParks(c: Config, s: Sys, me: Token, text: string, refusal: Option<FailReason>) returns (t: Sys)
    requires Leads(s, me) && s.attempts[me].pc.Tools?
    requires var open := s.attempts[me].run.open; open != [] && IsAsk(open[0]) && open[0].question.Some?
    ensures Follows(c, s, [AtTools(me, text, refusal)] + WriteSteps(me), t)
    ensures var run := s.attempts[me].run;
            && t.db.row.status == Waiting && t.db.row.run == run && Written(t.db.transcript, run)
            && t.db.row.pendingCall == Some(run.open[0].id)
            && t.db.row.pendingQuestion.Some? && Sanitized(t.db.row.pendingQuestion.value, run.open[0].question.value)
            && t.db.row.lockedBy.None? && t.db.row.finishedAt.None? && t.db.jobs == s.db.jobs
            && me in t.attempts && t.attempts[me].pc.DecidedOk?
  {
    hide Follows, Written, Sanitized, ProjectRows, InsertRows, NextSeq, FullTranscript;
    var run := s.attempts[me].run;
    ReplacesNuls(run.open[0].question.value);
    var first := AtTools(me, text, refusal);
    var m := OneStep(c, s, first);
    t := Suspends(c, m, me);
    FollowsOn(c, s, [first], m, WriteSteps(me), t);
  }

  /** A suspension, projected and answered. */
  lemma Suspends(c: Config, s: Sys, me: Token) returns (t: Sys)
    requires Leads(s, me) && s.attempts[me].pc.Projecting? && s.attempts[me].pc.goal.GSuspend?
    ensures Follows(c, s, WriteSteps(me), t)
    ensures var a := s.attempts[me];
            && t.db.row == s.db.row.(status := Waiting, run := a.run, pendingCall := Some(a.pc.goal.call),
                                     pendingQuestion := Some(a.pc.goal.question), lockedBy := None, lockedAt := None)
            && Written(t.db.transcript, a.run) && t.db.jobs == s.db.jobs
            && me in t.attempts && t.attempts[me].pc.DecidedOk?
  {
    hide ProjectRows, InsertRows, NextSeq, FullTranscript, Follows;
    ProjectedNow(s, me);
    HolderOwns(s, me);
    hide Inv;
    t := TwoSteps(c, s, ReadMark(me), Reply(me, Usable));
    FullIsWritten(t.db.transcript, s.attempts[me].run);
  }

  // ---------- leaving ----------

  /** The lease is released; with a fresh job row, or without one and the attempt about to return an error. */
  predicate Left(s: Sys, me: Token, requeued: bool, t: Sys) {
    && t.db.row == s.db.row.(lockedBy := None, lockedAt := None) && t.db.transcript == s.db.transcript
    && t.db.jobs == (if requeued then s.db.jobs[s.db.nextJob := Job(None, 0, 0)] else s.db.jobs)
    && me in t.attempts && (if requeued then t.attempts[me].pc.DecidedOk? else t.attempts[me].pc.DecidedErr?)
  }

  /** After a retryable end of a step the run is handed on: with progress to a fresh job row, without to the old one. */
  lemma RetryHandsOn(c: Config, s: Sys, me: Token, st: Step) returns (t: Sys)
    requires Leads(s, me) && Enabled(c, s, st)
    requires st == AtLoop(me, Shutdown) || st == AtGuard(me, Retryable)
    ensures Follows(c, s, [st, Reply(me, Usable)], t)
    ensures Left(s, me, s.attempts[me].progress, t)
  {
    HolderOwns(s, me);
    hide Follows, Inv;
    t := TwoSteps(c, s, st, Reply(me, Usable));
  }

  lemma RefusedWriteLeaves(a: Attempt, w: Write)
    requires w.Persist? || w.Suspend? || w.Heartbeat? || (w.Finish? && !w.direct)
    ensures AfterError(a, w) == a.(pc := Issuing(if a.progress then Requeue else Release(false), ToLoop))
  {
  }

  /** The last write of an attempt that leaves, answered. */
  lemma Leaves(c: Config, s: Sys, me: Token) returns (t: Sys)
    requires Inv(s) && me in s.attempts && s.attempts[me].pc.Issuing?
    requires s.attempts[me].pc.w == Requeue || s.attempts[me].pc.w == Release(false)
    requires Owned(s.db.row, me) || s.db.row.lockedBy.None?
    ensures Follows(c, s, [Reply(me, Usable)], t) && Left(s, me, s.attempts[me].pc.w.Requeue?, t)
  {
    assert s.db.row.lockedBy.None? ==> s.db.row.lockedAt.None?;
    hide Follows, Inv;
    t := OneStep(c, s, Reply(me, Usable));
  }

  /** The same after a persist, a suspension, a heartbeat or a finish that the database refused. */
  lemma RefusalHandsOn(c: Config, s: Sys, me: Token) returns (t: Sys)
    requires Leads(s, me) && s.attempts[me].pc.Issuing?
    requires var w := s.attempts[me].pc.w; w.Persist? || w.Suspend? || w.Heartbeat? || (w.Finish? && !w.direct)
    ensures Follows(c, s, [Reject(me, false)] + [Reply(me, Usable)], t)
    ensures Left(s, me, s.attempts[me].progress, t)
  {
    HolderOwns(s, me);
    hide Follows, Inv, AfterError;
    RefusedWriteLeaves(s.attempts[me], s.attempts[me].pc.w);
    var m := OneStep(c, s, Reject(me, false));
    t := Leaves(c, m, me);
    FollowsOn(c, s, [Reject(me, false)], m, [Reply(me, Usable)], t);
  }

  /** What an attempt does when the database refuses or does not answer: it leaves the run alone; after a claim, a status
      read, or a write of the paths that never requeue it releases the lease without a job row, after a requeue too, after
      the release itself it returns an error, and anywhere else it hands on, to a fresh job row exactly after progress. */
  lemma ErrorsGoOn(c: Config, s: Sys, me: Token, st: Step)
    requires Enabled(c, s, st)
    requires st == Reject(me, false) || st == TimeOut(me) || st == ReadStatusFails(me) || st == ReadMarkFails(me)
    ensures Apply(c, s, st).db == s.db && me in s.attempts && me in Apply(c, s, st).attempts
    ensures var a, b := s.attempts[me], Apply(c, s, st).attempts[me];
            && b.late == (if st.TimeOut? then a.late + {a.pc.w} else a.late)
            && (if a.pc.Issuing? && a.pc.w == Release(false) then b.pc == DecidedErr
                else if a.pc.CheckingStatus? || (a.pc.Issuing? && (a.pc.w.Claim? || a.pc.w.Requeue?))
                     || (a.pc.Issuing? && (a.pc.w.Finish? || a.pc.w.FailUnstorable?) && a.pc.w.direct)
                     || (a.pc.Projecting? && a.pc.goal.GFinish? && a.pc.goal.direct)
                then b.pc == Issuing(Release(false), ToLoop)
                else b.pc == Issuing(if a.progress then Requeue else Release(false), ToLoop))
  {
  }

  /** A shutdown under the guard releases the lease first and then hands on. */
  lemma ShutdownHandsOn(c: Config, s: Sys, me: Token) returns (t: Sys)
    requires Leads(s, me) && s.attempts[me].pc.Guard?
    ensures Follows(c, s, [AtGuard(me, ShutdownNow), Reply(me, Usable)] + [Reply(me, Usable)], t)
    ensures Left(s, me, s.attempts[me].progress, t)
  {
    hide Follows, Inv;
    var m := ShutdownReleases(c, s, me);
    t := Leaves(c, m, me);
    FollowsOn(c, s, [AtGuard(me, ShutdownNow), Reply(me, Usable)], m, [Reply(me, Usable)], t);
  }

  lemma ShutdownReleases(c: Config, s: Sys, me: Token) returns (t: Sys)
    requires Leads(s, me) && s.attempts[me].pc.Guard?
    ensures Inv(t) && Follows(c, s, [AtGuard(me, ShutdownNow), Reply(me, Usable)], t)
    ensures t.db == s.db.(row := s.db.row.(lockedBy := None, lockedAt := None)) && me in t.attempts
    ensures t.attempts[me].pc == Issuing(if s.attempts[me].progress then Requeue else Release(false), ToLoop)
  {
    HolderOwns(s, me);
    hide Follows, Inv;
    t := TwoSteps(c, s, AtGuard(me, ShutdownNow), Reply(me, Usable));
  }

  /** Content the database cannot store fails the run and keeps the last stored state and transcript. */
  lemma UnstorableFails(c: Config, s: Sys, me: Token) returns (t: Sys)
    requires Leads(s, me) && s.attempts[me].pc.Issuing? && Bearing(s.attempts[me].pc.w)
    ensures Follows(c, s, [Reject(me, true), Reply(me, Usable)], t)
    ensures && t.db.row.status == Failed && t.db.row.failReason == Some(UnstorableContent) && t.db.row.run == s.db.row.run
            && t.db.row.output.None? && t.db.row.lockedBy.None? && t.db.transcript == s.db.transcript
            && t.db.jobs == s.db.jobs && me in t.attempts && t.attempts[me].pc.DecidedOk?
  {
    HolderOwns(s, me);
    hide Follows, Inv;
    t := TwoSteps(c, s, Reject(me, true), Reply(me, Usable));
  }

  // ---------- heartbeats and cancel ----------

  /** A heartbeat refreshes the lease and the guarded step goes on. */
  lemma HeartbeatGoesOn(c: Config, s: Sys, me: Token) returns (t: Sys)
    requires Leads(s, me) && s.attempts[me].pc.Guard?
    ensures Follows(c, s, [AtGuard(me, HeartbeatDue), Reply(me, Usable)], t)
    ensures t.db == s.db.(row := s.db.row.(lockedAt := Some(s.db.now)))
    ensures me in t.attempts && t.attempts[me] == s.attempts[me]
  {
    HolderOwns(s, me);
    hide Follows, Inv;
    t := TwoSteps(c, s, AtGuard(me, HeartbeatDue), Reply(me, Usable));
    assert t.attempts[me] == s.attempts[me].(pc := Guard(s.attempts[me].pc.tool));
  }

  /** The lease holder of a run whose cancel was requested. */
  predicate LeadsCancelled(s: Sys, me: Token) {
    Inv(s) && s.db.row.lockedBy == Some(me) && me in s.attempts && s.db.row.cancelRequested
  }

  /** A heartbeat that sees the request ends the run `cancelled` with what the attempt has. */
  lemma HeartbeatCancels(c: Config, s: Sys, me: Token) returns (t: Sys)
    requires LeadsCancelled(s, me) && s.attempts[me].pc.Guard?
    ensures Follows(c, s, [AtGuard(me, HeartbeatDue), Reply(me, Usable)] + WriteSteps(me), t)
    ensures Ended(s, me, Cancelled, None, None, s.attempts[me].run, t)
  {
    hide Follows, Written;
    var m := TwoSteps(c, s, AtGuard(me, HeartbeatDue), Reply(me, Usable));
    t := Finishes(c, m, me);
    FollowsOn(c, s, [AtGuard(me, HeartbeatDue), Reply(me, Usable)], m, WriteSteps(me), t);
  }

  /** A persist that sees the request stores its run and ends it `cancelled`. */
  lemma PersistCancels(c: Config, s: Sys, me: Token) returns (t: Sys)
    requires LeadsCancelled(s, me) && s.attempts[me].pc.Projecting? && s.attempts[me].pc.goal.GPersist?
    ensures Follows(c, s, WriteSteps(me) + WriteSteps(me), t)
    ensures Ended(s, me, Cancelled, None, None, s.attempts[me].run, t)
  {
    hide Follows, Written, ProjectRows, InsertRows, NextSeq;
    var m := TwoSteps(c, s, ReadMark(me), Reply(me, Usable));
    t := Finishes(c, m, me);
    FollowsOn(c, s, WriteSteps(me), m, WriteSteps(me), t);
  }

  // ---------- claims ----------

  /** A claim of a usable run starts from the stored state and keeps it. */
  lemma ClaimStarts(c: Config, s: Sys, me: Token) returns (t: Sys)
    requires Inv(s) && me in s.attempts && s.attempts[me].pc == Issuing(Claim, ToLoop) && !s.db.row.cancelRequested
    requires s.db.row.status.Queued? || (s.db.row.status.Running? && s.db.row.lockedBy.None?)
    ensures Follows(c, s, [Reply(me, Usable)], t) && Leads(t, me)
    ensures t.db.row.run == s.db.row.run && t.db.row.lockedAt == Some(s.db.now) && t.db.jobs == s.db.jobs
    ensures t.attempts[me].pc.LoopHead? && t.attempts[me].run == s.db.row.run
  {
    hide Follows, Inv;
    t := OneStep(c, s, Reply(me, Usable));
  }

  /** One of an unknown kind or a corrupt state ends `failed` with that reason and the stored state. */
  lemma UnusableClaimFails(c: Config, s: Sys, me: Token, verdict: Verdict) returns (t: Sys)
    requires Inv(s) && me in s.attempts && s.attempts[me].pc == Issuing(Claim, ToLoop) && !s.db.row.cancelRequested
    requires s.db.row.status.Queued? || (s.db.row.status.Running? && s.db.row.lockedBy.None?)
    requires !verdict.Usable?
    ensures Follows(c, s, [Reply(me, verdict), Reply(me, Usable)], t)
    ensures && t.db.row.status == Failed && t.db.row.run == s.db.row.run && t.db.transcript == s.db.transcript
            && t.db.row.failReason == Some(if verdict.KindUnknown? then UnknownKind else CorruptState)
            && me in t.attempts && t.attempts[me].pc.DecidedOk?
  {
    hide Follows, Inv;
    t := TwoSteps(c, s, Reply(me, verdict), Reply(me, Usable));
  }

  /** A claim that matches nothing changes nothing; the attempt backs off with an error exactly when the run is running
      under another lease. */
  lemma MissedClaimBacksOff(c: Config, s: Sys, me: Token) returns (t: Sys)
    requires Inv(s) && me in s.attempts && s.attempts[me].pc == Issuing(Claim, ToLoop)
    requires !Claimable(s.db.row, c.takeover, s.db.now)
    ensures Follows(c, s, [Reply(me, Usable), ReadStatus(me)], t) && t.db == s.db
    ensures me in t.attempts && t.attempts[me].pc == if s.db.row.status.Running? then DecidedErr else DecidedOk
  {
    hide Follows, Inv;
    t := TwoSteps(c, s, Reply(me, Usable), ReadStatus(me));
  }
}
