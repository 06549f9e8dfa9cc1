/** Errors separated by progress do not escalate: fresh job rows are paid for by advancing persists. */
module DurableProgress {
  import opened Wrappers
  import opened DurableTypes
  import opened DurableSql
  import opened DurableProtocol
  import opened DurableInvariant

  /** Has not yet got past its one chance to requeue. */
  predicate MayRequeue(a: Attempt) {
    || Settled(a.pc)
    || (a.pc.Issuing? && (a.pc.w == Release(true) || a.pc.w.Requeue?))
  }

  /** On the way to, or at, the error return that charges the job row. */
  predicate Failing(pc: Pc) {
    pc.DecidedErr? || (pc.Issuing? && pc.w == Release(false))
  }

  predicate AttemptPaid(log: Log, me: Token, a: Attempt) {
    && (a.progress ==> me in log.advancedBy)
    && (MayRequeue(a) ==> Requeue !in a.late && me !in log.requeuedBy && !a.refused && !a.direct)
    && (Requeue in a.late ==> me in log.advancedBy && me !in log.requeuedBy)
    && (a.pc.Issuing? && a.pc.w.Requeue? ==> a.progress)
    && (a.pc.CheckingStatus? || (a.pc.Issuing? && a.pc.w.Claim?) ==> !a.progress)
    && (Failing(a.pc) ==> !a.progress || a.refused || a.direct)
    && (a.refused || a.direct ==> Failing(a.pc) || a.pc.Panicked? || a.pc.Dead?)
  }

  predicate Paid(s: Sys) {
    && s.log.requeuedBy <= s.log.advancedBy
    && |s.log.requeuedBy| == s.log.freshJobs
    && |s.log.advancedBy| <= s.log.advances
    && (forall me :: me in s.log.requeuedBy ==> me in s.attempts)
    && (forall me :: me in s.attempts ==> AttemptPaid(s.log, me, s.attempts[me]))
  }

  lemma RecordPaid(log: Log, db: RunDb, me: Token, w: Write)
    requires log.requeuedBy <= log.advancedBy && |log.requeuedBy| == log.freshJobs && |log.advancedBy| <= log.advances
    requires w.Requeue? ==> me in log.advancedBy && me !in log.requeuedBy
    ensures var l := Record(log, db, me, w);
            && l.requeuedBy <= l.advancedBy && |l.requeuedBy| == l.freshJobs && |l.advancedBy| <= l.advances
            && log.advancedBy <= l.advancedBy
            && l.requeuedBy == (if w.Requeue? then log.requeuedBy + {me} else log.requeuedBy)
            && (w.Persist? && w.advanced && Owned(db.row, me) ==> me in l.advancedBy)
  {
    if w.Persist? && w.advanced && Owned(db.row, me) && me in log.advancedBy {
      assert log.advancedBy + {me} == log.advancedBy;
    }
  }

  /** An attempt after an error: the write it gave up on is the only news. */
  lemma ErrorPaid(log: Log, me: Token, a: Attempt, late: bool)
    requires a.pc.Issuing? && AttemptPaid(log, me, a)
    ensures AttemptPaid(log, me, AfterError(a, a.pc.w).(late := if late then a.late + {a.pc.w} else a.late))
  {
    match a.pc.w
    case Claim =>
    case Release(early) =>
    case Requeue =>
    case Finish(_, _, _, _, _, _, _, _) =>
    case FailUnstorable(_) =>
    case _ =>
  }

  /** The attempt was paid before its write committed; it is afterwards. */
  lemma ReplyPaid(c: Config, s: Sys, me: Token, a: Attempt, log: Log, verdict: Verdict)
    requires a.pc.Issuing? && AttemptPaid(s.log, me, a) && RecordsFor(s.log, log, me, a.pc.w)
    requires a.pc.w.Persist? && a.pc.w.advanced && Matches(c, s.db, me, a.pc.w) ==> me in log.advancedBy
    ensures AttemptPaid(log, me, AfterReply(c, s, me, a, a.pc.w, a.pc.next, verdict))
  {
    match a.pc.w
    case Claim =>
    case Heartbeat =>
    case Persist(_, _, _, _) =>
    case Suspend(_, _, _, _, _) =>
    case Finish(_, _, _, _, _, _, _, _) =>
    case FailUnstorable(_) =>
    case Release(_) =>
    case Requeue =>
  }

  /** The log gained at most what a commit of `w` by `me` adds. */
  predicate RecordsFor(log: Log, next: Log, me: Token, w: Write) {
    && log.advancedBy <= next.advancedBy
    && next.requeuedBy == (if w.Requeue? then log.requeuedBy + {me} else log.requeuedBy)
  }

  lemma LocalPaid(log: Log, me: Token, a: Attempt, b: Attempt)
    requires AttemptPaid(log, me, a) && Driving(a.pc)
    requires b.late == a.late && b.progress == a.progress && b.refused == a.refused && b.direct == a.direct
    requires Driving(b.pc) || b.pc == RetryPc(a) || b.pc == Issuing(Release(true), ToLoop)
    ensures AttemptPaid(log, me, b)
  {
  }

  lemma CommitStepPaid(c: Config, s: Sys, st: Step, me: Token)
    requires Inv(s) && Paid(s) && Enabled(c, s, st) && me in s.attempts && StepOf(st, me)
    requires st.Reply? || st.LateCommit?
    ensures AttemptPaid(Apply(c, s, st).log, me, Apply(c, s, st).attempts[me])
  {
    assert AttemptPaid(s.log, me, s.attempts[me]);
    if st.Reply? {
      RecordPaid(s.log, s.db, me, s.attempts[me].pc.w);
      ReplyPaid(c, s, me, s.attempts[me], Apply(c, s, st).log, st.verdict);
    } else {
      RecordPaid(s.log, s.db, me, st.w);
    }
  }

  lemma OwnStepPaid(c: Config, s: Sys, st: Step, me: Token)
    requires Enabled(c, s, st) && me in s.attempts && StepOf(st, me) && !st.Reply? && !st.LateCommit?
    requires AttemptPaid(s.log, me, s.attempts[me])
    ensures AttemptPaid(s.log, me, Apply(c, s, st).attempts[me])
  {
    var a := s.attempts[me];
    if st.TimeOut? || st.Reject? {
      ErrorPaid(s.log, me, a, st.TimeOut?);
    } else if st.AtLoop? {
      LocalPaid(s.log, me, a, Choose(a, st.choice));
    } else if st.AtTools? {
      LocalPaid(s.log, me, a, HandleTool(a, st.text, st.refusal));
    } else if st.AtGuard? {
      LocalPaid(s.log, me, a, GuardEvent(a, a.pc.tool, st.event));
    }
  }

  lemma LogPaid(c: Config, s: Sys, st: Step)
    requires Inv(s) && Paid(s) && Enabled(c, s, st)
    ensures var l := Apply(c, s, st).log;
            && l.requeuedBy <= l.advancedBy && |l.requeuedBy| == l.freshJobs && |l.advancedBy| <= l.advances
            && s.log.advancedBy <= l.advancedBy
            && forall me :: me in l.requeuedBy && me !in s.log.requeuedBy ==> StepOf(st, me) && me in s.attempts
  {
    if st.Reply? {
      assert AttemptPaid(s.log, st.me, s.attempts[st.me]);
      RecordPaid(s.log, s.db, st.me, s.attempts[st.me].pc.w);
    } else if st.LateCommit? {
      assert AttemptPaid(s.log, st.me, s.attempts[st.me]);
      RecordPaid(s.log, s.db, st.me, st.w);
    } else if !st.UserCancel? && !st.UserAnswer? {
      OthersKeepRow(c, s, st);
    }
  }

  lemma PaidStep(c: Config, s: Sys, st: Step)
    requires Inv(s) && Paid(s) && Enabled(c, s, st)
    ensures Paid(Apply(c, s, st))
  {
    var t := Apply(c, s, st);
    LogPaid(c, s, st);
    forall me | me in t.attempts
      ensures AttemptPaid(t.log, me, t.attempts[me])
    {
      if me !in s.attempts {
        NewAttempt(c, s, st, me);
      } else if StepOf(st, me) {
        assert AttemptPaid(s.log, me, s.attempts[me]);
        if st.Reply? || st.LateCommit? {
          CommitStepPaid(c, s, st, me);
        } else {
          OwnStepPaid(c, s, st, me);
          assert t.log == s.log;
        }
      } else {
        OthersKeepAttempt(c, s, st, me);
      }
    }
    forall me | me in t.log.requeuedBy
      ensures me in t.attempts
    {
      if me in s.attempts && !StepOf(st, me) {
        OthersKeepAttempt(c, s, st, me);
      }
    }
  }

  lemma {:induction false} AlwaysPaid(c: Config, states: seq<Sys>, steps: seq<Step>, n: nat)
    requires Behavior(c, states, steps) && n < |states|
    ensures Paid(states[n])
  {
    if n > 0 {
      AlwaysPaid(c, states, steps, n - 1);
      AlwaysInv(c, states, steps, n - 1);
      PaidStep(c, states[n - 1], steps[n - 1]);
    }
  }

  /** Requeueing cannot go on without progress: fresh job rows never outnumber committed advancing
      persists, each attempt adds at most one, and only one that advanced the run does. */
  lemma FreshJobsArePaidFor(c: Config, states: seq<Sys>, steps: seq<Step>, n: nat)
    requires Behavior(c, states, steps) && n < |states|
    ensures states[n].log.freshJobs <= states[n].log.advances
    ensures |states[n].log.requeuedBy| == states[n].log.freshJobs
    ensures states[n].log.requeuedBy <= states[n].log.advancedBy
  {
    AlwaysPaid(c, states, steps, n);
    SubsetSize(states[n].log.requeuedBy, states[n].log.advancedBy);
  }

  lemma SubsetSize(a: set<Token>, b: set<Token>)
    requires a <= b
    ensures |a| <= |b|
  {
    assert a + (b - a) == b;
  }

  // ---------- charges ----------

  /** The step adds an error to job row `j`, or dead-letters it. */
  predicate Charged(s: Sys, t: Sys, j: JobId) {
    && j in s.db.jobs
    && if j in t.db.jobs then t.db.jobs[j].errorCount > s.db.jobs[j].errorCount
       else t.log.deadLetters > s.log.deadLetters
  }

  /** A job row is charged by an error return or panic of its owner, and by the reclaim of an expired owner's row;
      by nothing else. */
  lemma ChargeSteps(c: Config, s: Sys, st: Step, j: JobId)
    requires Inv(s) && Enabled(c, s, st) && j in s.db.jobs
    ensures Charged(s, Apply(c, s, st), j) <==>
              || (st.FailJob? && s.attempts[st.me].job == j)
              || (st.TakeJob? && st.job == j && s.db.jobs[j].owner.Some?)
  {
    if st.Reply? || st.LateCommit? {
      CommitJobs(c, s, st.me, if st.Reply? then s.attempts[st.me].pc.w else st.w);
    } else if !st.UserCancel? && !st.UserAnswer? {
      OthersKeepRow(c, s, st);
    }
  }

  /** What becomes of a charged row: charged up to the limit it is dead-lettered, else it counts one error more and is free
      again or, when it was reclaimed, the new owner's. */
  lemma ChargedRowGoes(c: Config, s: Sys, st: Step, j: JobId)
    requires Inv(s) && Enabled(c, s, st) && j in s.db.jobs
    requires (st.FailJob? && s.attempts[st.me].job == j) || (st.TakeJob? && st.job == j && s.db.jobs[j].owner.Some?)
    ensures var t, job := Apply(c, s, st), s.db.jobs[j];
            if job.errorCount >= c.maxRetries
            then j !in t.db.jobs && t.log.deadLetters == s.log.deadLetters + 1
            else && j in t.db.jobs && t.log.deadLetters == s.log.deadLetters
                 && t.db.jobs[j] == (if st.FailJob? then Job(None, 0, job.errorCount + 1)
                                     else Job(Some(st.me), s.db.now, job.errorCount + 1))
  {
    hide Inv;
  }

  /** The other steps of a worker: a free row is taken as it stands and starts a handler that claims the run, a heartbeat
      moves the row's time, a finished handler deletes the row, and an unlocked row keeps its errors. */
  lemma UnchargedRowGoes(c: Config, s: Sys, st: Step, j: JobId)
    requires Inv(s) && Enabled(c, s, st) && j in s.db.jobs
    requires if st.TakeJob? then st.job == j && s.db.jobs[j].owner.None?
             else (st.BeatJob? || st.CompleteJob? || st.UnlockJob?) && s.attempts[st.me].job == j
    ensures var t, job := Apply(c, s, st), s.db.jobs[j];
            && t.db.row == s.db.row && t.db.transcript == s.db.transcript && t.log == s.log
            && (st.TakeJob? ==> t.db.jobs == s.db.jobs[j := Job(Some(st.me), s.db.now, job.errorCount)])
            && (st.BeatJob? ==> t.db.jobs == s.db.jobs[j := Job(job.owner, s.db.now, job.errorCount)])
            && (st.CompleteJob? ==> t.db.jobs == s.db.jobs - {j})
            && (st.UnlockJob? ==> j in t.db.jobs && t.db.jobs == s.db.jobs[j := t.db.jobs[j]]
                                  && t.db.jobs[j].owner.None? && t.db.jobs[j].errorCount == job.errorCount)
            && (st.TakeJob? ==> st.me in t.attempts && t.attempts[st.me].pc == Issuing(Claim, ToLoop)
                                && t.attempts[st.me].job == j && !t.attempts[st.me].progress)
            && (!st.TakeJob? ==> t.attempts == s.attempts)
  {
    hide Inv;
  }

  lemma CommitJobs(c: Config, s: Sys, me: Token, w: Write)
    requires Inv(s)
    ensures var t := CommitBy(c, s, me, w);
            t.log.deadLetters == s.log.deadLetters
            && forall j :: j in s.db.jobs ==> j in t.db.jobs && t.db.jobs[j] == s.db.jobs[j]
  {
  }

  /** Which charges an attempt that made progress can meet: an error return after a requeue that was not seen to
      commit or by the direct path, a caught panic, or the reclaim of its row after the row's lease expired. */
  lemma ChargesArePaidFor(c: Config, states: seq<Sys>, steps: seq<Step>, n: nat, j: JobId)
    requires Behavior(c, states, steps) && n < |steps| && Charged(states[n], states[n + 1], j)
    ensures var s := states[n];
            && s.db.jobs[j].owner.Some? && s.db.jobs[j].owner.value in s.attempts
            && var me := s.db.jobs[j].owner.value;
               s.attempts[me].progress ==>
                 || (steps[n] == FailJob(me) && (s.attempts[me].refused || s.attempts[me].direct || s.attempts[me].pc.Panicked?))
                 || (steps[n].TakeJob? && steps[n].job == j && s.db.jobs[j].lockedAt + c.reclaimWindow < s.db.now)
  {
    AlwaysInv(c, states, steps, n);
    AlwaysPaid(c, states, steps, n);
    ChargeSteps(c, states[n], steps[n], j);
    var me := states[n].db.jobs[j].owner.value;
    assert AttemptPaid(states[n].log, me, states[n].attempts[me]);
  }

  /** How an attempt that made progress decides: it ends in an error exactly when its requeue was not seen to commit,
      it took the direct path, or it panicked; otherwise it returns `Ok`. */
  lemma DecidesErrIffMarked(c: Config, states: seq<Sys>, steps: seq<Step>, n: nat, me: Token)
    requires Behavior(c, states, steps) && n < |states| && me in states[n].attempts
    requires states[n].attempts[me].progress && !Active(states[n].attempts[me].pc) && !states[n].attempts[me].pc.Dead?
    ensures var a := states[n].attempts[me];
            && (Erring(a.pc) <==> a.refused || a.direct || a.pc.Panicked?)
            && (a.pc.DecidedOk? <==> !Erring(a.pc))
  {
    AlwaysPaid(c, states, steps, n);
    assert AttemptPaid(states[n].log, me, states[n].attempts[me]);
  }
}
