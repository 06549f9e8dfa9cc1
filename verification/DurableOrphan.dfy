/** No orphans: a run that is `queued` or `running` keeps a job row that will drive it, exactly
    as long as every claim is covered by a job row. */
module DurableOrphan {
  import opened Wrappers
  import opened DurableTypes
  import opened DurableSql
  import opened DurableProtocol
  import opened DurableInvariant
  import opened DurableLifecycle

  predicate Unfinished(s: Sys) {
    s.db.row.status.Queued? || s.db.row.status.Running?
  }

  /** A job row whose current owner, if any, has not decided to return `Ok`. */
  predicate Live(s: Sys, j: JobId) {
    && j in s.db.jobs
    && (s.db.jobs[j].owner.None? ||
        (s.db.jobs[j].owner.value in s.attempts && !s.attempts[s.db.jobs[j].owner.value].pc.DecidedOk?))
  }

  /** The orphan invariant, for a run none of whose job rows was dead-lettered. */
  ghost predicate NoOrphan(s: Sys) {
    !s.log.DeadLettered() && Unfinished(s) ==> exists j :: Live(s, j)
  }

  /** The owner neither has decided `Ok` nor is about to notice that it lost the lease. */
  predicate OwnerSafe(s: Sys, o: Token) {
    && o in s.attempts
    && !s.attempts[o].pc.DecidedOk?
    && (Driving(s.attempts[o].pc) ==> s.db.row.lockedBy == Some(o))
  }

  predicate Safe(s: Sys, j: JobId) {
    j in s.db.jobs && (s.db.jobs[j].owner.None? || OwnerSafe(s, s.db.jobs[j].owner.value))
  }

  /** The strengthened invariant; a job row is safe, not merely live. */
  ghost predicate Kept(s: Sys) {
    && (!s.log.DeadLettered() && Unfinished(s) ==> exists j :: Safe(s, j))
    && (forall me :: me in s.attempts && s.attempts[me].pc.CheckingStatus? ==> !s.db.row.status.Queued?)
  }

  lemma KeptMeansNoOrphan(s: Sys)
    requires Kept(s)
    ensures NoOrphan(s)
  {
    if !s.log.DeadLettered() && Unfinished(s) {
      var j :| Safe(s, j);
      assert Live(s, j);
    }
  }

  /** The step takes the lease for `me`. */
  predicate Claims(c: Config, s: Sys, st: Step, me: Token) {
    Commits(s, st, me, Claim) && Claimable(s.db.row, c.takeover, s.db.now)
  }

  /** Some job row does not depend on a displaced attempt: it is free, or the claimer's own, or its owner is
      not driving the run; and its owner has not decided `Ok`. */
  ghost predicate Covered(s: Sys, me: Token) {
    exists j :: CoveringJob(s, me, j)
  }

  predicate CoveringJob(s: Sys, me: Token, j: JobId) {
    && j in s.db.jobs
    && (s.db.jobs[j].owner.None? ||
        (&& s.db.jobs[j].owner.value in s.attempts
         && !s.attempts[s.db.jobs[j].owner.value].pc.DecidedOk?
         && (s.db.jobs[j].owner == Some(me) || !Driving(s.attempts[s.db.jobs[j].owner.value].pc))))
  }

  /** "Whoever took the lease claimed through a job row": an attempt that still owns its job row covers its claim. */
  lemma ThroughItsJobRow(c: Config, s: Sys, st: Step, me: Token)
    requires Inv(s) && Enabled(c, s, st) && Claims(c, s, st, me) && me in s.attempts
    requires OwnsJob(s, me, s.attempts[me].job) && !s.attempts[me].pc.DecidedOk?
    ensures Covered(s, me)
  {
    assert CoveringJob(s, me, s.attempts[me].job);
  }

  // ---------- a claim keeps the invariant exactly when it is covered ----------

  lemma ClaimShape(c: Config, s: Sys, st: Step, me: Token)
    requires Inv(s) && Enabled(c, s, st) && Claims(c, s, st, me)
    ensures var t := Apply(c, s, st);
            && me in s.attempts && t.db.row.lockedBy == Some(me) && t.db.jobs == s.db.jobs && t.log.deadLetters == s.log.deadLetters
            && t.db.row.status.Running?
            && t.attempts.Keys == s.attempts.Keys
            && (forall o :: o in s.attempts && o != me ==> t.attempts[o] == s.attempts[o])
            && !t.attempts[me].pc.DecidedOk? == !s.attempts[me].pc.DecidedOk?
            && !t.attempts[me].pc.CheckingStatus?
  {
    if st.LateCommit? {
      assert !Settled(s.attempts[me].pc);
    }
  }

  /** A covered claim leaves a safe job row; an uncovered one leaves none. */
  lemma ClaimKeepsIffCovered(c: Config, s: Sys, st: Step, me: Token)
    requires Inv(s) && Kept(s) && Enabled(c, s, st) && Claims(c, s, st, me) && !s.log.DeadLettered()
    ensures Kept(Apply(c, s, st)) <==> Covered(s, me)
  {
    var t := Apply(c, s, st);
    ClaimShape(c, s, st, me);
    if Covered(s, me) {
      var j :| CoveringJob(s, me, j);
      assert Safe(t, j);
    }
    if Kept(t) {
      var j :| Safe(t, j);
      assert CoveringJob(s, me, j);
    }
  }

  // ---------- every other step keeps it ----------

  /** A step of an attempt other than the owner, which is no claim, does not endanger a safe job row. */
  lemma StrangerKeepsSafe(c: Config, s: Sys, st: Step, j: JobId)
    requires Inv(s) && Enabled(c, s, st) && Safe(s, j)
    requires forall me :: !Claims(c, s, st, me)
    requires s.db.jobs[j].owner.None? || !StepOf(st, s.db.jobs[j].owner.value)
    requires st.Tick? || st.UserCancel? || st.UserAnswer? || (exists me :: StepOf(st, me))
    ensures Unfinished(Apply(c, s, st)) ==> Safe(Apply(c, s, st), j)
  {
    var t := Apply(c, s, st);
    StrangerKeepsJob(c, s, st, j);
    if Unfinished(t) && s.db.jobs[j].owner.Some? {
      var o := s.db.jobs[j].owner.value;
      OthersKeepAttempt(c, s, st, o);
      if Driving(s.attempts[o].pc) {
        HolderKeepsLease(c, s, st, o);
      }
    }
  }

  lemma StrangerKeepsJob(c: Config, s: Sys, st: Step, j: JobId)
    requires Inv(s) && Enabled(c, s, st) && j in s.db.jobs
    requires st.Tick? || st.UserCancel? || st.UserAnswer? || (exists me :: StepOf(st, me))
    ensures j in Apply(c, s, st).db.jobs && Apply(c, s, st).db.jobs[j] == s.db.jobs[j]
  {
    match st
    case Reply(me, _) => CommitHolder(c, s, me, s.attempts[me].pc.w);
    case LateCommit(me, w) => CommitHolder(c, s, me, w);
    case UserAnswer(_) =>
    case _ =>
  }

  /** While the run stays unfinished, only a claim of another attempt takes the lease from its holder
      without a step of the holder. */
  lemma HolderKeepsLease(c: Config, s: Sys, st: Step, o: Token)
    requires Inv(s) && Enabled(c, s, st) && s.db.row.lockedBy == Some(o) && !StepOf(st, o)
    requires forall me :: !Claims(c, s, st, me)
    ensures Unfinished(Apply(c, s, st)) ==> Apply(c, s, st).db.row.lockedBy == Some(o)
  {
    match st
    case Reply(me, _) =>
      assert !Claims(c, s, st, me);
    case LateCommit(me, w) =>
      assert !Claims(c, s, st, me);
    case _ =>
  }

  /** A step of the owner keeps its job row safe, or finishes or parks the run, or adds a fresh job row. */
  lemma OwnerStep(c: Config, s: Sys, st: Step, o: Token)
    requires Inv(s) && Kept(s) && Enabled(c, s, st) && StepOf(st, o) && OwnerSafe(s, o)
    requires forall me :: !Claims(c, s, st, me)
    ensures var t := Apply(c, s, st);
            Unfinished(t) ==> OwnerSafe(t, o) || (s.db.nextJob in t.db.jobs && t.db.jobs[s.db.nextJob].owner.None?)
  {
    var a := s.attempts[o];
    if st.Reply? {
      assert !Claims(c, s, st, o);
      OwnerReply(c, s, o, st.verdict);
    } else if st.LateCommit? {
      assert !Settled(a.pc);
    } else {
      OwnerLocal(c, s, st, o);
    }
  }

  lemma OwnerLocal(c: Config, s: Sys, st: Step, o: Token)
    requires Inv(s) && Enabled(c, s, st) && StepOf(st, o) && OwnerSafe(s, o) && !st.Reply? && !st.LateCommit?
    requires st.ReadStatus? ==> !s.db.row.status.Queued?
    ensures Unfinished(Apply(c, s, st)) ==> OwnerSafe(Apply(c, s, st), o)
  {
    var a := s.attempts[o];
    if st.TimeOut? || st.Reject? {
      AfterErrorShape(a, a.pc.w);
    } else if st.AtLoop? {
      ChooseShape(s.log, a, st.choice);
    } else if st.AtTools? {
      HandleToolShape(s.log, a, st.text, st.refusal);
    } else if st.AtGuard? {
      GuardEventShape(s.log, a, a.pc.tool, st.event);
    }
  }

  /** A reply that still proves ownership, or proves nothing, does not end the attempt in `Ok`. */
  lemma GoesOn(c: Config, s: Sys, me: Token, a: Attempt, verdict: Verdict)
    requires a.pc.Issuing?
    requires a.pc.w.Claim? || a.pc.w.Release? || ((a.pc.w.Heartbeat? || a.pc.w.Persist?) && Owned(s.db.row, me))
    ensures !AfterReply(c, s, me, a, a.pc.w, a.pc.next, verdict).pc.DecidedOk?
    ensures a.pc.w.Release? || (a.pc.w.Claim? && !Claimable(s.db.row, c.takeover, s.db.now)) ==>
              !Driving(AfterReply(c, s, me, a, a.pc.w, a.pc.next, verdict).pc)
  {
  }

  lemma OwnerReply(c: Config, s: Sys, o: Token, verdict: Verdict)
    requires Inv(s) && Enabled(c, s, Reply(o, verdict)) && OwnerSafe(s, o)
    requires !(s.attempts[o].pc.w.Claim? && Claimable(s.db.row, c.takeover, s.db.now))
    ensures var t := Apply(c, s, Reply(o, verdict));
            Unfinished(t) ==> OwnerSafe(t, o) || (s.db.nextJob in t.db.jobs && t.db.jobs[s.db.nextJob].owner.None?)
  {
    var a := s.attempts[o];
    var w := a.pc.w;
    if Driving(a.pc) {
      assert Owned(s.db.row, o);
    }
    if w.Claim? || w.Release? || w.Heartbeat? || w.Persist? {
      GoesOn(c, s, o, a, verdict);
    }
  }

  lemma CheckingNeverQueued(c: Config, s: Sys, st: Step)
    requires Inv(s) && Kept(s) && Enabled(c, s, st)
    ensures var t := Apply(c, s, st);
            forall me :: me in t.attempts && t.attempts[me].pc.CheckingStatus? ==> !t.db.row.status.Queued?
  {
    var t := Apply(c, s, st);
    LifecycleStep(c, s, st);
    forall me | me in t.attempts && t.attempts[me].pc.CheckingStatus?
      ensures !t.db.row.status.Queued?
    {
      if me !in s.attempts {
        NewAttempt(c, s, st, me);
      } else if !StepOf(st, me) {
        OthersKeepAttempt(c, s, st, me);
      } else if !s.attempts[me].pc.CheckingStatus? {
        BecomesChecking(c, s, st, me);
      }
    }
  }

  lemma BecomesChecking(c: Config, s: Sys, st: Step, me: Token)
    requires Inv(s) && Enabled(c, s, st) && me in s.attempts && StepOf(st, me)
    requires !s.attempts[me].pc.CheckingStatus? && Apply(c, s, st).attempts[me].pc.CheckingStatus?
    ensures !s.db.row.status.Queued?
  {
    var a := s.attempts[me];
    match st
    case TimeOut(_) => AfterErrorShape(a, a.pc.w);
    case Reject(_, _) => AfterErrorShape(a, a.pc.w);
    case AtLoop(_, ch) => ChooseShape(s.log, a, ch);
    case AtTools(_, text, refusal) => HandleToolShape(s.log, a, text, refusal);
    case AtGuard(_, e) => GuardEventShape(s.log, a, a.pc.tool, e);
    case _ =>
  }

  /** Job-queue steps: a completed row was not safe; every other row stays safe or becomes free. */
  lemma QueueStepSafe(c: Config, s: Sys, st: Step, j: JobId)
    requires Inv(s) && Enabled(c, s, st) && Safe(s, j)
    requires st.TakeJob? || st.BeatJob? || st.CompleteJob? || st.FailJob? || st.UnlockJob?
    ensures Apply(c, s, st).log.DeadLettered() || Safe(Apply(c, s, st), j)
  {
  }

  lemma KeptStep(c: Config, s: Sys, st: Step)
    requires Inv(s) && Kept(s) && Enabled(c, s, st)
    requires forall me :: Claims(c, s, st, me) ==> Covered(s, me)
    ensures Kept(Apply(c, s, st))
  {
    var t := Apply(c, s, st);
    CheckingNeverQueued(c, s, st);
    DeadLetterStays(c, s, st);
    if me :| Claims(c, s, st, me) && !s.log.DeadLettered() {
      ClaimKeepsIffCovered(c, s, st, me);
    } else if !t.log.DeadLettered() && Unfinished(t) {
      if !Unfinished(s) {
        LifecycleStep(c, s, st);
        AnswerAddsSafeJob(c, s, st);
        assert Safe(t, s.db.nextJob);
      } else {
        var j :| Safe(s, j);
        if st.TakeJob? || st.BeatJob? || st.CompleteJob? || st.FailJob? || st.UnlockJob? {
          QueueStepSafe(c, s, st, j);
          assert Safe(t, j);
        } else if s.db.jobs[j].owner.Some? && StepOf(st, s.db.jobs[j].owner.value) {
          var o := s.db.jobs[j].owner.value;
          OwnerStep(c, s, st, o);
          StrangerKeepsJob(c, s, st, j);
          assert Safe(t, j) || Safe(t, s.db.nextJob);
        } else {
          IsSomeonesStep(st);
          StrangerKeepsSafe(c, s, st, j);
          assert Safe(t, j);
        }
      }
    }
  }

  lemma IsSomeonesStep(st: Step)
    requires !(st.TakeJob? || st.BeatJob? || st.CompleteJob? || st.FailJob? || st.UnlockJob?)
    ensures st.Tick? || st.UserCancel? || st.UserAnswer? || (exists me :: StepOf(st, me))
  {
    if !(st.Tick? || st.UserCancel? || st.UserAnswer?) {
      assert StepOf(st, st.me);
    }
  }

  lemma DeadLetterStays(c: Config, s: Sys, st: Step)
    requires Enabled(c, s, st)
    ensures s.log.DeadLettered() ==> Apply(c, s, st).log.DeadLettered()
  {
  }

  lemma AnswerAddsSafeJob(c: Config, s: Sys, st: Step)
    requires Inv(s) && Enabled(c, s, st) && !Unfinished(s) && Unfinished(Apply(c, s, st))
    ensures st.UserAnswer? && Safe(Apply(c, s, st), s.db.nextJob)
  {
    LifecycleStep(c, s, st);
    if !st.UserAnswer? && !st.UserCancel? && s.db.row.status.Waiting? {
      WaitingIsUntouched(c, s, st);
    }
  }

  /** Over any behavior whose claims are all covered, no unfinished run is ever an orphan. */
  lemma {:induction false} NoOrphanEver(c: Config, states: seq<Sys>, steps: seq<Step>, n: nat)
    requires Behavior(c, states, steps) && n < |states|
    requires forall i, me :: 0 <= i < n && Claims(c, states[i], steps[i], me) ==> Covered(states[i], me)
    ensures Kept(states[n]) && NoOrphan(states[n])
  {
    if n == 0 {
      assert Safe(states[0], 0);
    } else {
      NoOrphanEver(c, states, steps, n - 1);
      AlwaysInv(c, states, steps, n - 1);
      KeptStep(c, states[n - 1], steps[n - 1]);
    }
    KeptMeansNoOrphan(states[n]);
  }
}
