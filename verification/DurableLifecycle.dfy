/** What the invariant means for one run over any behavior: lifecycle, fenced linear history,
    transcript, suspension. */
module DurableLifecycle {
  import opened Wrappers
  import opened DurableTypes
  import opened DurableSql
  import opened DurableProtocol
  import opened DurableInvariant

  // ---------- lifecycle ----------

  /** The allowed status moves. */
  predicate Moves(before: Status, after: Status) {
    || before == after
    || (before.Queued? && (after.Running? || after.Cancelled?))
    || (before.Running? && (after.Waiting? || after.Terminal()))
    || (before.Waiting? && (after.Running? || after.Cancelled?))
  }

  /** One step: a legal move; terminal rows and their transcripts are frozen; a stored transcript row
      never changes; the run state never loses a message; a cancel request is never taken back. */
  lemma LifecycleStep(c: Config, s: Sys, st: Step)
    requires Inv(s) && Enabled(c, s, st)
    ensures var t := Apply(c, s, st);
            && RowOk(t.db.row)
            && Moves(s.db.row.status, t.db.row.status)
            && (s.db.row.status.Terminal() ==> t.db.row == s.db.row && t.db.transcript == s.db.transcript)
            && s.db.transcript <= t.db.transcript
            && s.log.history <= t.log.history
            && (s.db.row.cancelRequested ==> t.db.row.cancelRequested)
  {
    StepKeeps(c, s, st);
    if st.Reply? {
      CommitLifecycle(c, s, st.me, s.attempts[st.me].pc.w);
    } else if st.LateCommit? {
      CommitLifecycle(c, s, st.me, st.w);
    } else if st.UserAnswer? {
      if AnswerTarget(s.db.row).Some? {
        AgreesGrows(s.db.transcript, s.db.row.run, AnsweredRun(s.db.row, st.text));
        ProjectionCompletes(s.db.transcript, AnsweredRun(s.db.row, st.text));
      }
    } else if !st.UserCancel? {
      OthersKeepRow(c, s, st);
    }
  }

  lemma CommitLifecycle(c: Config, s: Sys, me: Token, w: Write)
    requires Inv(s) && WriteOk(s.log, w) && (Owned(s.db.row, me) ==> Timely(s, w))
    ensures var t := CommitBy(c, s, me, w);
            && Moves(s.db.row.status, t.db.row.status)
            && (s.db.row.status.Terminal() ==> t.db.row == s.db.row && t.db.transcript == s.db.transcript)
            && s.db.transcript <= t.db.transcript
            && s.log.history <= t.log.history
            && (s.db.row.cancelRequested ==> t.db.row.cancelRequested)
  {
    CommitKeeps(c, s, me, w);
  }

  /** Once terminal, the row and the transcript stay what they are for the rest of the behavior. */
  lemma {:induction false} TerminalIsFrozen(c: Config, states: seq<Sys>, steps: seq<Step>, i: nat, j: nat)
    requires Behavior(c, states, steps) && i <= j < |states|
    ensures states[i].db.row.status.Terminal() ==>
              states[j].db.row == states[i].db.row && states[j].db.transcript == states[i].db.transcript
    ensures states[i].db.transcript <= states[j].db.transcript
    ensures states[i].log.history <= states[j].log.history
    ensures states[i].db.row.cancelRequested ==> states[j].db.row.cancelRequested
    decreases j - i
  {
    if i < j {
      TerminalIsFrozen(c, states, steps, i, j - 1);
      AlwaysInv(c, states, steps, j - 1);
      LifecycleStep(c, states[j - 1], steps[j - 1]);
    }
  }

  // ---------- fenced, linear history ----------

  /** Every run state that commits was derived from the run state committed immediately before it:
      no lost update and no fork, whoever wrote it and whenever the write landed. */
  lemma CommitsDeriveFromLatest(c: Config, s: Sys, st: Step, me: Token, w: Write)
    requires Inv(s) && Enabled(c, s, st) && Commits(s, st, me, w)
    requires Bearing(w) && Owned(s.db.row, me)
    ensures var t := Apply(c, s, st);
            && w.base == Version(s.log)
            && Grows(s.db.row.run, w.run)
            && t.db.row.run == w.run
            && t.log.history == (if Carries(w) then s.log.history + [w.run] else s.log.history)
            && (Carries(w) ==> FullTranscript(t.db.transcript, w.run))
            && (!Carries(w) ==> w.run == s.db.row.run && t.db.transcript == s.db.transcript)
  {
    CommitKeeps(c, s, me, w);
  }

  /** The committed run states form one line: each extends every earlier one. */
  lemma {:induction false} HistoryIsLinear(s: Sys, i: nat, j: nat)
    requires Inv(s) && i <= j < |s.log.history|
    ensures Grows(s.log.history[i], s.log.history[j])
    decreases j - i
  {
    if i < j {
      HistoryIsLinear(s, i, j - 1);
      assert Grows(s.log.history[j - 1], s.log.history[j]);
    }
  }

  /** An attempt that does not hold the lease and has no claim under way. */
  predicate Displaced(s: Sys, me: Token) {
    && me in s.attempts
    && s.db.row.lockedBy != Some(me)
    && NoClaim(s.attempts[me])
  }

  /** An attempt with no claim under way never starts another one. */
  predicate NoClaim(a: Attempt) {
    !(a.pc.Issuing? && a.pc.w.Claim?) && Claim !in a.late
  }

  lemma NoClaimStep(c: Config, s: Sys, st: Step, me: Token)
    requires Enabled(c, s, st) && me in s.attempts && NoClaim(s.attempts[me])
    ensures me in Apply(c, s, st).attempts && NoClaim(Apply(c, s, st).attempts[me])
  {
    if !StepOf(st, me) {
      OthersKeepAttempt(c, s, st, me);
    } else if st.Reply? {
      AfterReplyNoClaim(c, s, me, s.attempts[me], s.attempts[me].pc.w, s.attempts[me].pc.next, st.verdict);
    } else if st.TimeOut? || st.Reject? {
      AfterErrorShape(s.attempts[me], s.attempts[me].pc.w);
    }
  }

  lemma AfterReplyNoClaim(c: Config, s: Sys, me: Token, a: Attempt, w: Write, next: Next, verdict: Verdict)
    ensures var b := AfterReply(c, s, me, a, w, next, verdict);
            b.late == a.late && !(b.pc.Issuing? && b.pc.w.Claim?)
  {
  }

  /** Only a claim can give an attempt the lease it does not hold. */
  lemma LeaseOnlyByClaim(c: Config, s: Sys, st: Step, me: Token)
    requires Inv(s) && Enabled(c, s, st)
    requires s.db.row.lockedBy != Some(me) && Apply(c, s, st).db.row.lockedBy == Some(me)
    ensures Commits(s, st, me, Claim) && Claimable(s.db.row, c.takeover, s.db.now)
  {
    if st.Reply? {
      CommitHolder(c, s, st.me, s.attempts[st.me].pc.w);
    } else if st.LateCommit? {
      CommitHolder(c, s, st.me, st.w);
    } else if !st.UserCancel? && !st.UserAnswer? {
      OthersKeepRow(c, s, st);
    }
  }

  /** A displaced token never matches again: nothing the attempt still sends changes the row or the transcript. */
  lemma DisplacedStep(c: Config, s: Sys, st: Step, me: Token)
    requires Inv(s) && Enabled(c, s, st) && Displaced(s, me)
    ensures Displaced(Apply(c, s, st), me)
    ensures forall w :: Commits(s, st, me, w) ==>
              Apply(c, s, st).db.row == s.db.row && Apply(c, s, st).db.transcript == s.db.transcript
  {
    NoClaimStep(c, s, st, me);
    if Apply(c, s, st).db.row.lockedBy == Some(me) {
      LeaseOnlyByClaim(c, s, st, me);
    }
  }

  lemma {:induction false} DisplacedForever(c: Config, states: seq<Sys>, steps: seq<Step>, i: nat, j: nat, me: Token)
    requires Behavior(c, states, steps) && i <= j < |states| && Displaced(states[i], me)
    ensures Displaced(states[j], me)
    decreases j - i
  {
    if i < j {
      DisplacedForever(c, states, steps, i, j - 1, me);
      AlwaysInv(c, states, steps, j - 1);
      DisplacedStep(c, states[j - 1], steps[j - 1], me);
    }
  }

  // ---------- transcript ----------

  /** The stored role is the message's own. */
  predicate Speaks(role: Role, m: Message) {
    && (role.SystemRole? <==> m.System?)
    && (role.UserRole? <==> m.User?)
    && (role.AssistantRole? <==> m.Assistant?)
  }

  /** The stored seqs are exactly 0..n-1, row i is message i of the stored run state, and after any
      run-carrying commit the transcript is all of the messages. */
  lemma TranscriptAgrees(c: Config, states: seq<Sys>, steps: seq<Step>, n: nat)
    requires Behavior(c, states, steps) && n < |states|
    ensures var db := states[n].db;
            && |db.transcript| <= |db.row.run.messages|
            && (forall i :: 0 <= i < |db.transcript| ==>
                  && db.transcript[i].seqNo == i && db.transcript[i].message == db.row.run.messages[i]
                  && Speaks(db.transcript[i].role, db.row.run.messages[i]))
            && NextSeq(db.transcript) == |db.transcript|
            && (|states[n].log.history| > 1 ==> |db.transcript| == |db.row.run.messages|)
  {
    AlwaysInv(c, states, steps, n);
    ProjectedAfterFirst(c, states, steps, n);
    NextSeqIsLength(states[n].db.transcript);
  }

  lemma {:induction false} ProjectedAfterFirst(c: Config, states: seq<Sys>, steps: seq<Step>, n: nat)
    requires Behavior(c, states, steps) && n < |states|
    ensures |states[n].log.history| > 1 ==> states[n].log.projected
  {
    if n > 0 {
      ProjectedAfterFirst(c, states, steps, n - 1);
      AlwaysInv(c, states, steps, n - 1);
      ProjectedStep(c, states[n - 1], steps[n - 1]);
    }
  }

  lemma ProjectedStep(c: Config, s: Sys, st: Step)
    requires Enabled(c, s, st) && s.log.history != []
    requires |s.log.history| > 1 ==> s.log.projected
    ensures |Apply(c, s, st).log.history| > 1 ==> Apply(c, s, st).log.projected
  {
    if !st.Reply? && !st.LateCommit? && !st.UserCancel? && !st.UserAnswer? {
      OthersKeepRow(c, s, st);
    }
  }

  // ---------- suspension ----------

  /** Every committed park is accounted for: answered, cancelled while waiting, or still waiting. */
  lemma SuspensionConservation(c: Config, states: seq<Sys>, steps: seq<Step>, n: nat)
    requires Behavior(c, states, steps) && n < |states|
    ensures states[n].log.parks
         == states[n].log.answers + states[n].log.parkCancels + (if states[n].db.row.status.Waiting? then 1 else 0)
  {
    AlwaysInv(c, states, steps, n);
  }

  /** A parked run can always be answered: the recorded call is the first open one and is an `ask`.
      The answer closes exactly that call, adds exactly one job and completes the transcript. */
  lemma AnswerClosesTheAsk(c: Config, s: Sys, text: string)
    requires Inv(s) && s.db.row.status.Waiting?
    ensures AnswerResult(s.db.row) == Answered
    ensures var t := Apply(c, s, UserAnswer(text));
            var open := s.db.row.run.open;
            && open != [] && IsAsk(open[0]) && Some(open[0].id) == s.db.row.pendingCall
            && t.db.row.status.Running? && t.db.row.lockedBy.None? && t.db.row.pendingCall.None?
            && t.db.row.run.open == open[1..]
            && (exists stored :: Sanitized(stored, text) && Closes(s.db.row.run, 0, stored, t.db.row.run))
            && FullTranscript(t.db.transcript, t.db.row.run)
            && t.db.jobs == s.db.jobs[s.db.nextJob := Job(None, 0, 0)]
            && s.db.nextJob !in s.db.jobs
            && t.attempts == s.attempts
  {
    StepKeeps(c, s, UserAnswer(text));
    var open := s.db.row.run.open;
    assert open[..0] + open[1..] == open[1..];
    ReplacesNuls(text);
    CloseCallCloses(s.db.row.run, 0, ReplaceNuls(text));
  }

  /** Every answer that does not succeed changes nothing at all. */
  lemma FailingAnswerChangesNothing(c: Config, s: Sys, text: string)
    requires AnswerResult(s.db.row) != Answered
    ensures Apply(c, s, UserAnswer(text)) == s
  {
  }

  /** Parking is reversible only by an answer or a cancel: no attempt touches a waiting run. */
  lemma WaitingIsUntouched(c: Config, s: Sys, st: Step)
    requires Inv(s) && Enabled(c, s, st) && s.db.row.status.Waiting?
    requires !st.UserAnswer? && !st.UserCancel?
    ensures Apply(c, s, st).db.row == s.db.row && Apply(c, s, st).db.transcript == s.db.transcript
  {
    if !st.Reply? && !st.LateCommit? {
      OthersKeepRow(c, s, st);
    }
  }
}
