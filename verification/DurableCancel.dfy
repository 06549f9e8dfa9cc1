/** A cancel request is never lost and never parked behind a question. */
module DurableCancel {
  import opened Wrappers
  import opened DurableTypes
  import opened DurableSql
  import opened DurableProtocol
  import opened DurableInvariant
  import opened DurableLifecycle

  /** The attempt may still have a `persist_step` commit. */
  predicate MayPersist(a: Attempt) {
    || (exists w :: w in a.late && w.Persist?)
    || (a.pc.Issuing? && (a.pc.w.Persist? || a.pc.w.Heartbeat?))
    || a.pc.LoopHead? || a.pc.Tools? || a.pc.Guard?
    || (a.pc.Projecting? && a.pc.goal.GPersist?)
  }

  /** Persists since the cancel request: at most one, and none to come once it has happened. */
  predicate CancelOk(s: Sys) {
    && s.log.persistsSinceCancel <= 1
    && (!s.db.row.cancelRequested ==> s.log.persistsSinceCancel == 0)
    && (s.log.persistsSinceCancel == 1 && s.db.row.lockedBy.Some? && s.db.row.lockedBy.value in s.attempts ==>
          !MayPersist(s.attempts[s.db.row.lockedBy.value]))
  }

  /** An attempt that can persist no more never can again, except through a fresh claim. */
  lemma PersistlessStep(c: Config, s: Sys, st: Step, me: Token)
    requires Inv(s) && Enabled(c, s, st) && me in s.attempts && !MayPersist(s.attempts[me])
    requires !(st.Reply? && st.me == me && s.attempts[me].pc.w.Claim?)
    ensures me in Apply(c, s, st).attempts && !MayPersist(Apply(c, s, st).attempts[me])
  {
    if !StepOf(st, me) {
      OthersKeepAttempt(c, s, st, me);
    } else {
      var a := s.attempts[me];
      if st.Reply? {
        PersistlessReply(c, s, me, a, st.verdict);
      } else if st.TimeOut? || st.Reject? {
        AfterErrorShape(a, a.pc.w);
      }
    }
  }

  lemma PersistlessReply(c: Config, s: Sys, me: Token, a: Attempt, verdict: Verdict)
    requires a.pc.Issuing? && !a.pc.w.Persist? && !a.pc.w.Heartbeat?
    ensures var b := AfterReply(c, s, me, a, a.pc.w, a.pc.next, verdict);
            b.late == a.late
            && (!a.pc.w.Claim? ==> b.pc.DecidedOk? || b.pc.DecidedErr? || (b.pc.Issuing? && (b.pc.w.Release? || b.pc.w.Requeue?)))
  {
  }

  lemma CancelStep(c: Config, s: Sys, st: Step)
    requires Inv(s) && CancelOk(s) && Enabled(c, s, st)
    ensures CancelOk(Apply(c, s, st))
  {
    var t := Apply(c, s, st);
    LifecycleStep(c, s, st);
    StepKeeps(c, s, st);
    PersistCount(c, s, st);
    if t.log.persistsSinceCancel == 1 && t.db.row.lockedBy.Some? {
      var me := t.db.row.lockedBy.value;
      assert HolderOk(t, me);
      if s.db.row.lockedBy != Some(me) {
        LeaseOnlyByClaim(c, s, st, me);
        ClaimerPersistless(c, s, st, me);
      } else if s.log.persistsSinceCancel == 1 {
        assert HolderOk(s, me);
        PersistlessStep(c, s, st, me);
      } else {
        PersisterDone(c, s, st, me);
      }
    }
  }

  /** Which step moves the count: a matching persist of the holder under a cancel request. */
  lemma PersistCount(c: Config, s: Sys, st: Step)
    requires Inv(s) && CancelOk(s) && Enabled(c, s, st)
    ensures var t := Apply(c, s, st);
            || t.log.persistsSinceCancel == s.log.persistsSinceCancel
            || (t.log.persistsSinceCancel == s.log.persistsSinceCancel + 1
                && s.db.row.cancelRequested && s.log.persistsSinceCancel == 0
                && (st.Reply? || st.LateCommit?) && Owned(s.db.row, st.me)
                && (st.Reply? ==> s.attempts[st.me].pc.w.Persist?) && (st.LateCommit? ==> st.w.Persist?))
  {
    if st.Reply? || st.LateCommit? {
      if Owned(s.db.row, st.me) {
        assert HolderOk(s, st.me);
      }
    }
  }

  /** The attempt whose persist lands under a cancel request does not persist again. */
  lemma PersisterDone(c: Config, s: Sys, st: Step, me: Token)
    requires Inv(s) && Enabled(c, s, st) && (st.Reply? || st.LateCommit?) && st.me == me
    requires Owned(s.db.row, me) && s.db.row.cancelRequested
    requires (st.Reply? ==> s.attempts[me].pc.w.Persist?) && (st.LateCommit? ==> st.w.Persist?)
    ensures !MayPersist(Apply(c, s, st).attempts[me])
  {
  }

  /** A claim that finds a cancel request leads to the cancelled finish only. */
  lemma ClaimerPersistless(c: Config, s: Sys, st: Step, me: Token)
    requires Inv(s) && Enabled(c, s, st) && Commits(s, st, me, Claim)
    requires s.db.row.cancelRequested && Claimable(s.db.row, c.takeover, s.db.now)
    ensures me in Apply(c, s, st).attempts && !MayPersist(Apply(c, s, st).attempts[me])
  {
    if st.LateCommit? {
      assert !Settled(s.attempts[me].pc);
    }
  }

  lemma {:induction false} AlwaysCancelOk(c: Config, states: seq<Sys>, steps: seq<Step>, n: nat)
    requires Behavior(c, states, steps) && n < |states|
    ensures CancelOk(states[n])
  {
    if n > 0 {
      AlwaysCancelOk(c, states, steps, n - 1);
      AlwaysInv(c, states, steps, n - 1);
      CancelStep(c, states[n - 1], steps[n - 1]);
    }
  }

  // ---------- later claims ----------

  /** On the way out after a claim that found a cancel request: the cancelled finish, then nothing. */
  predicate Winding(a: Attempt) {
    || (a.pc.Issuing? && a.pc.w.Finish? && a.pc.w.status.Cancelled? && !a.pc.w.carry && a.pc.w.direct)
    || (a.pc.Issuing? && a.pc.w == FailUnstorable(true))
    || (a.pc.Issuing? && a.pc.w == Release(false))
    || !Active(a.pc)
  }

  /** Has not yet claimed, or is winding down. */
  predicate Outside(a: Attempt) {
    (a.pc.Issuing? && a.pc.w.Claim?) || a.pc.CheckingStatus? || Winding(a)
  }

  lemma OutsideStep(c: Config, s: Sys, st: Step, me: Token)
    requires Enabled(c, s, st) && s.db.row.cancelRequested
    requires me in s.attempts ==> Outside(s.attempts[me])
    ensures me in Apply(c, s, st).attempts ==> Outside(Apply(c, s, st).attempts[me])
  {
    if me !in s.attempts {
      if me in Apply(c, s, st).attempts {
        NewAttempt(c, s, st, me);
      }
    } else if !StepOf(st, me) {
      OthersKeepAttempt(c, s, st, me);
    } else if st.Reply? {
      OutsideReply(c, s, me, s.attempts[me], st.verdict);
    } else if st.TimeOut? || st.Reject? {
      OutsideError(s.attempts[me]);
    }
  }

  lemma OutsideReply(c: Config, s: Sys, me: Token, a: Attempt, verdict: Verdict)
    requires a.pc.Issuing? && Outside(a) && s.db.row.cancelRequested
    ensures Outside(AfterReply(c, s, me, a, a.pc.w, a.pc.next, verdict))
  {
  }

  lemma OutsideError(a: Attempt)
    requires a.pc.Issuing? && Outside(a)
    ensures Outside(AfterError(a, a.pc.w))
  {
  }

  /** Once a cancel request has committed on a live run: it stays, the run never waits, at most one
      further persist commits, and whoever has not claimed by then never takes a step of the run. */
  lemma CancelIsNeverLost(c: Config, states: seq<Sys>, steps: seq<Step>, i: nat, j: nat)
    requires Behavior(c, states, steps) && i <= j < |states|
    requires states[i].db.row.cancelRequested
    ensures states[j].db.row.cancelRequested && !states[j].db.row.status.Waiting? && !states[j].db.row.status.Queued?
    ensures states[j].log.persistsSinceCancel <= 1
    ensures forall me :: me in states[j].attempts && (me in states[i].attempts ==> Outside(states[i].attempts[me])) ==>
              Outside(states[j].attempts[me])
  {
    AlwaysInv(c, states, steps, j);
    AlwaysCancelOk(c, states, steps, j);
    TerminalIsFrozen(c, states, steps, i, j);
    forall me | me in states[j].attempts && (me in states[i].attempts ==> Outside(states[i].attempts[me]))
      ensures Outside(states[j].attempts[me])
    {
      StaysOutside(c, states, steps, i, j, me);
    }
  }

  lemma {:induction false} StaysOutside(c: Config, states: seq<Sys>, steps: seq<Step>, i: nat, j: nat, me: Token)
    requires Behavior(c, states, steps) && i <= j < |states|
    requires states[i].db.row.cancelRequested
    requires me in states[i].attempts ==> Outside(states[i].attempts[me])
    ensures me in states[j].attempts ==> Outside(states[j].attempts[me])
    decreases j - i
  {
    hide Apply, Enabled, Outside;
    if i < j {
      StaysOutside(c, states, steps, i, j - 1, me);
      TerminalIsFrozen(c, states, steps, i, j - 1);
      OutsideStep(c, states[j - 1], steps[j - 1], me);
    }
  }

  /** A claim under a cancel request goes straight to the cancelled finish, and that finish, if it
      commits, leaves the run `cancelled` with its transcript as it was. */
  lemma LaterClaimFinishesCancelled(c: Config, s: Sys, me: Token, verdict: Verdict)
    requires Inv(s) && me in s.attempts && s.attempts[me].pc == Issuing(Claim, ToLoop)
    requires s.db.row.cancelRequested && Claimable(s.db.row, c.takeover, s.db.now)
    ensures var t := Apply(c, s, Reply(me, verdict));
            && t.attempts[me].pc.Issuing? && Winding(t.attempts[me]) && t.attempts[me].pc.w.Finish?
            && var u := CommitBy(c, t, me, t.attempts[me].pc.w);
               u.db.row.status.Cancelled? && u.db.row.run == s.db.row.run && u.db.transcript == s.db.transcript
  {
  }

  /** `cancel` itself: exactly when it cancels at once, when it leaves a request, when it refuses. */
  lemma CancelOutcomes(c: Config, s: Sys)
    requires Inv(s)
    ensures var t := Apply(c, s, UserCancel);
            match CancelAction(s.db.row, c.takeover, s.db.now)
            case CancelledNow =>
              !s.db.row.status.Terminal() && t.db.row.status.Cancelled? && t.db.row.pendingCall.None?
              && t.db.row.lockedBy.None? && t.db.transcript == s.db.transcript
            case Requested =>
              && s.db.row.status.Running? && s.db.row.lockedBy.Some?
              && s.db.now <= s.db.row.lockedAt.value + c.takeover
              && t == s.(db := s.db.(row := s.db.row.(cancelRequested := true)))
            case AlreadyCancelled => s.db.row.status.Cancelled? && t == s
            case TerminalStatus(status) => (s.db.row.status.Succeeded? || s.db.row.status.Failed?) && t == s
  {
  }
}
