/** Where endings come from: every stored outcome was named by an earlier event of the run. */
module DurableOrigins {
  import opened Wrappers
  import opened DurableTypes
  import opened DurableSql
  import opened DurableProtocol
  import opened DurableInvariant
  import opened DurableLifecycle

  datatype Ending = Success(output: string) | Failure(reason: FailReason) | Cancellation

  /** The ending a terminal status with these columns is. */
  function EndingOf(status: Status, reason: Option<FailReason>, output: Option<string>): Option<Ending> {
    if status.Succeeded? && output.Some? then Some(Success(output.value))
    else if status.Failed? && reason.Some? then Some(Failure(reason.value))
    else if status.Cancelled? then Some(Cancellation)
    else None
  }

  /** The event, at attempt `me`, that decides on this ending: rig is done with that output; rig, the gateway or the
      claim's checks name that failure; the stored run is over the token limit; the database cannot store the content; or
      a cancel was requested. */
  predicate Names(c: Config, s: Sys, st: Step, me: Token, e: Ending) {
    && StepOf(st, me) && me in s.attempts
    && match e
       case Success(output) => st.AtLoop? && st.choice.AllDone? && st.choice.output == output
       case Cancellation => s.db.row.cancelRequested
       case Failure(reason) =>
         || (st.AtLoop? && st.choice.StepFails? && st.choice.reason == reason)
         || (st.AtLoop? && st.choice.PrepareFails? && reason.Protocol?)
         || (st.AtTools? && st.refusal == Some(reason))
         || (st.AtGuard? && st.event.Fatal? && st.event.reason == reason)
         || (st.Reply? && s.attempts[me].pc.Issuing? && s.attempts[me].pc.w.Claim? && st.verdict.KindUnknown? && reason.UnknownKind?)
         || (st.Reply? && s.attempts[me].pc.Issuing? && s.attempts[me].pc.w.Claim? && st.verdict.StateCorrupt? && reason.CorruptState?)
         || (st.Reply? && s.attempts[me].pc.Issuing? && s.attempts[me].pc.w.Persist?
             && s.attempts[me].run.tokens > c.tokenLimit && reason.TokenBudget?)
         || (st.Reject? && st.unstorable && reason.UnstorableContent?)
  }

  predicate WriteEnds(w: Write, e: Ending) {
    || (w.Finish? && EndingOf(w.status, w.reason, w.output) == Some(e))
    || (w.FailUnstorable? && e == Failure(UnstorableContent))
  }

  predicate NextEnds(next: Next, e: Ending) {
    next.ToDone? && e == Success(next.output)
  }

  /** The attempt is on its way to write this ending, or has a write of it with unknown outcome. */
  predicate Intends(a: Attempt, e: Ending) {
    || (exists w :: w in a.late && WriteEnds(w, e))
    || (a.pc.Issuing? && (WriteEnds(a.pc.w, e) || NextEnds(a.pc.next, e)))
    || (a.pc.Projecting? && NextEnds(a.pc.next, e))
    || (a.pc.Projecting? && a.pc.goal.GFinish? && EndingOf(a.pc.goal.status, a.pc.goal.reason, a.pc.goal.output) == Some(e))
  }

  /** Heartbeats are sent under the guard only. */
  predicate BeatsGuarded(a: Attempt) {
    a.pc.Issuing? && a.pc.w.Heartbeat? ==> a.pc.next.ToGuard?
  }

  lemma BeatStep(c: Config, s: Sys, st: Step, me: Token)
    requires Enabled(c, s, st) && me in Apply(c, s, st).attempts && (me in s.attempts ==> BeatsGuarded(s.attempts[me]))
    ensures BeatsGuarded(Apply(c, s, st).attempts[me])
  {
    if me !in s.attempts {
      NewAttempt(c, s, st, me);
    } else if !StepOf(st, me) {
      OthersKeepAttempt(c, s, st, me);
    } else if st.Reply? {
      ReplyBeats(c, s, me, s.attempts[me], st.verdict);
    }
  }

  lemma ReplyBeats(c: Config, s: Sys, me: Token, a: Attempt, verdict: Verdict)
    requires a.pc.Issuing?
    ensures BeatsGuarded(AfterReply(c, s, me, a, a.pc.w, a.pc.next, verdict))
  {
  }

  lemma {:induction false} AlwaysBeatsGuarded(c: Config, states: seq<Sys>, steps: seq<Step>, n: nat, me: Token)
    requires Behavior(c, states, steps) && n < |states| && me in states[n].attempts
    ensures BeatsGuarded(states[n].attempts[me])
  {
    if n > 0 {
      if me in states[n - 1].attempts {
        AlwaysBeatsGuarded(c, states, steps, n - 1, me);
      }
      BeatStep(c, states[n - 1], steps[n - 1], me);
    }
  }

  // ---------- a new intention has just been named ----------

  lemma ErrorIntends(a: Attempt, w: Write, e: Ending)
    requires Intends(AfterError(a, w), e)
    ensures exists v :: v in a.late && WriteEnds(v, e)
  {
  }

  predicate LateIntends(late: set<Write>, e: Ending) {
    exists w :: w in late && WriteEnds(w, e)
  }

  lemma ContinueIntends(c: Config, a: Attempt, next: Next, e: Ending)
    requires Intends(Continue(c, a, next), e)
    ensures LateIntends(a.late, e) || NextEnds(next, e)
         || (next.ToBudget? && a.run.tokens > c.tokenLimit && e == Failure(TokenBudget))
  {
  }

  lemma ClaimIntends(a: Attempt, row: Row, version: nat, verdict: Verdict, e: Ending)
    requires Intends(AfterClaim(a, row, version, verdict), e)
    ensures LateIntends(a.late, e)
         || (row.cancelRequested && e == Cancellation)
         || (verdict.KindUnknown? && e == Failure(UnknownKind))
         || (verdict.StateCorrupt? && e == Failure(CorruptState))
  {
  }

  /** Out of the last writes of an attempt no ending comes. */
  lemma LastWritesEndNothing(c: Config, s: Sys, me: Token, a: Attempt, verdict: Verdict, e: Ending)
    requires a.pc.Issuing? && !a.pc.w.Claim? && !a.pc.w.Heartbeat? && !a.pc.w.Persist?
    requires Intends(AfterReply(c, s, me, a, a.pc.w, a.pc.next, verdict), e)
    ensures LateIntends(a.late, e)
  {
  }

  lemma ReplyIntends(c: Config, s: Sys, me: Token, verdict: Verdict, e: Ending)
    requires Enabled(c, s, Reply(me, verdict)) && BeatsGuarded(s.attempts[me])
    requires var a := s.attempts[me]; Intends(AfterReply(c, s, me, a, a.pc.w, a.pc.next, verdict), e)
    ensures Intends(s.attempts[me], e) || Names(c, s, Reply(me, verdict), me, e)
  {
    hide Continue, AfterClaim, Matches, WriteEnds, EndingOf;
    var a := s.attempts[me];
    if a.pc.w.Claim? {
      if Matches(c, s.db, me, a.pc.w) {
        ClaimIntends(a, s.db.row, Version(s.log), verdict, e);
      }
    } else if a.pc.w.Heartbeat? {
      BeatIntends(c, s, me, verdict, e);
    } else if a.pc.w.Persist? {
      PersistIntends(c, s, me, verdict, e);
    } else {
      LastWritesEndNothing(c, s, me, a, verdict, e);
    }
  }

  lemma BeatIntends(c: Config, s: Sys, me: Token, verdict: Verdict, e: Ending)
    requires Enabled(c, s, Reply(me, verdict)) && BeatsGuarded(s.attempts[me]) && s.attempts[me].pc.w.Heartbeat?
    requires var a := s.attempts[me]; Intends(AfterReply(c, s, me, a, a.pc.w, a.pc.next, verdict), e)
    ensures Intends(s.attempts[me], e) || Names(c, s, Reply(me, verdict), me, e)
  {
    hide Continue, Matches, WriteEnds;
    var a := s.attempts[me];
    if Matches(c, s.db, me, a.pc.w) && !s.db.row.cancelRequested {
      ContinueIntends(c, a, a.pc.next, e);
    }
  }

  lemma PersistIntends(c: Config, s: Sys, me: Token, verdict: Verdict, e: Ending)
    requires Enabled(c, s, Reply(me, verdict)) && s.attempts[me].pc.w.Persist?
    requires var a := s.attempts[me]; Intends(AfterReply(c, s, me, a, a.pc.w, a.pc.next, verdict), e)
    ensures Intends(s.attempts[me], e) || Names(c, s, Reply(me, verdict), me, e)
  {
    hide Continue, Matches, WriteEnds;
    var a := s.attempts[me];
    if Matches(c, s.db, me, a.pc.w) && !s.db.row.cancelRequested {
      ContinueIntends(c, a.(base := |s.log.history|, progress := a.progress || a.pc.w.advanced), a.pc.next, e);
    }
  }

  lemma ChoiceIntends(c: Config, s: Sys, me: Token, choice: Choice, e: Ending)
    requires Enabled(c, s, AtLoop(me, choice)) && Intends(Choose(s.attempts[me], choice), e)
    ensures Intends(s.attempts[me], e) || Names(c, s, AtLoop(me, choice), me, e)
  {
  }

  lemma ToolIntends(c: Config, s: Sys, me: Token, text: string, refusal: Option<FailReason>, e: Ending)
    requires Enabled(c, s, AtTools(me, text, refusal)) && Intends(HandleTool(s.attempts[me], text, refusal), e)
    ensures Intends(s.attempts[me], e) || Names(c, s, AtTools(me, text, refusal), me, e)
  {
  }

  lemma GuardIntends(c: Config, s: Sys, me: Token, event: Event, e: Ending)
    requires Enabled(c, s, AtGuard(me, event)) && Intends(GuardEvent(s.attempts[me], s.attempts[me].pc.tool, event), e)
    ensures Intends(s.attempts[me], e) || Names(c, s, AtGuard(me, event), me, e)
  {
  }

  lemma LocalIntends(c: Config, s: Sys, st: Step, me: Token, e: Ending)
    requires Enabled(c, s, st) && StepOf(st, me) && (st.AtLoop? || st.AtTools? || st.AtGuard?)
    requires Intends(Apply(c, s, st).attempts[me], e)
    ensures Intends(s.attempts[me], e) || Names(c, s, st, me, e)
  {
    hide Intends, Names, Choose, HandleTool, GuardEvent;
    match st
    case AtLoop(_, choice) => ChoiceIntends(c, s, me, choice, e);
    case AtTools(_, text, refusal) => ToolIntends(c, s, me, text, refusal, e);
    case AtGuard(_, event) => GuardIntends(c, s, me, event, e);
  }

  lemma IntendStep(c: Config, s: Sys, st: Step, me: Token, e: Ending)
    requires Enabled(c, s, st) && (me in s.attempts ==> BeatsGuarded(s.attempts[me]))
    requires me in Apply(c, s, st).attempts && Intends(Apply(c, s, st).attempts[me], e)
    ensures (me in s.attempts && Intends(s.attempts[me], e)) || Names(c, s, st, me, e)
  {
    if me !in s.attempts {
      NewAttempt(c, s, st, me);
    } else if !StepOf(st, me) {
      OthersKeepAttempt(c, s, st, me);
    } else if st.Reply? {
      ReplyIntends(c, s, me, st.verdict, e);
    } else if st.AtLoop? || st.AtTools? || st.AtGuard? {
      LocalIntends(c, s, st, me, e);
    } else {
      OtherIntends(c, s, st, me, e);
    }
  }

  lemma OtherIntends(c: Config, s: Sys, st: Step, me: Token, e: Ending)
    requires Enabled(c, s, st) && StepOf(st, me) && !st.Reply? && !st.AtLoop? && !st.AtTools? && !st.AtGuard?
    requires Intends(Apply(c, s, st).attempts[me], e)
    ensures Intends(s.attempts[me], e) || Names(c, s, st, me, e)
  {
    var a := s.attempts[me];
    match st
    case TimeOut(_) => TimeOutIntends(a, e);
    case Reject(_, unstorable) =>
      if !unstorable { ErrorIntends(a, a.pc.w, e); }
    case _ =>
  }

  lemma TimeOutIntends(a: Attempt, e: Ending)
    requires a.pc.Issuing? && Intends(AfterError(a, a.pc.w).(late := a.late + {a.pc.w}), e)
    ensures Intends(a, e)
  {
    var b := AfterError(a, a.pc.w);
    if Intends(b, e) {
      ErrorIntends(a, a.pc.w, e);
    }
  }

  // ---------- over whole runs ----------

  ghost predicate Named(c: Config, states: seq<Sys>, steps: seq<Step>, n: nat, me: Token, e: Ending)
    requires |states| == |steps| + 1 && n < |states|
  {
    exists i :: 0 <= i < n && Names(c, states[i], steps[i], me, e)
  }

  lemma {:induction false} IntentionsAreNamed(c: Config, states: seq<Sys>, steps: seq<Step>, n: nat, me: Token, e: Ending)
    requires Behavior(c, states, steps) && n < |states|
    requires me in states[n].attempts && Intends(states[n].attempts[me], e)
    ensures Named(c, states, steps, n, me, e)
  {
    hide Intends, Names;
    if n > 0 {
      if me in states[n - 1].attempts {
        AlwaysBeatsGuarded(c, states, steps, n - 1, me);
      }
      IntendStep(c, states[n - 1], steps[n - 1], me, e);
      if me in states[n - 1].attempts && Intends(states[n - 1].attempts[me], e) {
        IntentionsAreNamed(c, states, steps, n - 1, me, e);
      }
    }
  }

  /** The step that ends a run: a write somebody intended, a suspension under a cancel request, or the user's cancel. */
  lemma EndStep(c: Config, s: Sys, st: Step) returns (me: Token)
    requires Inv(s) && Enabled(c, s, st) && !s.db.row.status.Terminal() && Apply(c, s, st).db.row.status.Terminal()
    ensures var t := Apply(c, s, st);
            var e := EndingOf(t.db.row.status, t.db.row.failReason, t.db.row.output);
            && e.Some?
            && (|| (e == Some(Cancellation) && (st.UserCancel? || s.db.row.cancelRequested))
                || (me in s.attempts && Intends(s.attempts[me], e.value)))
  {
    me := 0;
    if st.Reply? || st.LateCommit? {
      me := st.me;
      WriteEnding(c, s, me, if st.Reply? then s.attempts[me].pc.w else st.w);
    } else if !st.UserCancel? && !st.UserAnswer? {
      OthersKeepRow(c, s, st);
    }
  }

  lemma WriteEnding(c: Config, s: Sys, me: Token, w: Write)
    requires Inv(s) && WriteOk(s.log, w)
    requires !s.db.row.status.Terminal() && Commit(c, s.db, me, w).row.status.Terminal()
    ensures var row := Commit(c, s.db, me, w).row;
            var e := EndingOf(row.status, row.failReason, row.output);
            e.Some? && (WriteEnds(w, e.value) || (e == Some(Cancellation) && s.db.row.cancelRequested))
  {
  }

  lemma {:induction false} RequestsAreTheUsers(c: Config, states: seq<Sys>, steps: seq<Step>, n: nat)
    requires Behavior(c, states, steps) && n < |states| && states[n].db.row.cancelRequested
    ensures exists i :: 0 <= i < n && steps[i].UserCancel?
  {
    if n > 0 {
      if states[n - 1].db.row.cancelRequested {
        RequestsAreTheUsers(c, states, steps, n - 1);
      } else {
        RequestStep(c, states[n - 1], steps[n - 1]);
      }
    }
  }

  lemma RequestStep(c: Config, s: Sys, st: Step)
    requires Enabled(c, s, st) && !s.db.row.cancelRequested && Apply(c, s, st).db.row.cancelRequested
    ensures st.UserCancel?
  {
    if !st.Reply? && !st.LateCommit? && !st.UserAnswer? && !st.UserCancel? {
      OthersKeepRow(c, s, st);
    }
  }

  /** Every stored ending was named before by an event of some attempt, with exactly that output or reason; a cancelled run
      was cancelled by the user. */
  ghost predicate EndingIsNamed(c: Config, states: seq<Sys>, steps: seq<Step>, n: nat)
    requires |states| == |steps| + 1 && n < |states|
  {
    var row := states[n].db.row;
    match row.status
    case Succeeded => row.output.Some? && exists me :: Named(c, states, steps, n, me, Success(row.output.value))
    case Failed => row.failReason.Some? && exists me :: Named(c, states, steps, n, me, Failure(row.failReason.value))
    case Cancelled => exists i :: 0 <= i < n && steps[i].UserCancel?
    case _ => true
  }

  lemma {:induction false} EndingsAreNamed(c: Config, states: seq<Sys>, steps: seq<Step>, n: nat)
    requires Behavior(c, states, steps) && n < |states|
    ensures EndingIsNamed(c, states, steps, n)
  {
    hide Names, Intends, Inv, Apply, Enabled, EndingIsNamed;
    if !states[n].db.row.status.Terminal() {
      OpenIsNamed(c, states, steps, n);
    } else if n == 0 {
      StartIsOpen(states[0]);
    } else {
      EndingsAreNamed(c, states, steps, n - 1);
      if states[n - 1].db.row.status.Terminal() {
        TerminalIsFrozen(c, states, steps, n - 1, n);
        StaysNamed(c, states, steps, n - 1);
      } else {
        NewEndingIsNamed(c, states, steps, n - 1);
      }
    }
  }

  lemma OpenIsNamed(c: Config, states: seq<Sys>, steps: seq<Step>, n: nat)
    requires |states| == |steps| + 1 && n < |states| && !states[n].db.row.status.Terminal()
    ensures EndingIsNamed(c, states, steps, n)
  {
  }

  lemma StartIsOpen(s: Sys)
    requires Init(s)
    ensures !s.db.row.status.Terminal()
  {
  }

  lemma StaysNamed(c: Config, states: seq<Sys>, steps: seq<Step>, n: nat)
    requires |states| == |steps| + 1 && n + 1 < |states| && EndingIsNamed(c, states, steps, n)
    requires states[n + 1].db.row == states[n].db.row
    ensures EndingIsNamed(c, states, steps, n + 1)
  {
    hide Names;
    var row := states[n].db.row;
    if row.status.Succeeded? {
      var me :| Named(c, states, steps, n, me, Success(row.output.value));
      assert Named(c, states, steps, n + 1, me, Success(row.output.value));
    } else if row.status.Failed? {
      var me :| Named(c, states, steps, n, me, Failure(row.failReason.value));
      assert Named(c, states, steps, n + 1, me, Failure(row.failReason.value));
    }
  }

  lemma NewEndingIsNamed(c: Config, states: seq<Sys>, steps: seq<Step>, n: nat)
    requires Behavior(c, states, steps) && n < |steps|
    requires !states[n].db.row.status.Terminal() && states[n + 1].db.row.status.Terminal()
    ensures EndingIsNamed(c, states, steps, n + 1)
  {
    AlwaysInv(c, states, steps, n);
    hide Names, Intends, Inv, Apply, Enabled, EndingOf;
    EndingReads(states[n + 1].db.row);
    var row := states[n + 1].db.row;
    var me := EndStep(c, states[n], steps[n]);
    var e := EndingOf(row.status, row.failReason, row.output).value;
    if me in states[n].attempts && Intends(states[n].attempts[me], e) {
      IntentionsAreNamed(c, states, steps, n, me, e);
      LaterNamed(c, states, steps, n, me, e);
      if e.Cancellation? {
        var i :| 0 <= i < n && Names(c, states[i], steps[i], me, e);
        NamedCancel(c, states[i], steps[i], me);
        RequestsAreTheUsers(c, states, steps, i);
      }
    } else if states[n].db.row.cancelRequested {
      RequestsAreTheUsers(c, states, steps, n);
    }
  }

  lemma EndingReads(row: Row)
    ensures var e := EndingOf(row.status, row.failReason, row.output);
            && (e.Some? && row.status.Succeeded? ==> row.output.Some? && e.value == Success(row.output.value))
            && (e.Some? && row.status.Failed? ==> row.failReason.Some? && e.value == Failure(row.failReason.value))
            && (e.Some? && row.status.Cancelled? ==> e.value.Cancellation?)
            && (e == Some(Cancellation) ==> row.status.Cancelled?)
  {
  }

  lemma LaterNamed(c: Config, states: seq<Sys>, steps: seq<Step>, n: nat, me: Token, e: Ending)
    requires |states| == |steps| + 1 && n + 1 < |states| && Named(c, states, steps, n, me, e)
    ensures Named(c, states, steps, n + 1, me, e)
  {
    hide Names;
  }

  lemma NamedCancel(c: Config, s: Sys, st: Step, me: Token)
    requires Names(c, s, st, me, Cancellation)
    ensures s.db.row.cancelRequested
  {
  }
}
