/** Lease timing: what a fresh lease excludes, and when the guard's heartbeats keep it fresh. */
module DurableLease {
  import opened Wrappers
  import opened DurableTypes
  import opened DurableSql
  import opened DurableProtocol
  import opened DurableInvariant
  import opened DurableLifecycle

  /** The lease was refreshed no longer than the takeover window ago. */
  predicate Fresh(c: Config, s: Sys) {
    s.db.row.lockedAt.Some? && s.db.now <= s.db.row.lockedAt.value + c.takeover
  }

  /** Under a fresh lease nobody claims the run, and `cancel` only leaves a request. */
  lemma FreshLeaseExcludes(c: Config, s: Sys, st: Step)
    requires Inv(s) && Enabled(c, s, st) && s.db.row.lockedBy.Some? && Fresh(c, s)
    ensures forall me :: Commits(s, st, me, Claim) ==> Apply(c, s, st).db.row == s.db.row
    ensures CancelAction(s.db.row, c.takeover, s.db.now) == Requested
    ensures Apply(c, s, UserCancel).db.row == s.db.row.(cancelRequested := true)
    ensures !StepOf(st, s.db.row.lockedBy.value) ==> Apply(c, s, st).db.row.lockedBy == s.db.row.lockedBy
  {
    if st.Reply? {
      CommitHolder(c, s, st.me, s.attempts[st.me].pc.w);
    } else if st.LateCommit? {
      CommitHolder(c, s, st.me, st.w);
    } else if !st.UserCancel? && !st.UserAnswer? {
      OthersKeepRow(c, s, st);
    }
  }

  /** A holder whose refreshes keep the lease fresh loses it only by a step of its own. */
  lemma {:induction false} LostOnlyByOwnStep(c: Config, states: seq<Sys>, steps: seq<Step>, i: nat, j: nat, me: Token)
    returns (k: nat)
    requires Behavior(c, states, steps) && i < j < |states|
    requires states[i].db.row.lockedBy == Some(me) && states[j].db.row.lockedBy != Some(me)
    requires forall n :: i <= n < j && states[n].db.row.lockedBy == Some(me) ==> Fresh(c, states[n])
    ensures i <= k < j && states[k].db.row.lockedBy == Some(me) && StepOf(steps[k], me)
    decreases j - i
  {
    AlwaysInv(c, states, steps, i);
    if StepOf(steps[i], me) {
      k := i;
    } else {
      FreshLeaseExcludes(c, states[i], steps[i]);
      k := LostOnlyByOwnStep(c, states, steps, i + 1, j, me);
    }
  }

  // ---------- the guard's schedule ----------

  /** Microseconds: the bound on one lease-holding write, and the default takeover window. */
  const WRITE_BOUND: nat := 5_000_000
  const DEFAULT_TAKEOVER: nat := 90_000_000

  function Period(takeover: nat): nat {
    takeover / 3
  }

  function Later(a: nat, b: nat): nat {
    if a < b then b else a
  }

  /** Refresh 0 is the last one before the guard starts, refreshes 1.. are its heartbeats. A refresh is sent
      and answered within the write bound; the first tick comes one period after the guard starts, every
      later one a period after the one before or as soon as that heartbeat is answered. */
  predicate Schedule(takeover: nat, sent: seq<nat>, answered: seq<nat>) {
    && |sent| == |answered|
    && (forall k :: 0 <= k < |sent| ==> sent[k] <= answered[k] <= sent[k] + WRITE_BOUND)
    && (|sent| > 1 ==> sent[1] == answered[0] + Period(takeover))
    && (forall k :: 1 <= k < |sent| - 1 ==> sent[k + 1] == Later(sent[k] + Period(takeover), answered[k]))
  }

  /** `NOW()` in a refresh is at least its send time and the next refresh has committed when it is answered:
      the lease cannot go stale in between. */
  predicate NoStaleGap(takeover: nat, sent: seq<nat>, answered: seq<nat>) {
    forall k :: 0 <= k < |sent| - 1 && k < |answered| - 1 ==> answered[k + 1] <= sent[k] + takeover
  }

  /** The guard's heartbeats keep the lease fresh on every schedule exactly when two thirds of the takeover
      window leave room for two slow writes. */
  lemma GuardKeepsLeaseFresh(takeover: nat)
    ensures (forall sent, answered :: Schedule(takeover, sent, answered) ==> NoStaleGap(takeover, sent, answered))
       <==> takeover - Period(takeover) >= 2 * WRITE_BOUND
  {
    var p := Period(takeover);
    if takeover - p >= 2 * WRITE_BOUND {
      forall sent, answered | Schedule(takeover, sent, answered)
        ensures NoStaleGap(takeover, sent, answered)
      {
        forall k | 0 <= k < |sent| - 1
          ensures answered[k + 1] <= sent[k] + takeover
        {
          if k > 0 {
            assert sent[k + 1] == Later(sent[k] + p, answered[k]);
          }
        }
      }
    } else {
      var sent := [0, WRITE_BOUND + p];
      var answered := [WRITE_BOUND, WRITE_BOUND + p + WRITE_BOUND];
      assert Schedule(takeover, sent, answered);
      assert answered[0 + 1] > sent[0] + takeover;
      assert !NoStaleGap(takeover, sent, answered);
    }
  }

  /** The default window of 90 s is safe; one of 10 s is not, although its heartbeats fit between each other. */
  lemma TakeoverExamples()
    ensures forall sent, answered :: Schedule(DEFAULT_TAKEOVER, sent, answered) ==> NoStaleGap(DEFAULT_TAKEOVER, sent, answered)
    ensures exists sent, answered :: Schedule(10_000_000, sent, answered) && !NoStaleGap(10_000_000, sent, answered)
  {
    GuardKeepsLeaseFresh(DEFAULT_TAKEOVER);
    GuardKeepsLeaseFresh(10_000_000);
  }

  // ---------- the schedule in a run of the system ----------

  /** The step commits a refresh of the lease by `me`. */
  ghost predicate Refreshes(c: Config, s: Sys, st: Step, me: Token) {
    exists w :: Commits(s, st, me, w) && Matches(c, s.db, me, w) && (w.Claim? || w.Heartbeat? || w.Persist?)
  }

  /** The refreshes of `me` at the steps `at` are sent and answered on the guard's schedule. */
  ghost predicate OnSchedule(c: Config, states: seq<Sys>, steps: seq<Step>, me: Token,
                             sent: seq<nat>, answered: seq<nat>, at: seq<nat>)
    requires |states| == |steps| + 1
  {
    && Schedule(c.takeover, sent, answered) && |at| == |sent|
    && (forall q :: 0 <= q < |at| ==>
          at[q] < |steps| && Refreshes(c, states[at[q]], steps[at[q]], me)
          && sent[q] <= states[at[q]].db.now <= answered[q])
  }

  /** Between `i` and `j` the holder itself does nothing that gives up the lease, as under the guard. */
  predicate HoldsOnTo(states: seq<Sys>, steps: seq<Step>, me: Token, i: nat, j: nat)
    requires |states| == |steps| + 1 && j < |states|
  {
    forall k :: i <= k < j && StepOf(steps[k], me) && states[k].db.row.lockedBy == Some(me) ==>
      states[k + 1].db.row.lockedBy == Some(me)
  }

  lemma {:induction false} ClockAdvances(c: Config, states: seq<Sys>, steps: seq<Step>, i: nat, j: nat)
    requires Behavior(c, states, steps) && i <= j < |states|
    ensures states[i].db.now <= states[j].db.now
    decreases j - i
  {
    if i < j {
      ClockAdvances(c, states, steps, i, j - 1);
      ClockStep(c, states[j - 1], steps[j - 1]);
    }
  }

  lemma ClockStep(c: Config, s: Sys, st: Step)
    requires Enabled(c, s, st)
    ensures s.db.now <= Apply(c, s, st).db.now
  {
  }

  lemma RefreshStores(c: Config, s: Sys, st: Step, me: Token)
    requires Enabled(c, s, st) && Refreshes(c, s, st, me)
    ensures Apply(c, s, st).db.row.lockedBy == Some(me) && Apply(c, s, st).db.row.lockedAt == Some(s.db.now)
  {
  }

  /** Under a fresh lease only a refresh of the holder moves the lease's time. */
  lemma LeaseTimeMoves(c: Config, s: Sys, st: Step, me: Token)
    requires Inv(s) && Enabled(c, s, st) && s.db.row.lockedBy == Some(me) && Fresh(c, s)
    requires Apply(c, s, st).db.row.lockedBy == Some(me)
    ensures Apply(c, s, st).db.row.lockedAt == s.db.row.lockedAt || Apply(c, s, st).db.row.lockedAt == Some(s.db.now)
  {
    if st.Reply? {
      CommitMovesTime(c, s, me, st.me, s.attempts[st.me].pc.w);
    } else if st.LateCommit? {
      CommitMovesTime(c, s, me, st.me, st.w);
    } else if !st.UserCancel? && !st.UserAnswer? {
      OthersKeepRow(c, s, st);
    }
  }

  lemma CommitMovesTime(c: Config, s: Sys, me: Token, author: Token, w: Write)
    requires s.db.row.lockedBy == Some(me) && Commit(c, s.db, author, w).row.lockedBy == Some(me)
    ensures var t := Commit(c, s.db, author, w);
            t.row.lockedAt == s.db.row.lockedAt || t.row.lockedAt == Some(s.db.now)
  {
  }

  lemma AnsweredInTime(takeover: nat, sent: seq<nat>, answered: seq<nat>, q: nat)
    requires Schedule(takeover, sent, answered) && takeover - Period(takeover) >= 2 * WRITE_BOUND && q + 1 < |sent|
    ensures |answered| == |sent| && answered[q + 1] <= sent[q] + takeover
  {
    GuardKeepsLeaseFresh(takeover);
    assert NoStaleGap(takeover, sent, answered);
  }

  /** Between two refreshes on the schedule the holder keeps the lease and keeps it fresh. */
  lemma {:induction false} GuardedLeaseStaysFresh(c: Config, states: seq<Sys>, steps: seq<Step>, me: Token,
                                                  sent: seq<nat>, answered: seq<nat>, at: seq<nat>, q: nat, n: nat)
    requires Behavior(c, states, steps) && OnSchedule(c, states, steps, me, sent, answered, at)
    requires c.takeover - Period(c.takeover) >= 2 * WRITE_BOUND
    requires q + 1 < |at| && at[q] < n <= at[q + 1] && HoldsOnTo(states, steps, me, at[q] + 1, n)
    ensures states[n].db.row.lockedBy == Some(me) && Fresh(c, states[n])
    ensures states[at[q]].db.now <= states[n].db.row.lockedAt.value
    decreases n
  {
    hide Apply, Enabled, Refreshes, Inv, Schedule, CancelAction, StepOf;
    var s, st := states[n - 1], steps[n - 1];
    AnsweredInTime(c.takeover, sent, answered, q);
    ClockAdvances(c, states, steps, n, at[q + 1]);
    ClockAdvances(c, states, steps, at[q], n - 1);
    AlwaysInv(c, states, steps, n - 1);
    if n - 1 == at[q] {
      RefreshStores(c, s, st, me);
    } else {
      GuardedLeaseStaysFresh(c, states, steps, me, sent, answered, at, q, n - 1);
      FreshLeaseExcludes(c, s, st);
      LeaseTimeMoves(c, s, st, me);
    }
  }

  /** While a guarded step runs on its schedule, with two thirds of the takeover window at least two write bounds, no
      other claim takes the lease and `cancel` only leaves a request: in every run of the system. */
  lemma GuardExcludes(c: Config, states: seq<Sys>, steps: seq<Step>, me: Token,
                      sent: seq<nat>, answered: seq<nat>, at: seq<nat>, q: nat, n: nat, st: Step)
    requires Behavior(c, states, steps) && OnSchedule(c, states, steps, me, sent, answered, at)
    requires c.takeover - Period(c.takeover) >= 2 * WRITE_BOUND
    requires q + 1 < |at| && at[q] < n <= at[q + 1] && HoldsOnTo(states, steps, me, at[q] + 1, n)
    requires Enabled(c, states[n], st)
    ensures forall other :: Commits(states[n], st, other, Claim) ==> Apply(c, states[n], st).db.row == states[n].db.row
    ensures Apply(c, states[n], UserCancel).db.row == states[n].db.row.(cancelRequested := true)
    ensures !StepOf(st, me) ==> Apply(c, states[n], st).db.row.lockedBy == Some(me)
  {
    GuardedLeaseStaysFresh(c, states, steps, me, sent, answered, at, q, n);
    AlwaysInv(c, states, steps, n);
    FreshLeaseExcludes(c, states[n], st);
  }
}
