/** Crashes add up: expired leases charge the only job row of a run however much progress lies between them. */
module DurableRetries {
  import opened Wrappers
  import opened DurableTypes
  import opened DurableSql
  import opened DurableProtocol
  import opened DurableInvariant
  import opened DurableOrphan
  import opened DurableProgress
  import opened DurableTraces

  /** Attempt `me` holds the run and its only job row, which has `errors` errors; every attempt before it made
      progress and never came to an error return. */
  predicate Holds(s: Sys, me: Token, errors: nat) {
    && s.db.row.status.Running? && s.db.row.lockedBy == Some(me) && !s.db.row.cancelRequested
    && s.db.row.lockedAt.Some? && s.db.row.lockedAt.value <= s.db.now
    && me in s.attempts && s.attempts[me].job == 0 && Active(s.attempts[me].pc)
    && s.db.jobs.Keys == {0}
    && s.db.jobs[0].owner == Some(me) && s.db.jobs[0].lockedAt <= s.db.now && s.db.jobs[0].errorCount == errors
    && s.log.deadLetters == 0
    && (forall o :: o in s.attempts ==> o <= me)
    && (forall o :: o in s.attempts && o != me ==> s.attempts[o].progress)
    && (forall o :: o in s.attempts ==> !s.attempts[o].refused && !s.attempts[o].direct && !Erring(s.attempts[o].pc))
  }

  /** A step of the holder's own program that leaves the database as it is. */
  lemma HoldsOn(c: Config, s: Sys, me: Token, errors: nat, st: Step)
    requires Holds(s, me, errors) && Enabled(c, s, st) && StepOf(st, me)
    requires Apply(c, s, st) == WithAttempt(s, me, Apply(c, s, st).attempts[me])
    requires var a, b := s.attempts[me], Apply(c, s, st).attempts[me];
             b.job == a.job && b.refused == a.refused && b.direct == a.direct && Active(b.pc)
    ensures Holds(Apply(c, s, st), me, errors)
  {
  }

  /** The projection and the persist that follow, answered. */
  lemma PersistOnce(c: Config, s: Sys, me: Token, errors: nat) returns (t: Sys)
    requires Holds(s, me, errors) && s.attempts[me].pc.Projecting? && s.attempts[me].pc.goal.GPersist?
    requires s.attempts[me].pc.next.ToModel? || s.attempts[me].pc.next.ToBudget?
    ensures Reaches(c, s, t) && Holds(t, me, errors)
    ensures var a := s.attempts[me];
            && t.attempts[me].progress == (a.progress || a.pc.goal.advanced)
            && (a.pc.next.ToModel? ==> t.attempts[me].pc == Guard(false))
  {
    hide ProjectRows, InsertRows, NextSeq, Reaches;
    var read := ReadMark(me);
    HoldsOn(c, s, me, errors, read);
    var m := Apply(c, s, read);
    ReachesOne(c, s, read, m);
    t := PersistAnswered(c, m, me, errors);
    ReachesOn(c, s, m, t);
  }

  lemma PersistAnswered(c: Config, s: Sys, me: Token, errors: nat) returns (t: Sys)
    requires Holds(s, me, errors) && s.attempts[me].pc.Issuing? && s.attempts[me].pc.w.Persist?
    requires s.attempts[me].pc.next.ToModel? || s.attempts[me].pc.next.ToBudget?
    ensures Reaches(c, s, t) && Holds(t, me, errors)
    ensures var a := s.attempts[me];
            && t.attempts[me].progress == (a.progress || a.pc.w.advanced)
            && (a.pc.next.ToModel? ==> t.attempts[me].pc == Guard(false))
  {
    hide InsertRows, Reaches;
    t := Apply(c, s, Reply(me, Usable));
    ReachesOne(c, s, Reply(me, Usable), t);
  }

  /** The checkpoint, a model call, and the advancing persist of its reply. */
  lemma Progresses(c: Config, s: Sys, me: Token, errors: nat) returns (t: Sys)
    requires Holds(s, me, errors) && s.attempts[me].pc.LoopHead?
    ensures Reaches(c, s, t) && Holds(t, me, errors) && t.attempts[me].progress
  {
    hide Reaches, Follows;
    var call := AtLoop(me, CallModel(s.attempts[me].run));
    HoldsOn(c, s, me, errors, call);
    ReachesOne(c, s, call, Apply(c, s, call));
    var m := PersistOnce(c, Apply(c, s, call), me, errors);
    ReachesOn(c, s, Apply(c, s, call), m);
    var reply := AtGuard(me, ModelReplied(m.attempts[me].run));
    HoldsOn(c, m, me, errors, reply);
    ReachesOne(c, m, reply, Apply(c, m, reply));
    ReachesOn(c, s, m, Apply(c, m, reply));
    t := PersistOnce(c, Apply(c, m, reply), me, errors);
    ReachesOn(c, s, Apply(c, m, reply), t);
  }

  /** The holder crashes and both its leases expire. */
  function Abandoned(c: Config, s: Sys, me: Token): Sys
    requires me in s.attempts
  {
    var t := WithAttempt(s, me, Fallen(s.attempts[me], Dead));
    t.(db := t.db.(now := t.db.now + c.takeover + c.reclaimWindow + 1))
  }

  lemma Abandons(c: Config, s: Sys, me: Token, errors: nat)
    requires Holds(s, me, errors)
    ensures Reaches(c, s, Abandoned(c, s, me))
  {
    var m := WithAttempt(s, me, Fallen(s.attempts[me], Dead));
    ReachesOne(c, s, Crash(me), m);
    ReachesOne(c, m, Tick(c.takeover + c.reclaimWindow + 1), Abandoned(c, s, me));
    ReachesOn(c, s, m, Abandoned(c, s, me));
  }

  /** The next attempt takes the row, which costs an error, and claims the run. */
  lemma Retakes(c: Config, s: Sys, me: Token, errors: nat) returns (t: Sys)
    requires Holds(s, me, errors) && s.attempts[me].progress && errors < c.maxRetries
    ensures Reaches(c, s, t) && Holds(t, me + 1, errors + 1) && t.attempts[me + 1].pc.LoopHead?
  {
    hide Reaches, Follows;
    var m := Abandoned(c, s, me);
    Abandons(c, s, me, errors);
    var taken := Apply(c, m, TakeJob(0, me + 1));
    ReachesOne(c, m, TakeJob(0, me + 1), taken);
    t := Apply(c, taken, Reply(me + 1, Usable));
    ReachesOne(c, taken, Reply(me + 1, Usable), t);
    ReachesOn(c, m, taken, t);
    ReachesOn(c, s, m, t);
  }

  /** Out of retries, the next reclaim dead-letters the row. */
  lemma Buries(c: Config, s: Sys, me: Token, errors: nat) returns (t: Sys)
    requires Holds(s, me, errors) && s.attempts[me].progress && errors >= c.maxRetries
    ensures Reaches(c, s, t) && t.db.row == s.db.row && t.db.jobs == map[] && t.log.deadLetters == 1
    ensures t.attempts == Abandoned(c, s, me).attempts
  {
    var m := Abandoned(c, s, me);
    Abandons(c, s, me, errors);
    t := Apply(c, m, TakeJob(0, me + 1));
    ReachesOne(c, m, TakeJob(0, me + 1), t);
    ReachesOn(c, s, m, t);
  }

  lemma {:induction false} CrashesAddUp(c: Config, s: Sys, me: Token, errors: nat) returns (t: Sys)
    requires Holds(s, me, errors) && s.attempts[me].pc.LoopHead? && errors <= c.maxRetries
    ensures Reaches(c, s, t) && t.db.row.status.Running? && t.db.jobs == map[] && t.log.deadLetters == 1
    ensures forall o :: o in t.attempts ==>
              t.attempts[o].progress && !t.attempts[o].refused && !t.attempts[o].direct && !Erring(t.attempts[o].pc)
    decreases c.maxRetries - errors
  {
    var m := Progresses(c, s, me, errors);
    if errors < c.maxRetries {
      var next := Retakes(c, m, me, errors);
      ReachesOn(c, s, m, next);
      t := CrashesAddUp(c, next, me + 1, errors + 1);
      ReachesOn(c, s, next, t);
    } else {
      t := Buries(c, m, me, errors);
      ReachesOn(c, s, m, t);
    }
  }

  lemma Begins(c: Config, run: AgentRun) returns (t: Sys)
    ensures Reaches(c, InitialSys(run, 0), t) && Holds(t, 0, 0) && t.attempts[0].pc.LoopHead?
  {
    var s := InitialSys(run, 0);
    var taken := Apply(c, s, TakeJob(0, 0));
    ReachesOne(c, s, TakeJob(0, 0), taken);
    t := Apply(c, taken, Reply(0, Usable));
    ReachesOne(c, taken, Reply(0, Usable), t);
    ReachesOn(c, s, taken, t);
  }

  /** Errors separated by progress do add up when they are crashes: under every configuration a run can lose its only
      job row to the dead-letter table although every attempt on it made progress and none returned an error, panicked,
      or had a requeue refused. */
  lemma CrashesDeadLetterInSpiteOfProgress(c: Config, run: AgentRun) returns (t: Sys)
    ensures Reaches(c, InitialSys(run, 0), t) && Inv(t)
    ensures Unfinished(t) && t.db.jobs == map[] && t.log.deadLetters == 1
    ensures forall o :: o in t.attempts ==>
              t.attempts[o].progress && !t.attempts[o].refused && !t.attempts[o].direct && !Erring(t.attempts[o].pc)
  {
    var s := InitialSys(run, 0);
    var m := Begins(c, run);
    t := CrashesAddUp(c, m, 0, 0);
    ReachesOn(c, s, m, t);
    assert Init(s);
    InitHolds(s);
    ReachesKeepsInv(c, s, t);
  }

  /** A caught panic charges an attempt that made progress too. */
  lemma PanicChargesInSpiteOfProgress(c: Config, run: AgentRun) returns (s: Sys)
    ensures Reaches(c, InitialSys(run, 0), s) && s.attempts.Keys == {0} && s.attempts[0].progress
    ensures s.attempts[0].pc.Panicked? && !s.attempts[0].refused && !s.attempts[0].direct
    ensures Enabled(c, s, FailJob(0)) && Charged(s, Apply(c, s, FailJob(0)), 0)
  {
    hide Reaches, Follows;
    var m := Begins(c, run);
    var n := Progresses(c, m, 0, 0);
    ReachesOn(c, InitialSys(run, 0), m, n);
    s := Apply(c, n, Panic(0));
    ReachesOne(c, n, Panic(0), s);
    ReachesOn(c, InitialSys(run, 0), n, s);
  }
}
