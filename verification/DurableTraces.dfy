/** Where the engine falls short of its own comments: concrete runs, and the general case behind the first. */
module DurableTraces {
  import opened Wrappers
  import opened DurableTypes
  import opened DurableSql
  import opened DurableProtocol
  import opened DurableInvariant
  import opened DurableLifecycle
  import opened DurableProgress
  import opened DurableOrphan

  /** `t` is reached from `s` by these steps. */
  predicate Follows(c: Config, s: Sys, steps: seq<Step>, t: Sys)
    decreases |steps|
  {
    if steps == [] then s == t
    else Enabled(c, s, steps[0]) && Follows(c, Apply(c, s, steps[0]), steps[1..], t)
  }

  ghost predicate Reaches(c: Config, s: Sys, t: Sys) {
    exists steps :: Follows(c, s, steps, t)
  }

  lemma {:induction false} FollowsOn(c: Config, s: Sys, front: seq<Step>, m: Sys, back: seq<Step>, t: Sys)
    requires Follows(c, s, front, m) && Follows(c, m, back, t)
    ensures Follows(c, s, front + back, t)
    decreases |front|
  {
    if front == [] {
      assert front + back == back;
    } else {
      FollowsOn(c, Apply(c, s, front[0]), front[1..], m, back, t);
      assert (front + back)[1..] == front[1..] + back;
    }
  }

  lemma ReachesOn(c: Config, s: Sys, m: Sys, t: Sys)
    requires Reaches(c, s, m) && Reaches(c, m, t)
    ensures Reaches(c, s, t)
  {
    var front :| Follows(c, s, front, m);
    var back :| Follows(c, m, back, t);
    FollowsOn(c, s, front, m, back, t);
  }

  lemma ReachesOne(c: Config, s: Sys, st: Step, t: Sys)
    requires Enabled(c, s, st) && Apply(c, s, st) == t
    ensures Reaches(c, s, t)
  {
    assert Follows(c, t, [], t);
    assert [st][1..] == [];
    assert Follows(c, s, [st], t);
  }

  lemma ReachesSelf(c: Config, s: Sys)
    ensures Reaches(c, s, s)
  {
    assert Follows(c, s, [], s);
  }

  lemma {:induction false} FollowsKeepsInv(c: Config, s: Sys, steps: seq<Step>, t: Sys)
    requires Inv(s) && Follows(c, s, steps, t)
    ensures Inv(t)
    decreases |steps|
  {
    if steps != [] {
      StepKeeps(c, s, steps[0]);
      FollowsKeepsInv(c, Apply(c, s, steps[0]), steps[1..], t);
    }
  }

  lemma ReachesKeepsInv(c: Config, s: Sys, t: Sys)
    requires Inv(s) && Reaches(c, s, t)
    ensures Inv(t)
  {
    var steps :| Follows(c, s, steps, t);
    FollowsKeepsInv(c, s, steps, t);
  }

  // ---------- an uncovered claim can orphan the run ----------

  function Distance(pc: Pc): nat {
    if pc.Tools? then 4 else if pc.LoopHead? || pc.Guard? then 3 else if pc.Projecting? then 2 else 1
  }

  /** How a displaced attempt gets on with its program until it learns that the lease is gone. */
  function NextMove(a: Attempt, o: Token): Step {
    match a.pc
    case Tools => AtTools(o, "", None)
    case LoopHead => AtLoop(o, CallModel(a.run))
    case Guard(_) => AtGuard(o, HeartbeatDue)
    case Projecting(_, _) => ReadMark(o)
    case _ => Reply(o, Usable)
  }

  predicate Displacable(s: Sys, o: Token) {
    o in s.attempts && Driving(s.attempts[o].pc) && s.db.row.lockedBy != Some(o)
  }

  /** Nothing but attempt `o` differs between `s` and `t`. */
  predicate OnlyMoves(s: Sys, o: Token, t: Sys) {
    && t.db == s.db && t.log == s.log && t.attempts.Keys == s.attempts.Keys && o in t.attempts
    && forall me :: me in s.attempts && me != o ==> t.attempts[me] == s.attempts[me]
  }

  /** A displaced attempt can always come to its silent `Ok`, changing nothing on the way. */
  lemma {:induction false} DisplacedConcludes(c: Config, s: Sys, o: Token) returns (t: Sys)
    requires Displacable(s, o)
    ensures Reaches(c, s, t) && OnlyMoves(s, o, t) && t.attempts[o].pc.DecidedOk?
    decreases Distance(s.attempts[o].pc)
  {
    var st := NextMove(s.attempts[o], o);
    MoveIsSilent(c, s, o);
    t := Apply(c, s, st);
    ReachesOne(c, s, st, t);
    if !t.attempts[o].pc.DecidedOk? {
      var m := t;
      t := DisplacedConcludes(c, m, o);
      ReachesOn(c, s, m, t);
    }
  }

  lemma MoveIsSilent(c: Config, s: Sys, o: Token)
    requires Displacable(s, o)
    ensures Enabled(c, s, NextMove(s.attempts[o], o))
    ensures var t := Apply(c, s, NextMove(s.attempts[o], o));
            && OnlyMoves(s, o, t)
            && (t.attempts[o].pc.DecidedOk? ||
                (Displacable(t, o) && Distance(t.attempts[o].pc) < Distance(s.attempts[o].pc)))
  {
    var a := s.attempts[o];
    if a.pc.Issuing? {
      LostReply(c, s, o, a);
    } else if a.pc.Tools? {
      ToolsMove(a);
    }
  }

  lemma ToolsMove(a: Attempt)
    ensures var b := HandleTool(a, "", None); Driving(b.pc) && Distance(b.pc) < 4
  {
  }

  /** A reply that finds the lease gone ends a driving attempt in a silent `Ok`. */
  lemma LostReply(c: Config, s: Sys, o: Token, a: Attempt)
    requires a.pc.Issuing? && Driving(a.pc) && !Owned(s.db.row, o)
    ensures AfterReply(c, s, o, a, a.pc.w, a.pc.next, Usable).pc.DecidedOk?
    ensures CommitBy(c, s, o, a.pc.w) == s
  {
  }

  predicate NothingSafe(s: Sys) {
    forall j :: j in s.db.jobs ==> !Safe(s, j)
  }

  lemma StillNothingSafe(s: Sys, o: Token, t: Sys)
    requires NothingSafe(s) && Displacable(s, o) && OnlyMoves(s, o, t) && t.attempts[o].pc.DecidedOk?
    ensures NothingSafe(t)
    ensures forall j :: Live(t, j) ==> Live(s, j) && s.db.jobs[j].owner != Some(o)
  {
    forall j | j in t.db.jobs
      ensures !Safe(t, j)
    {
      assert !Safe(s, j);
    }
  }

  /** With no safe job row, every job owner can come to return `Ok`. */
  lemma {:induction false} AllConclude(c: Config, s: Sys, todo: set<JobId>) returns (t: Sys)
    requires NothingSafe(s)
    requires forall j :: Live(s, j) ==> j in todo
    ensures Reaches(c, s, t) && t.db == s.db && t.log == s.log
    ensures forall j :: !Live(t, j)
    decreases |todo|
  {
    if j :| j in s.db.jobs && Live(s, j) {
      assert !Safe(s, j);
      var o := s.db.jobs[j].owner.value;
      var m := DisplacedConcludes(c, s, o);
      StillNothingSafe(s, o, m);
      t := AllConclude(c, m, todo - {j});
      ReachesOn(c, s, m, t);
    } else {
      t := s;
      ReachesSelf(c, s);
    }
  }

  /** The condition is exact: after a claim that is not covered, some continuation orphans the run. */
  lemma UncoveredClaimOrphans(c: Config, s: Sys, st: Step, me: Token) returns (t: Sys)
    requires Inv(s) && Enabled(c, s, st) && Claims(c, s, st, me) && !s.log.DeadLettered()
    requires !Covered(s, me)
    ensures Reaches(c, Apply(c, s, st), t)
    ensures Inv(t) && !NoOrphan(t)
  {
    ClaimShape(c, s, st, me);
    UncoveredLeavesNothingSafe(c, s, st, me);
    t := AllConclude(c, Apply(c, s, st), Apply(c, s, st).db.jobs.Keys);
    StepKeeps(c, s, st);
    ReachesKeepsInv(c, Apply(c, s, st), t);
  }

  lemma UncoveredLeavesNothingSafe(c: Config, s: Sys, st: Step, me: Token)
    requires Inv(s) && Enabled(c, s, st) && Claims(c, s, st, me) && !Covered(s, me)
    ensures NothingSafe(Apply(c, s, st))
  {
    ClaimShape(c, s, st, me);
    forall j | j in s.db.jobs
      ensures !Safe(Apply(c, s, st), j)
    {
      assert !CoveringJob(s, me, j);
    }
  }

  // ---------- concrete runs ----------

  const DEMO_CONFIG := Config(90, 120, 20, 1000)
  const DEMO_RUN := AgentRun([], [], [], 0)
  const DEMO_LOG := EMPTY_LOG.(history := [DEMO_RUN])

  function DemoAttempt(pc: Pc): Attempt {
    Attempt(0, pc, DEMO_RUN, 0, false, false, false, {})
  }

  function DemoRow(holder: Token, since: Time): Row {
    FreshRow(DEMO_RUN).(status := Running, lockedBy := Some(holder), lockedAt := Some(since), startedAt := Some(121))
  }

  lemma DemoTwo(s: Sys, st1: Step, m: Sys, st2: Step, t: Sys)
    requires Enabled(DEMO_CONFIG, s, st1) && Apply(DEMO_CONFIG, s, st1) == m
    requires Enabled(DEMO_CONFIG, m, st2) && Apply(DEMO_CONFIG, m, st2) == t
    ensures Reaches(DEMO_CONFIG, s, t)
  {
    ReachesOne(DEMO_CONFIG, s, st1, m);
    ReachesOne(DEMO_CONFIG, m, st2, t);
    ReachesOn(DEMO_CONFIG, s, m, t);
  }

  /** Attempt 1 has stalled before its claim; attempt 2 took the expired job row and claimed the run. */
  function Reclaimed(): Sys {
    Sys(RunDb(DemoRow(2, 121), [], map[0 := Job(Some(2), 121, 1)], 1, 121),
        map[1 := DemoAttempt(Issuing(Claim, ToLoop)), 2 := DemoAttempt(LoopHead)], DEMO_LOG)
  }

  /** Attempt 2 has stalled past the takeover window and attempt 1 has claimed. */
  function Overtaken(): Sys {
    Sys(RunDb(DemoRow(1, 212), [], map[0 := Job(Some(2), 121, 1)], 1, 212),
        map[1 := DemoAttempt(LoopHead), 2 := DemoAttempt(Projecting(GPersist(false), ToModel))], DEMO_LOG)
  }

  /** Attempt 2 found the lease lost and returned `Ok`; the worker deleted the only job row. */
  function Orphaned(): Sys {
    Overtaken().(db := Overtaken().db.(jobs := map[]),
                 attempts := map[1 := DemoAttempt(LoopHead), 2 := DemoAttempt(DecidedOk)])
  }

  lemma DemoReclaim()
    ensures Reaches(DEMO_CONFIG, InitialSys(DEMO_RUN, 0), Reclaimed())
  {
    var s := InitialSys(DEMO_RUN, 0);
    var waiting := map[1 := DemoAttempt(Issuing(Claim, ToLoop))];
    var taken := Sys(RunDb(FreshRow(DEMO_RUN), [], map[0 := Job(Some(1), 0, 0)], 1, 0), waiting, DEMO_LOG);
    var late := taken.(db := taken.db.(now := 121));
    DemoTwo(s, TakeJob(0, 1), taken, Tick(121), late);
    DemoRetake(late);
    ReachesOn(DEMO_CONFIG, s, late, Reclaimed());
  }

  lemma DemoRetake(s: Sys)
    requires s == Sys(RunDb(FreshRow(DEMO_RUN), [], map[0 := Job(Some(1), 0, 0)], 1, 121),
                      map[1 := DemoAttempt(Issuing(Claim, ToLoop))], DEMO_LOG)
    ensures Reaches(DEMO_CONFIG, s, Reclaimed())
  {
    var both := map[1 := DemoAttempt(Issuing(Claim, ToLoop)), 2 := DemoAttempt(Issuing(Claim, ToLoop))];
    var m := Sys(s.db.(jobs := map[0 := Job(Some(2), 121, 1)]), both, DEMO_LOG);
    assert Apply(DEMO_CONFIG, s, TakeJob(0, 2)).attempts == both;
    DemoTwo(s, TakeJob(0, 2), m, Reply(2, Usable), Reclaimed());
  }

  lemma DemoOvertake()
    ensures Reaches(DEMO_CONFIG, Reclaimed(), Overtaken())
  {
    var m := Reclaimed().(attempts := map[1 := DemoAttempt(Issuing(Claim, ToLoop)),
                                          2 := DemoAttempt(Projecting(GPersist(false), ToModel))]);
    var n := m.(db := m.db.(now := 212));
    DemoTwo(Reclaimed(), AtLoop(2, CallModel(DEMO_RUN)), m, Tick(91), n);
    ReachesOne(DEMO_CONFIG, n, Reply(1, Usable), Overtaken());
    ReachesOn(DEMO_CONFIG, Reclaimed(), n, Overtaken());
  }

  lemma DemoOrphan()
    ensures Reaches(DEMO_CONFIG, Overtaken(), Orphaned())
  {
    var l := Overtaken().(attempts := map[1 := DemoAttempt(LoopHead),
                                          2 := DemoAttempt(Issuing(Persist(DEMO_RUN, [], 0, false), ToModel))]);
    var m := Overtaken().(attempts := map[1 := DemoAttempt(LoopHead), 2 := DemoAttempt(DecidedOk)]);
    DemoTwo(Overtaken(), ReadMark(2), l, Reply(2, Usable), m);
    ReachesOne(DEMO_CONFIG, m, CompleteJob(2), Orphaned());
    ReachesOn(DEMO_CONFIG, Overtaken(), m, Orphaned());
  }

  /** The orphan invariant can fail: attempt 1 stalls before its claim, its job row expires, attempt 2 takes
      the row, claims the run and stalls in turn; attempt 1 wakes and takes the lease although the job row is
      no longer its own; attempt 2 then returns `Ok` and the only job row is deleted. */
  lemma StalledClaimOrphansTheRun() returns (t: Sys)
    ensures Reaches(DEMO_CONFIG, InitialSys(DEMO_RUN, 0), t)
    ensures Inv(t) && t.db.row.status.Running? && t.db.jobs == map[] && !t.log.DeadLettered() && !NoOrphan(t)
  {
    t := Orphaned();
    DemoReclaim();
    DemoOvertake();
    DemoOrphan();
    ReachesOn(DEMO_CONFIG, InitialSys(DEMO_RUN, 0), Reclaimed(), Overtaken());
    ReachesOn(DEMO_CONFIG, InitialSys(DEMO_RUN, 0), Overtaken(), t);
    FromStart(DEMO_RUN, t);
  }

  lemma FromStart(run: AgentRun, t: Sys)
    requires Reaches(DEMO_CONFIG, InitialSys(run, 0), t)
    ensures Inv(t)
  {
    assert Init(InitialSys(run, 0));
    InitHolds(InitialSys(run, 0));
    ReachesKeepsInv(DEMO_CONFIG, InitialSys(run, 0), t);
  }

  // ---------- a charge in spite of progress ----------

  /** Attempt 1 holds the run since the start, at `pc`, after `n` persists of which the second advanced. */
  function Held(pc: Pc, n: nat, direct: bool, late: set<Write>): Sys
    requires n <= 2
  {
    Sys(RunDb(DemoRow(1, 0).(startedAt := Some(0)), [], map[0 := Job(Some(1), 0, 0)], 1, 0),
        map[1 := Attempt(0, pc, DEMO_RUN, n, n == 2, false, direct, late)],
        match n
        case 0 => DEMO_LOG
        case 1 => DEMO_LOG.(history := [DEMO_RUN, DEMO_RUN], projected := true)
        case _ => DEMO_LOG.(history := [DEMO_RUN, DEMO_RUN, DEMO_RUN], projected := true, advances := 1, advancedBy := {1}))
  }

  lemma DemoStart()
    ensures Reaches(DEMO_CONFIG, InitialSys(DEMO_RUN, 0), Held(LoopHead, 0, false, {}))
  {
    var m := Sys(RunDb(FreshRow(DEMO_RUN), [], map[0 := Job(Some(1), 0, 0)], 1, 0),
                 map[1 := DemoAttempt(Issuing(Claim, ToLoop))], DEMO_LOG);
    DemoTwo(InitialSys(DEMO_RUN, 0), TakeJob(0, 1), m, Reply(1, Usable), Held(LoopHead, 0, false, {}));
  }

  /** The held run persists once more: the write is answered and the attempt goes on at `pc`. */
  lemma DemoPersist(n: nat, next: Next, pc: Pc)
    requires n <= 1
    requires pc == if n == 0 then Guard(false) else LoopHead
    requires next == if n == 0 then ToModel else ToBudget
    ensures Reaches(DEMO_CONFIG, Held(Issuing(Persist(DEMO_RUN, [], n, n == 1), next), n, false, {}), Held(pc, n + 1, false, {}))
  {
    var s := Held(Issuing(Persist(DEMO_RUN, [], n, n == 1), next), n, false, {});
    var t := Apply(DEMO_CONFIG, s, Reply(1, Usable));
    assert t.log == Held(pc, n + 1, false, {}).log;
    assert t.attempts == Held(pc, n + 1, false, {}).attempts;
    ReachesOne(DEMO_CONFIG, s, Reply(1, Usable), t);
  }

  lemma DemoCheckpoint()
    ensures Reaches(DEMO_CONFIG, Held(LoopHead, 0, false, {}), Held(Guard(false), 1, false, {}))
  {
    var l := Held(Projecting(GPersist(false), ToModel), 0, false, {});
    var m := Held(Issuing(Persist(DEMO_RUN, [], 0, false), ToModel), 0, false, {});
    DemoTwo(Held(LoopHead, 0, false, {}), AtLoop(1, CallModel(DEMO_RUN)), l, ReadMark(1), m);
    DemoPersist(0, ToModel, Guard(false));
    ReachesOn(DEMO_CONFIG, Held(LoopHead, 0, false, {}), m, Held(Guard(false), 1, false, {}));
  }

  lemma DemoAdvance()
    ensures Reaches(DEMO_CONFIG, Held(Guard(false), 1, false, {}), Held(LoopHead, 2, false, {}))
  {
    var l := Held(Projecting(GPersist(true), ToBudget), 1, false, {});
    var m := Held(Issuing(Persist(DEMO_RUN, [], 1, true), ToBudget), 1, false, {});
    DemoTwo(Held(Guard(false), 1, false, {}), AtGuard(1, ModelReplied(DEMO_RUN)), l, ReadMark(1), m);
    DemoPersist(1, ToBudget, LoopHead);
    ReachesOn(DEMO_CONFIG, Held(Guard(false), 1, false, {}), m, Held(LoopHead, 2, false, {}));
  }

  const DEMO_FINISH := Finish(Failed, Some(TurnBudget), None, DEMO_RUN, [], 2, true, true)

  lemma DemoFailDirectly()
    ensures Reaches(DEMO_CONFIG, Held(LoopHead, 2, false, {}), Held(Issuing(Release(false), ToLoop), 2, true, {DEMO_FINISH}))
  {
    var l := Held(Projecting(GFinish(Failed, Some(TurnBudget), None, true), ToLoop), 2, false, {});
    var n := Held(Issuing(DEMO_FINISH, ToLoop), 2, false, {});
    var t := Held(Issuing(Release(false), ToLoop), 2, true, {DEMO_FINISH});
    DemoTwo(Held(LoopHead, 2, false, {}), AtLoop(1, StepFails(DEMO_RUN, TurnBudget)), l, ReadMark(1), n);
    assert {} + {DEMO_FINISH} == {DEMO_FINISH};
    ReachesOne(DEMO_CONFIG, n, TimeOut(1), t);
    ReachesOn(DEMO_CONFIG, Held(LoopHead, 2, false, {}), n, t);
  }

  /** The release is answered and the attempt decides on `Err`. */
  function Giving(): Sys {
    var r := Held(DecidedErr, 2, true, {DEMO_FINISH});
    r.(db := r.db.(row := Unlocked(r.db.row)))
  }

  lemma DemoRelease()
    ensures Reaches(DEMO_CONFIG, Held(Issuing(Release(false), ToLoop), 2, true, {DEMO_FINISH}), Giving())
  {
    ReachesOne(DEMO_CONFIG, Held(Issuing(Release(false), ToLoop), 2, true, {DEMO_FINISH}), Reply(1, Usable), Giving());
  }

  /** An attempt that made progress can be charged without ever trying to requeue: `next_step` fails and
      the terminal write times out. */
  lemma ChargedInSpiteOfProgress() returns (t: Sys)
    ensures Reaches(DEMO_CONFIG, InitialSys(DEMO_RUN, 0), t)
    ensures Inv(t) && Enabled(DEMO_CONFIG, t, FailJob(1)) && t.attempts[1].progress && !t.attempts[1].refused
    ensures 0 in t.db.jobs && t.attempts[1].job == 0 && t.db.jobs[0].errorCount == 0
    ensures Apply(DEMO_CONFIG, t, FailJob(1)).db.jobs[0].errorCount == 1
  {
    t := Giving();
    DemoPath(t);
    FromStart(DEMO_RUN, t);
  }

  lemma DemoPath(t: Sys)
    requires t == Giving()
    ensures Reaches(DEMO_CONFIG, InitialSys(DEMO_RUN, 0), t)
  {
    var s := InitialSys(DEMO_RUN, 0);
    var r := Held(Issuing(Release(false), ToLoop), 2, true, {DEMO_FINISH});
    DemoStart();
    DemoCheckpoint();
    ReachesOn(DEMO_CONFIG, s, Held(LoopHead, 0, false, {}), Held(Guard(false), 1, false, {}));
    DemoAdvance();
    ReachesOn(DEMO_CONFIG, s, Held(Guard(false), 1, false, {}), Held(LoopHead, 2, false, {}));
    DemoFailDirectly();
    ReachesOn(DEMO_CONFIG, s, Held(LoopHead, 2, false, {}), r);
    DemoRelease();
    ReachesOn(DEMO_CONFIG, s, r, t);
  }
}
