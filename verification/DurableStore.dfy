/** The database as the engine changes it: `agent_runs`, `agent_messages` and the job rows,
    updated in place by the statements of `db.rs` and the transactions of `mod.rs`. */
module DurableStore {
  import opened Wrappers
  import opened DurableTypes
  import opened DurableSql

  /** The transcript rows not yet written for `run`, numbered from the mark `written`. */
  method ProjectRowsLoop(written: nat, run: AgentRun) returns (rows: seq<TranscriptRow>)
    ensures rows == ProjectRows(written, run)
  {
    rows := [];
    var i := written;
    while i < |run.messages|
      invariant written <= i && |rows| == i - written
      invariant i <= |run.messages| || rows == []
      invariant forall k :: 0 <= k < |rows| ==> rows[k] == RowFor(written + k, run.messages[written + k])
    {
      rows := rows + [TranscriptRow(written + |rows|, MessageRole(run.messages[i]), run.messages[i])];
      i := i + 1;
    }
  }

  /** The index of the recorded ask among the open calls, scanning in call order. */
  method FindRecordedCall(open: seq<ToolCall>, id: string) returns (k: Option<nat>)
    ensures k == FindCall(open, id)
  {
    var i := 0;
    while i < |open|
      invariant 0 <= i <= |open|
      invariant FindCall(open, id) ==
                match FindCall(open[i..], id) case None => None case Some(j) => Some(i + j)
    {
      assert open[i..][0] == open[i];
      assert open[i..][1..] == open[i + 1..];
      if open[i].Execute? && open[i].id == id {
        return Some(i);
      }
      i := i + 1;
    }
    k := None;
  }

  /** Resolve exactly the recorded ask of a suspended run with the (NUL-free) answer; `None` is corruption. */
  method ResolveAsk(row: Row, text: string) returns (run: Option<AgentRun>)
    requires row.status.Waiting?
    ensures run.Some? <==> AnswerTarget(row).Some?
    ensures run.Some? ==> run.value == AnsweredRun(row, text) && AnswersTheAsk(row, text, run.value)
  {
    if row.pendingCall.None? {
      return None;
    }
    var k := FindRecordedCall(row.run.open, row.pendingCall.value);
    FindCallBounds(row.run.open, row.pendingCall.value);
    if k.None? || row.run.open[k.value].name != ASK {
      return None;
    }
    run := Some(CloseCall(row.run, k.value, ReplaceNuls(text)));
    AnsweredRunAnswers(row, text);
  }

  class Store {
    var runs: map<RunId, Row>
    var messages: map<RunId, seq<TranscriptRow>>
    var jobs: map<RunId, map<JobId, Job>>
    var nextJob: map<RunId, JobId>
    var now: Time
    const takeover: nat

    ghost predicate Valid()
      reads this
    {
      runs.Keys == messages.Keys == jobs.Keys == nextJob.Keys
    }

    /** Everything stored about run `id`. */
    ghost function Slice(id: RunId): RunDb
      reads this
      requires Valid() && id in runs
    {
      RunDb(runs[id], messages[id], jobs[id], nextJob[id], now)
    }

    /** Only run `id` may have changed. */
    twostate predicate OnlyTouches(id: RunId)
      reads this
      requires old(Valid()) && Valid()
    {
      && now == old(now)
      && runs.Keys == old(runs.Keys)
      && (forall other :: other in runs && other != id ==> runs[other] == old(runs[other]))
      && (forall other :: other in runs && other != id ==> messages[other] == old(messages[other]))
      && (forall other :: other in runs && other != id ==> jobs[other] == old(jobs[other]))
      && (forall other :: other in runs && other != id ==> nextJob[other] == old(nextJob[other]))
    }

    constructor (takeover: nat, now: Time)
      ensures Valid() && runs == map[] && this.now == now && this.takeover == takeover
    {
      runs, messages, jobs, nextJob := map[], map[], map[], map[];
      this.now := now;
      this.takeover := takeover;
    }

    method TryClaim(id: RunId, me: Token) returns (row: Option<Row>)
      requires Valid()
      modifies this
      ensures Valid() && OnlyTouches(id)
      ensures row.Some? <==> id in old(runs) && Claimable(old(runs[id]), takeover, now)
      ensures row.Some? ==> Slice(id) == old(Slice(id)).(row := ClaimedRow(old(runs[id]), me, now)) && row.value == runs[id]
      ensures row.None? && id in runs ==> Slice(id) == old(Slice(id))
      ensures row.Some? <==>
                id in old(runs) && var r := old(runs[id]);
                r.status.Queued? || (r.status.Running? &&
                  (r.lockedBy.None? || (r.lockedAt.Some? && r.lockedAt.value + takeover < now)))
      ensures row.Some? ==>
                runs[id] == old(runs[id]).(status := Running, lockedBy := Some(me), lockedAt := Some(now),
                                           startedAt := if old(runs[id]).startedAt.Some? then old(runs[id]).startedAt
                                                        else Some(now))
    {
      if id in runs && (runs[id].status.Queued?
         || (runs[id].status.Running?
             && (runs[id].lockedBy.None?
                 || (runs[id].lockedAt.Some? && runs[id].lockedAt.value + takeover < now)))) {
        var started := if runs[id].startedAt.Some? then runs[id].startedAt else Some(now);
        runs := runs[id := runs[id].(status := Running, lockedBy := Some(me), lockedAt := Some(now),
                                     startedAt := started)];
        row := Some(runs[id]);
      } else {
        row := None;
      }
    }

    method ReleaseLease(id: RunId, me: Token) returns (released: bool)
      requires Valid()
      modifies this
      ensures Valid() && OnlyTouches(id)
      ensures released <==> id in old(runs) && Owned(old(runs[id]), me)
      ensures id in runs ==>
                Slice(id) == if released then old(Slice(id)).(row := Unlocked(old(runs[id]))) else old(Slice(id))
      ensures released ==> runs[id] == old(runs[id]).(lockedBy := None, lockedAt := None)
    {
      released := id in runs && runs[id].lockedBy == Some(me) && runs[id].status == Running;
      if released {
        runs := runs[id := runs[id].(lockedBy := None, lockedAt := None)];
      }
    }

    method Heartbeat(id: RunId, me: Token) returns (beat: Option<bool>)
      requires Valid()
      modifies this
      ensures Valid() && OnlyTouches(id)
      ensures beat.Some? <==> id in old(runs) && Owned(old(runs[id]), me)
      ensures beat.Some? ==> beat.value == old(runs[id]).cancelRequested
      ensures id in runs ==>
                Slice(id) == if beat.Some? then old(Slice(id)).(row := old(runs[id]).(lockedAt := Some(now)))
                             else old(Slice(id))
    {
      if id in runs && runs[id].lockedBy == Some(me) && runs[id].status == Running {
        runs := runs[id := runs[id].(lockedAt := Some(now))];
        beat := Some(runs[id].cancelRequested);
      } else {
        beat := None;
      }
    }

    /** Insert rows one by one; a taken `(run, seq)` is left as it is. */
    method InsertMessages(id: RunId, rows: seq<TranscriptRow>)
      requires Valid() && id in runs
      modifies this`messages
      ensures Valid() && OnlyTouches(id)
      ensures messages[id] == InsertRows(old(messages[id]), rows)
    {
      var i := 0;
      while i < |rows|
        invariant 0 <= i <= |rows|
        invariant messages.Keys == old(messages.Keys)
        invariant forall other :: other in messages && other != id ==> messages[other] == old(messages[other])
        invariant messages[id] == InsertRows(old(messages[id]), rows[..i])
      {
        var taken := false;
        var j := 0;
        while j < |messages[id]|
          invariant 0 <= j <= |messages[id]|
          invariant taken <==> exists k :: 0 <= k < j && messages[id][k].seqNo == rows[i].seqNo
        {
          taken := taken || messages[id][j].seqNo == rows[i].seqNo;
          j := j + 1;
        }
        assert rows[..i + 1][..i] == rows[..i];
        if !taken {
          messages := messages[id := messages[id] + [rows[i]]];
        }
        i := i + 1;
      }
      assert rows[..|rows|] == rows;
    }

    method NextMessageSeq(id: RunId) returns (mark: nat)
      requires Valid() && id in runs
      ensures mark == NextSeq(messages[id])
    {
      mark := 0;
      var i := 0;
      while i < |messages[id]|
        invariant 0 <= i <= |messages[id]|
        invariant mark == NextSeq(messages[id][..i])
      {
        assert messages[id][..i + 1][..i] == messages[id][..i];
        if messages[id][i].seqNo + 1 > mark {
          mark := messages[id][i].seqNo + 1;
        }
        i := i + 1;
      }
      assert messages[id][..|messages[id]|] == messages[id];
    }

    /** One transaction: the owned row update, then the new transcript rows. */
    method PersistStep(id: RunId, me: Token, run: AgentRun, rows: seq<TranscriptRow>) returns (r: Option<bool>)
      requires Valid()
      modifies this
      ensures Valid() && OnlyTouches(id)
      ensures r.Some? <==> id in old(runs) && Owned(old(runs[id]), me)
      ensures r.Some? ==> r.value == old(runs[id]).cancelRequested
      ensures id in runs ==>
                Slice(id) == if r.Some?
                  then old(Slice(id)).(row := PersistedRow(old(runs[id]), run, now),
                                       transcript := InsertRows(old(messages[id]), rows))
                  else old(Slice(id))
      ensures r.Some? ==> runs[id] == old(runs[id]).(run := run, lockedAt := Some(now))
    {
      if !(id in runs && runs[id].lockedBy == Some(me) && runs[id].status == Running) {
        return None;
      }
      runs := runs[id := runs[id].(run := run, lockedAt := Some(now))];
      r := Some(runs[id].cancelRequested);
      InsertMessages(id, rows);
    }

    /** Park the run behind a question, unless a cancel was requested: one decision under the row lock. */
    method SetWaiting(id: RunId, me: Token, run: AgentRun, call: string, question: string,
                      rows: seq<TranscriptRow>) returns (r: Option<bool>)
      requires Valid()
      modifies this
      ensures Valid() && OnlyTouches(id)
      ensures r.Some? <==> id in old(runs) && Owned(old(runs[id]), me)
      ensures r.Some? ==> r.value == old(runs[id]).cancelRequested
      ensures id in runs ==>
                Slice(id) == if r.Some?
                  then old(Slice(id)).(row := SuspendedRow(old(runs[id]), run, call, question, now),
                                       transcript := InsertRows(old(messages[id]), rows))
                  else old(Slice(id))
      ensures r == Some(false) ==>
                runs[id] == old(runs[id]).(status := Waiting, run := run, pendingCall := Some(call),
                                           pendingQuestion := Some(question), lockedBy := None, lockedAt := None)
      ensures r == Some(true) ==>
                runs[id] == old(runs[id]).(status := Cancelled, run := run, pendingCall := None, pendingQuestion := None,
                                           lockedBy := None, lockedAt := None, finishedAt := Some(now))
    {
      if !(id in runs && runs[id].lockedBy == Some(me) && runs[id].status == Running) {
        return None;
      }
      var cancelled := runs[id].cancelRequested;
      runs := runs[id := runs[id].(
        status := if cancelled then Cancelled else Waiting,
        run := run,
        pendingCall := if cancelled then None else Some(call),
        pendingQuestion := if cancelled then None else Some(question),
        lockedBy := None, lockedAt := None,
        finishedAt := if cancelled then Some(now) else runs[id].finishedAt)];
      InsertMessages(id, rows);
      r := Some(cancelled);
    }

    method Finish(id: RunId, me: Token, status: Status, reason: Option<FailReason>, output: Option<string>,
                  run: AgentRun, rows: seq<TranscriptRow>) returns (wrote: bool)
      requires Valid()
      modifies this
      ensures Valid() && OnlyTouches(id)
      ensures wrote <==> id in old(runs) && Owned(old(runs[id]), me)
      ensures id in runs ==>
                Slice(id) == if wrote
                  then old(Slice(id)).(row := FinishedRow(old(runs[id]), status, reason, output, run, now),
                                       transcript := InsertRows(old(messages[id]), rows))
                  else old(Slice(id))
      ensures wrote ==> runs[id] == old(runs[id]).(status := status, failReason := reason, output := output, run := run,
                                                   lockedBy := None, lockedAt := None, finishedAt := Some(now))
    {
      wrote := id in runs && runs[id].lockedBy == Some(me) && runs[id].status == Running;
      if wrote {
        runs := runs[id := runs[id].(status := status, failReason := reason, output := output, run := run,
                                     lockedBy := None, lockedAt := None, finishedAt := Some(now))];
        InsertMessages(id, rows);
      }
    }

    method FailUnstorable(id: RunId, me: Token) returns (wrote: bool)
      requires Valid()
      modifies this
      ensures Valid() && OnlyTouches(id)
      ensures wrote <==> id in old(runs) && Owned(old(runs[id]), me)
      ensures id in runs ==>
                Slice(id) == if wrote then old(Slice(id)).(row := UnstorableRow(old(runs[id]), now)) else old(Slice(id))
      ensures wrote ==>
                runs[id] == old(runs[id]).(status := Failed, failReason := Some(UnstorableContent),
                                           lockedBy := None, lockedAt := None, finishedAt := Some(now))
    {
      wrote := id in runs && runs[id].lockedBy == Some(me) && runs[id].status == Running;
      if wrote {
        runs := runs[id := runs[id].(status := Failed, failReason := Some(UnstorableContent),
                                     lockedBy := None, lockedAt := None, finishedAt := Some(now))];
      }
    }

    method EnqueueOn(id: RunId)
      requires Valid() && id in runs
      modifies this
      ensures Valid() && OnlyTouches(id)
      ensures Slice(id) == WithJob(old(Slice(id)))
      ensures runs == old(runs) && messages == old(messages)
      ensures jobs[id] == old(jobs[id])[old(nextJob[id]) := Job(None, 0, 0)] && nextJob[id] == old(nextJob[id]) + 1
    {
      jobs := jobs[id := jobs[id][nextJob[id] := Job(None, 0, 0)]];
      nextJob := nextJob[id := nextJob[id] + 1];
    }

    /** Release the lease and enqueue a fresh job row in one transaction. */
    method RequeueWithFreshJob(id: RunId, me: Token)
      requires Valid() && id in runs
      modifies this
      ensures Valid() && OnlyTouches(id)
      ensures Slice(id) == WithJob(if Owned(old(runs[id]), me) then old(Slice(id)).(row := Unlocked(old(runs[id])))
                                   else old(Slice(id)))
    {
      var _ := ReleaseLease(id, me);
      EnqueueOn(id);
    }

    method Start(id: RunId, run: AgentRun)
      requires Valid() && id !in runs
      modifies this
      ensures Valid() && now == old(now)
      ensures runs == old(runs)[id := FreshRow(run)]
      ensures messages == old(messages)[id := []]
      ensures jobs == old(jobs)[id := map[0 := Job(None, 0, 0)]]
      ensures nextJob == old(nextJob)[id := 1]
      ensures Slice(id) == StartedDb(run, now)
    {
      runs := runs[id := Row(Queued, run, None, None, false, None, None, None, None, None, None)];
      messages := messages[id := []];
      jobs := jobs[id := map[0 := Job(None, 0, 0)]];
      nextJob := nextJob[id := 1];
    }

    method CancelRun(id: RunId) returns (r: Option<CancelOutcome>)
      requires Valid()
      modifies this
      ensures Valid() && OnlyTouches(id)
      ensures r.None? <==> id !in old(runs)
      ensures r.Some? ==> r.value == CancelAction(old(runs[id]), takeover, now)
      ensures r.Some? ==> Slice(id) == old(Slice(id)).(row := CancelledRow(old(runs[id]), takeover, now))
      ensures r.Some? ==>
                var row := old(runs[id]);
                var live := row.status.Running? && row.lockedBy.Some? && row.lockedAt.Some? && now <= row.lockedAt.value + takeover;
                runs[id] ==
                  if row.status.Terminal() then row
                  else if live then row.(cancelRequested := true)
                  else row.(status := Cancelled, pendingCall := None, pendingQuestion := None, lockedBy := None,
                            lockedAt := None, finishedAt := Some(now))
    {
      if id !in runs {
        return None;
      }
      var row := runs[id];
      if row.status.Queued? || row.status.Waiting? {
        r := Some(CancelledNow);
      } else if row.status.Running? {
        if row.lockedBy.None? || row.lockedAt.None? || row.lockedAt.value + takeover < now {
          r := Some(CancelledNow);
        } else {
          r := Some(Requested);
        }
      } else if row.status.Cancelled? {
        r := Some(AlreadyCancelled);
      } else {
        r := Some(TerminalStatus(row.status));
      }
      var direct := r.value.CancelledNow?;
      runs := runs[id := row.(
        status := if direct then Cancelled else row.status,
        pendingCall := if direct then None else row.pendingCall,
        pendingQuestion := if direct then None else row.pendingQuestion,
        lockedBy := if direct then None else row.lockedBy,
        lockedAt := if direct then None else row.lockedAt,
        cancelRequested := if r.value.Requested? then true else row.cancelRequested,
        finishedAt := if direct then Some(now) else row.finishedAt)];
    }

    /** Supply the answer as the recorded ask call's result; every refusal leaves the store as it was. */
    method Answer(id: RunId, text: string) returns (r: AnswerOutcome)
      requires Valid()
      modifies this
      ensures Valid() && OnlyTouches(id)
      ensures r == if id !in old(runs) then NotFound else AnswerResult(old(runs[id]))
      ensures id in runs ==> Slice(id) == if r.Answered? then AnsweredDb(old(Slice(id)), text) else old(Slice(id))
      ensures r.Answered? ==> AnswersTheAsk(old(runs[id]), text, runs[id].run) && runs[id].status.Running?
    {
      if id !in runs {
        return NotFound;
      }
      var row := runs[id];
      if row.status != Waiting {
        return NotWaiting(row.status);
      }
      var answered := ResolveAsk(row, text);
      if answered.None? {
        return Corrupt;
      }
      var run := answered.value;
      var mark := NextMessageSeq(id);
      var rows := ProjectRowsLoop(mark, run);
      AnswerWaiting(id, run);
      InsertMessages(id, rows);
      EnqueueOn(id);
      r := Answered;
    }

    /** `waiting -> running` with the answered run state, pending columns and lease cleared. */
    method AnswerWaiting(id: RunId, run: AgentRun)
      requires Valid() && id in runs && runs[id].status.Waiting?
      modifies this`runs
      ensures Valid() && OnlyTouches(id)
      ensures runs[id] == Unlocked(old(runs[id])).(status := Running, run := run, pendingCall := None, pendingQuestion := None)
    {
      runs := runs[id := runs[id].(status := Running, run := run, pendingCall := None, pendingQuestion := None,
                                   lockedBy := None, lockedAt := None)];
    }
  }
}
