/** What each SQL statement or transaction of the engine does to one run, as a function of
    the state it finds. The `Store` class is proved to do exactly this; the protocol
    interleaves these functions. */
module DurableSql {
  import opened Wrappers
  import opened DurableTypes

  // ---------- transcript ----------

  function RowFor(i: nat, m: Message): TranscriptRow {
    TranscriptRow(i, MessageRole(m), m)
  }

  /** `COALESCE(MAX(seq) + 1, 0)`. */
  function NextSeq(t: seq<TranscriptRow>): nat {
    if t == [] then 0
    else
      var rest := NextSeq(t[..|t| - 1]);
      var last := t[|t| - 1].seqNo + 1;
      if last > rest then last else rest
  }

  predicate HasSeq(t: seq<TranscriptRow>, s: nat) {
    exists i :: 0 <= i < |t| && t[i].seqNo == s
  }

  /** `INSERT ... ON CONFLICT (run_id, seq) DO NOTHING`. */
  function InsertRow(t: seq<TranscriptRow>, r: TranscriptRow): seq<TranscriptRow> {
    if HasSeq(t, r.seqNo) then t else t + [r]
  }

  function InsertRows(t: seq<TranscriptRow>, rows: seq<TranscriptRow>): seq<TranscriptRow> {
    if rows == [] then t
    else InsertRow(InsertRows(t, rows[..|rows| - 1]), rows[|rows| - 1])
  }

  /** Everything from the stored high-water mark on, numbered from it. */
  function ProjectRows(written: nat, run: AgentRun): seq<TranscriptRow> {
    if written >= |run.messages| then []
    else seq(|run.messages| - written,
             i requires 0 <= i < |run.messages| - written => RowFor(written + i, run.messages[written + i]))
  }

  // ---------- the run row ----------

  predicate LeaseExpired(row: Row, takeover: nat, now: Time) {
    row.lockedAt.Some? && row.lockedAt.value + takeover < now
  }

  predicate Claimable(row: Row, takeover: nat, now: Time) {
    || row.status.Queued?
    || (row.status.Running? && (row.lockedBy.None? || LeaseExpired(row, takeover, now)))
  }

  function ClaimedRow(row: Row, me: Token, now: Time): Row {
    row.(status := Running, lockedBy := Some(me), lockedAt := Some(now),
         startedAt := if row.startedAt.None? then Some(now) else row.startedAt)
  }

  /** The condition of every lease-holding write: `locked_by = me AND status = 'running'`. */
  predicate Owned(row: Row, me: Token) {
    row.status.Running? && row.lockedBy == Some(me)
  }

  function Unlocked(row: Row): Row {
    row.(lockedBy := None, lockedAt := None)
  }

  function PersistedRow(row: Row, run: AgentRun, now: Time): Row {
    row.(run := run, lockedAt := Some(now))
  }

  function SuspendedRow(row: Row, run: AgentRun, call: string, question: string, now: Time): Row {
    if row.cancelRequested then
      Unlocked(row).(status := Cancelled, run := run, pendingCall := None, pendingQuestion := None,
                     finishedAt := Some(now))
    else
      Unlocked(row).(status := Waiting, run := run, pendingCall := Some(call), pendingQuestion := Some(question))
  }

  function FinishedRow(row: Row, status: Status, reason: Option<FailReason>, output: Option<string>,
                       run: AgentRun, now: Time): Row {
    Unlocked(row).(status := status, failReason := reason, output := output, run := run, finishedAt := Some(now))
  }

  function UnstorableRow(row: Row, now: Time): Row {
    Unlocked(row).(status := Failed, failReason := Some(UnstorableContent), finishedAt := Some(now))
  }

  function WithJob(db: RunDb): RunDb {
    db.(jobs := db.jobs[db.nextJob := Job(None, 0, 0)], nextJob := db.nextJob + 1)
  }

  function FreshRow(run: AgentRun): Row {
    Row(Queued, run, None, None, false, None, None, None, None, None, None)
  }

  /** `start`: the queued row and its first job row, in one transaction. */
  function StartedDb(run: AgentRun, now: Time): RunDb {
    RunDb(FreshRow(run), [], map[0 := Job(None, 0, 0)], 1, now)
  }

  // ---------- cancel ----------

  datatype CancelOutcome = CancelledNow | Requested | AlreadyCancelled | TerminalStatus(status: Status)

  function CancelAction(row: Row, takeover: nat, now: Time): CancelOutcome {
    if row.status.Queued? || row.status.Waiting? then CancelledNow
    else if row.status.Running? && (row.lockedBy.None? || row.lockedAt.None? || LeaseExpired(row, takeover, now))
      then CancelledNow
    else if row.status.Running? then Requested
    else if row.status.Cancelled? then AlreadyCancelled
    else TerminalStatus(row.status)
  }

  function CancelledRow(row: Row, takeover: nat, now: Time): Row {
    match CancelAction(row, takeover, now)
    case CancelledNow =>
      Unlocked(row).(status := Cancelled, pendingCall := None, pendingQuestion := None, finishedAt := Some(now))
    case Requested => row.(cancelRequested := true)
    case AlreadyCancelled => row
    case TerminalStatus(_) => row
  }

  // ---------- answer ----------

  datatype AnswerOutcome = Answered | NotFound | NotWaiting(status: Status) | Corrupt

  /** NULs become U+FFFD before text enters the run. */
  function ReplaceNuls(text: string): string {
    seq(|text|, i requires 0 <= i < |text| => if text[i] == '\0' then '\U{FFFD}' else text[i])
  }

  /** `stored` is `text`, character by character, but for its NULs. */
  predicate Sanitized(stored: string, text: string) {
    && |stored| == |text|
    && forall i :: 0 <= i < |text| ==> stored[i] == if text[i] == '\0' then '\U{FFFD}' else text[i]
  }

  lemma ReplacesNuls(text: string)
    ensures Sanitized(ReplaceNuls(text), text)
    ensures '\0' !in ReplaceNuls(text)
    ensures '\0' !in text ==> ReplaceNuls(text) == text
  {
    forall i | 0 <= i < |text|
      ensures ReplaceNuls(text)[i] == if text[i] == '\0' then '\U{FFFD}' else text[i]
    {
    }
  }

  /** Open call `k` of `before` was answered with `stored`: the call is closed, and the result waits with the others of
      its batch or, when it was the last, all of them became the next message. */
  predicate Closes(before: AgentRun, k: nat, stored: string, after: AgentRun) {
    && k < |before.open|
    && after.open == before.open[..k] + before.open[k + 1..] && after.tokens == before.tokens
    && var results := before.results + [ToolResult(before.open[k].id, stored)];
       if |before.open| > 1 then after.messages == before.messages && after.results == results
       else after.messages == before.messages + [User("", results)] && after.results == []
  }

  lemma CloseCallCloses(run: AgentRun, k: nat, text: string)
    requires k < |run.open|
    ensures Closes(run, k, text, CloseCall(run, k, text))
  {
    assert |run.open[..k] + run.open[k + 1..]| == |run.open| - 1;
  }

  /** The first `Execute` call that carries `id`, as an index into `open`. */
  function FindCall(open: seq<ToolCall>, id: string): Option<nat> {
    if open == [] then None
    else if open[0].Execute? && open[0].id == id then Some(0)
    else
      match FindCall(open[1..], id)
      case None => None
      case Some(k) => Some(k + 1)
  }

  lemma FindCallBounds(open: seq<ToolCall>, id: string)
    ensures FindCall(open, id).Some? ==>
              FindCall(open, id).value < |open| && open[FindCall(open, id).value].Execute?
              && open[FindCall(open, id).value].id == id
    ensures FindCall(open, id).None? ==> forall i :: 0 <= i < |open| ==> !(open[i].Execute? && open[i].id == id)
  {
    if open != [] && !(open[0].Execute? && open[0].id == id) {
      FindCallBounds(open[1..], id);
      forall i | 0 < i < |open| && open[i].Execute? && open[i].id == id
        ensures FindCall(open, id).Some?
      {
        assert open[i] == open[1..][i - 1];
      }
    }
  }

  lemma FindCallIsFirst(open: seq<ToolCall>, id: string)
    ensures FindCall(open, id).Some? ==>
              var k := FindCall(open, id).value;
              && k < |open| && open[k].Execute? && open[k].id == id
              && forall i :: 0 <= i < k ==> !(open[i].Execute? && open[i].id == id)
  {
    if open != [] && !(open[0].Execute? && open[0].id == id) {
      FindCallIsFirst(open[1..], id);
      assert forall i :: 0 < i < |open| ==> open[i] == open[1..][i - 1];
    }
  }

  /** Which open call `answer` resolves, or why it refuses. */
  function AnswerTarget(row: Row): Option<nat> {
    if row.status.Waiting? && row.pendingCall.Some? then
      match FindCall(row.run.open, row.pendingCall.value)
      case None => None
      case Some(k) => if k < |row.run.open| && IsAsk(row.run.open[k]) then Some(k) else None
    else None
  }

  function AnswerResult(row: Row): AnswerOutcome {
    if !row.status.Waiting? then NotWaiting(row.status)
    else if AnswerTarget(row).None? then Corrupt
    else Answered
  }

  function AnsweredRun(row: Row, text: string): AgentRun
    requires AnswerTarget(row).Some?
  {
    CloseCall(row.run, AnswerTarget(row).value, ReplaceNuls(text))
  }

  /** The answer `text` closed the first executable open call with the recorded id, which is an `ask`, and stored the
      text but for its NULs. */
  ghost predicate AnswersTheAsk(before: Row, text: string, after: AgentRun) {
    exists k: nat, stored ::
      && Closes(before.run, k, stored, after) && Sanitized(stored, text)
      && IsAsk(before.run.open[k]) && Some(before.run.open[k].id) == before.pendingCall
      && forall i :: 0 <= i < k ==> !(before.run.open[i].Execute? && Some(before.run.open[i].id) == before.pendingCall)
  }

  lemma AnsweredRunAnswers(row: Row, text: string)
    requires AnswerTarget(row).Some?
    ensures AnswersTheAsk(row, text, AnsweredRun(row, text))
  {
    var k := AnswerTarget(row).value;
    FindCallIsFirst(row.run.open, row.pendingCall.value);
    ReplacesNuls(text);
    CloseCallCloses(row.run, k, ReplaceNuls(text));
  }

  function AnsweredDb(db: RunDb, text: string): RunDb {
    if AnswerTarget(db.row).None? then db
    else
      var run := AnsweredRun(db.row, text);
      WithJob(db.(
        row := Unlocked(db.row).(status := Running, run := run, pendingCall := None, pendingQuestion := None),
        transcript := InsertRows(db.transcript, ProjectRows(NextSeq(db.transcript), run))))
  }

  // ---------- transcript lemmas ----------

  /** The stored rows are seqs 0..n-1 in order and row i is message i. */
  predicate Agrees(t: seq<TranscriptRow>, run: AgentRun) {
    && |t| <= |run.messages|
    && forall i :: 0 <= i < |t| ==> t[i] == RowFor(i, run.messages[i])
  }

  predicate FullTranscript(t: seq<TranscriptRow>, run: AgentRun) {
    Agrees(t, run) && |t| == |run.messages|
  }

  predicate Contiguous(t: seq<TranscriptRow>) {
    forall i :: 0 <= i < |t| ==> t[i].seqNo == i
  }

  lemma {:induction false} NextSeqIsLength(t: seq<TranscriptRow>)
    requires Contiguous(t)
    ensures NextSeq(t) == |t|
  {
    if t != [] {
      NextSeqIsLength(t[..|t| - 1]);
    }
  }

  lemma AgreesGrows(t: seq<TranscriptRow>, before: AgentRun, after: AgentRun)
    requires Agrees(t, before) && Grows(before, after)
    ensures Agrees(t, after)
  {
  }

  /** Projecting from the stored mark appends exactly the missing rows: nothing that is
      stored changes and nothing is dropped by a seq conflict. */
  lemma ProjectionCompletes(t: seq<TranscriptRow>, run: AgentRun)
    requires Agrees(t, run)
    ensures FullTranscript(InsertRows(t, ProjectRows(NextSeq(t), run)), run)
    ensures t <= InsertRows(t, ProjectRows(NextSeq(t), run))
  {
    NextSeqIsLength(t);
    ProjectionPrefix(t, run, |ProjectRows(|t|, run)|);
    var rows := ProjectRows(|t|, run);
    assert rows[..|rows|] == rows;
  }

  lemma {:induction false} ProjectionPrefix(t: seq<TranscriptRow>, run: AgentRun, n: nat)
    requires Agrees(t, run)
    requires n <= |ProjectRows(|t|, run)|
    ensures var u := InsertRows(t, ProjectRows(|t|, run)[..n]);
            Agrees(u, run) && |u| == |t| + n && t <= u
    decreases n
  {
    var rows := ProjectRows(|t|, run);
    if n > 0 {
      ProjectionPrefix(t, run, n - 1);
      assert rows[..n][..n - 1] == rows[..n - 1];
      var u := InsertRows(t, rows[..n - 1]);
      assert rows[n - 1] == RowFor(|t| + n - 1, run.messages[|t| + n - 1]);
      assert !HasSeq(u, |t| + n - 1);
    }
  }
}
