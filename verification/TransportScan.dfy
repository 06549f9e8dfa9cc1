/** The streamed reply: a usage scanner fed in chunks, the completion event, and capped error bodies. */
module TransportScan {
  import opened Wrappers

  type Byte = b: int | 0 <= b < 256
  type Bytes = seq<Byte>

  const NEWLINE: Byte := 10
  const CAP := 65536

  datatype Usage = Usage(input: nat, output: nat)

  /** Text and JSON decoding of one line: the line as trimmed text, and the usage a payload reports. */
  datatype Decoder = Decoder(text: Bytes -> string, usage: string -> Option<Usage>)

  datatype Seen = Seen(last: Option<Usage>, done: bool)

  const DATA := "data: "
  const DONE := "[DONE]"

  /** What one complete line, newline included, adds. */
  function ReadLine(d: Decoder, seen: Seen, line: Bytes): Seen {
    var text := d.text(line);
    if !(DATA <= text) then seen
    else
      var payload := text[|DATA|..];
      if payload == DONE then seen.(done := true)
      else if d.usage(payload).Some? then seen.(last := d.usage(payload))
      else seen
  }

  /** The first newline, or the length. */
  function FirstNewline(bytes: Bytes): (i: nat)
    ensures i <= |bytes| && (i < |bytes| ==> bytes[i] == NEWLINE)
    ensures forall k :: 0 <= k < i ==> bytes[k] != NEWLINE
  {
    if bytes == [] || bytes[0] == NEWLINE then 0
    else
      var i := FirstNewline(bytes[1..]);
      assert forall k :: 1 <= k < i + 1 ==> bytes[k] == bytes[1..][k - 1];
      i + 1
  }

  /** Plain reading: every complete line of the bytes, in order. */
  function ReadLines(d: Decoder, seen: Seen, bytes: Bytes): Seen
    decreases |bytes|
  {
    var i := FirstNewline(bytes);
    if i == |bytes| then seen else ReadLines(d, ReadLine(d, seen, bytes[..i + 1]), bytes[i + 1..])
  }

  /** What follows the last newline. */
  function Unfinished(bytes: Bytes): (rest: Bytes)
    ensures |rest| <= |bytes|
    decreases |bytes|
  {
    var i := FirstNewline(bytes);
    if i == |bytes| then bytes else Unfinished(bytes[i + 1..])
  }

  function Capped(bytes: Bytes): (kept: Bytes)
    ensures |kept| <= CAP
  {
    if |bytes| > CAP then [] else bytes
  }

  // ---------- the scanner ----------

  class UsageScanner {
    const decoder: Decoder
    var buf: Bytes
    var last: Option<Usage>
    var done: bool

    constructor (d: Decoder)
      ensures decoder == d && buf == [] && last == None && !done
    {
      decoder, buf, last, done := d, [], None, false;
    }

    /** One complete line: the end marker, a usage, or nothing of interest. */
    method TakeLine(line: Bytes, known: Option<Usage>) returns (usage: Option<Usage>)
      modifies this`done
      ensures Seen(usage, done) == ReadLine(decoder, Seen(known, old(done)), line)
    {
      usage := known;
      var text := decoder.text(line);
      if !(DATA <= text) { return; }
      var payload := text[|DATA|..];
      if payload == DONE {
        done := true;
        return;
      }
      var found := decoder.usage(payload);
      if found.Some? { usage := found; }
    }

    /** `scan`: the complete lines are read, the unfinished one is kept unless it is too long; the result is the last
        usage this call found. */
    method Scan(chunk: Bytes) returns (usage: Option<Usage>)
      modifies this
      ensures Seen(last, done) == ReadLines(decoder, Seen(old(last), old(done)), old(buf) + chunk)
      ensures buf == Capped(Unfinished(old(buf) + chunk)) && |buf| <= CAP
      ensures usage == ReadLines(decoder, Seen(None, old(done)), old(buf) + chunk).last
    {
      buf := buf + chunk;
      hide ReadLines, Unfinished, FirstNewline, Capped, ReadLine;
      usage := None;
      ghost var whole := buf;
      while true
        invariant Unfinished(buf) == Unfinished(whole)
        invariant ReadLines(decoder, Seen(usage, done), buf) == ReadLines(decoder, Seen(None, old(done)), whole)
        invariant last == old(last)
        decreases |buf|
      {
        ReadFirst(decoder, Seen(usage, done), buf);
        var pos := FirstNewline(buf);
        if pos == |buf| { break; }
        var line := buf[..pos + 1];
        buf := buf[pos + 1..];
        usage := TakeLine(line, usage);
      }
      LatestWins(decoder, Seen(old(last), old(done)), whole);
      CapOf(buf);
      if |buf| > CAP { buf := []; }
      if usage.Some? { last := usage; }
    }
  }

  /** A fresh scanner given the chunks of a stream one by one. */
  method ScanStream(d: Decoder, chunks: seq<Bytes>) returns (last: Option<Usage>, done: bool)
    ensures Seen(last, done) == Fed(d, chunks).seen
  {
    hide ReadLines, Unfinished;
    var scanner := new UsageScanner(d);
    FedNone(d);
    for i := 0 to |chunks|
      invariant scanner.decoder == d
      invariant Scanner(scanner.buf, Seen(scanner.last, scanner.done)) == Fed(d, chunks[..i])
    {
      FedSnoc(d, chunks[..i], chunks[i]);
      assert chunks[..i + 1] == chunks[..i] + [chunks[i]];
      var found := scanner.Scan(chunks[i]);
    }
    assert chunks[..|chunks|] == chunks;
    return scanner.last, scanner.done;
  }

  lemma CapOf(bytes: Bytes)
    ensures Capped(bytes) == if |bytes| > CAP then [] else bytes
  {
  }

  lemma ReadFirst(d: Decoder, seen: Seen, bytes: Bytes)
    ensures var i := FirstNewline(bytes);
            if i == |bytes| then ReadLines(d, seen, bytes) == seen && Unfinished(bytes) == bytes
            else
              && ReadLines(d, seen, bytes) == ReadLines(d, ReadLine(d, seen, bytes[..i + 1]), bytes[i + 1..])
              && Unfinished(bytes) == Unfinished(bytes[i + 1..])
  {
    hide ReadLine, FirstNewline;
  }

  /** Reading on from an earlier usage gives the latest usage found, else the earlier one. */
  lemma {:induction false} LatestWins(d: Decoder, seen: Seen, bytes: Bytes)
    ensures var alone := ReadLines(d, Seen(None, seen.done), bytes);
            ReadLines(d, seen, bytes) == Seen(if alone.last.Some? then alone.last else seen.last, alone.done)
    decreases |bytes|
  {
    hide FirstNewline;
    var i := FirstNewline(bytes);
    if i < |bytes| {
      var line, rest := bytes[..i + 1], bytes[i + 1..];
      LatestWins(d, ReadLine(d, seen, line), rest);
      LatestWins(d, ReadLine(d, Seen(None, seen.done), line), rest);
    }
  }

  // ---------- chunking does not matter ----------

  /** The scanner's state after a sequence of calls. */
  datatype Scanner = Scanner(buf: Bytes, seen: Seen)

  function Fed(d: Decoder, chunks: seq<Bytes>): Scanner {
    if chunks == [] then Scanner([], Seen(None, false))
    else
      var before := Fed(d, chunks[..|chunks| - 1]);
      var bytes := before.buf + chunks[|chunks| - 1];
      Scanner(Capped(Unfinished(bytes)), ReadLines(d, before.seen, bytes))
  }

  function Joined(chunks: seq<Bytes>): Bytes {
    if chunks == [] then [] else Joined(chunks[..|chunks| - 1]) + chunks[|chunks| - 1]
  }

  /** No complete line is longer than the cap, its newline not counted. */
  predicate ShortLines(bytes: Bytes)
    decreases |bytes|
  {
    var i := FirstNewline(bytes);
    i == |bytes| || (i <= CAP && ShortLines(bytes[i + 1..]))
  }

  lemma FirstNewlineIs(bytes: Bytes, i: nat)
    requires i <= |bytes| && (forall k :: 0 <= k < i ==> bytes[k] != NEWLINE) && (i < |bytes| ==> bytes[i] == NEWLINE)
    ensures FirstNewline(bytes) == i
  {
  }

  /** Reading two pieces, the second with what the first left over, is reading them joined. */
  lemma {:induction false} ReadConcat(d: Decoder, seen: Seen, a: Bytes, b: Bytes)
    ensures ReadLines(d, seen, a + b) == ReadLines(d, ReadLines(d, seen, a), Unfinished(a) + b)
    ensures Unfinished(a + b) == Unfinished(Unfinished(a) + b)
    decreases |a|
  {
    var i := FirstNewline(a);
    if i < |a| {
      assert forall k :: 0 <= k <= i ==> (a + b)[k] == a[k];
      FirstNewlineIs(a + b, i);
      assert (a + b)[..i + 1] == a[..i + 1] && (a + b)[i + 1..] == a[i + 1..] + b;
      ReadConcat(d, ReadLine(d, seen, a[..i + 1]), a[i + 1..], b);
    }
  }

  lemma {:induction false} ShortPrefix(a: Bytes, b: Bytes)
    requires ShortLines(a + b)
    ensures ShortLines(a) && (|Unfinished(a)| > CAP ==> NEWLINE !in b)
    decreases |a|
  {
    var i := FirstNewline(a);
    if i < |a| {
      assert forall k :: 0 <= k <= i ==> (a + b)[k] == a[k];
      FirstNewlineIs(a + b, i);
      assert (a + b)[i + 1..] == a[i + 1..] + b;
      ShortPrefix(a[i + 1..], b);
    } else if |a| > CAP {
      FirstIsAfter(a, b);
      assert FirstNewline(a + b) == |a + b|;
      assert forall k :: 0 <= k < |b| ==> b[k] == (a + b)[|a| + k];
    }
  }

  lemma FirstIsAfter(a: Bytes, b: Bytes)
    requires NEWLINE !in a
    ensures FirstNewline(a + b) >= |a|
  {
    assert forall k :: 0 <= k < |a| ==> (a + b)[k] == a[k];
  }

  lemma {:induction false} UnfinishedIsFlat(bytes: Bytes)
    ensures NEWLINE !in Unfinished(bytes)
    decreases |bytes|
  {
    var i := FirstNewline(bytes);
    if i < |bytes| {
      UnfinishedIsFlat(bytes[i + 1..]);
    }
  }

  /** The scanner after some chunks: what it has seen is what the whole bytes say, and what it keeps is their
      unfinished line, unless that line is already too long ever to be completed. */
  lemma {:induction false} FedKeepsUp(d: Decoder, chunks: seq<Bytes>)
    requires ShortLines(Joined(chunks))
    ensures Fed(d, chunks).seen == ReadLines(d, Seen(None, false), Joined(chunks))
    ensures NEWLINE !in Fed(d, chunks).buf
    ensures |Unfinished(Joined(chunks))| <= CAP ==> Fed(d, chunks).buf == Unfinished(Joined(chunks))
    decreases |chunks|
  {
    hide ReadLines, Unfinished, ShortLines;
    if chunks == [] {
      NoLine(d, Seen(None, false), []);
    } else {
      var front, last := chunks[..|chunks| - 1], chunks[|chunks| - 1];
      var before, start := Joined(front), Seen(None, false);
      ShortPrefix(before, last);
      FedKeepsUp(d, front);
      ReadConcat(d, start, before, last);
      UnfinishedIsFlat(Fed(d, front).buf + last);
      if |Unfinished(before)| > CAP {
        UnfinishedIsFlat(before);
        NoLine(d, Fed(d, front).seen, Fed(d, front).buf + last);
        NoLine(d, Fed(d, front).seen, Unfinished(before) + last);
      }
    }
  }

  /** For every way to cut a stream without over-long complete lines into chunks, the scanner ends as if it had read
      the whole stream line by line; an unfinished last line may be of any length. */
  lemma ChunkingDoesNotMatter(d: Decoder, chunks: seq<Bytes>)
    requires ShortLines(Joined(chunks))
    ensures Fed(d, chunks).seen == ReadLines(d, Seen(None, false), Joined(chunks))
    ensures |Unfinished(Joined(chunks))| <= CAP ==> Fed(d, chunks).buf == Unfinished(Joined(chunks))
  {
    FedKeepsUp(d, chunks);
  }

  // ---------- and exactly when ----------

  /** A decoder that takes the over-long lines, and only them, for the end of the stream. */
  function LongIsDone(): Decoder {
    Decoder(line => if |line| > CAP + 1 then DATA + DONE else "", payload => None)
  }

  function Bytewise(bytes: Bytes): seq<Bytes> {
    seq(|bytes|, i requires 0 <= i < |bytes| => [bytes[i]])
  }

  lemma {:induction false} BytewiseJoins(bytes: Bytes)
    ensures Joined(Bytewise(bytes)) == bytes
    decreases |bytes|
  {
    if bytes != [] {
      var n := |bytes| - 1;
      assert Bytewise(bytes)[..n] == Bytewise(bytes[..n]);
      BytewiseJoins(bytes[..n]);
      assert bytes == bytes[..n] + [bytes[n]];
    }
  }

  /** Fed byte by byte, the scanner never reads more than the cap and a newline as one line. */
  lemma {:induction false} BytewiseForgets(bytes: Bytes)
    ensures Fed(LongIsDone(), Bytewise(bytes)).seen == Seen(None, false)
    decreases |bytes|
  {
    hide ReadLines, Unfinished;
    if bytes != [] {
      var n := |bytes| - 1;
      assert Bytewise(bytes)[..n] == Bytewise(bytes[..n]);
      BytewiseForgets(bytes[..n]);
      BufferIsCapped(LongIsDone(), Bytewise(bytes[..n]));
      ShortReadsNothing(Fed(LongIsDone(), Bytewise(bytes[..n])).buf + [bytes[n]]);
    }
  }

  lemma BufferIsCapped(d: Decoder, chunks: seq<Bytes>)
    ensures |Fed(d, chunks).buf| <= CAP
  {
  }

  lemma {:induction false} ShortReadsNothing(bytes: Bytes)
    requires |bytes| <= CAP + 1
    ensures ReadLines(LongIsDone(), Seen(None, false), bytes) == Seen(None, false)
    decreases |bytes|
  {
    hide ReadLine, FirstNewline;
    var i := FirstNewline(bytes);
    if i < |bytes| {
      LineMeaning(Seen(None, false), bytes[..i + 1]);
      ShortReadsNothing(bytes[i + 1..]);
    }
  }

  lemma LineMeaning(seen: Seen, line: Bytes)
    ensures ReadLine(LongIsDone(), seen, line) == if |line| > CAP + 1 then seen.(done := true) else seen
  {
    assert (DATA + DONE)[|DATA|..] == DONE;
  }

  /** Read line by line, an over-long line is seen. */
  lemma {:induction false} LongLineIsRead(seen: Seen, bytes: Bytes)
    requires seen.done || !ShortLines(bytes)
    ensures ReadLines(LongIsDone(), seen, bytes).done
    decreases |bytes|
  {
    var i := FirstNewline(bytes);
    if i < |bytes| {
      LineMeaning(seen, bytes[..i + 1]);
      LongLineIsRead(ReadLine(LongIsDone(), seen, bytes[..i + 1]), bytes[i + 1..]);
    }
  }

  /** Chunking does not matter for a stream, whatever its lines mean, exactly when every complete line of it is at most
      the cap. */
  lemma ChunkingNeverMattersIffShort(bytes: Bytes)
    ensures (forall d, chunks :: Joined(chunks) == bytes ==> Fed(d, chunks).seen == ReadLines(d, Seen(None, false), bytes))
       <==> ShortLines(bytes)
  {
    hide Fed, ReadLines, ShortLines, Joined;
    if ShortLines(bytes) {
      forall d, chunks | Joined(chunks) == bytes
        ensures Fed(d, chunks).seen == ReadLines(d, Seen(None, false), bytes)
      {
        ChunkingDoesNotMatter(d, chunks);
      }
    } else {
      var d, chunks := LongIsDone(), Bytewise(bytes);
      BytewiseJoins(bytes);
      BytewiseForgets(bytes);
      LongLineIsRead(Seen(None, false), bytes);
      assert Joined(chunks) == bytes && Fed(d, chunks).seen != ReadLines(d, Seen(None, false), bytes);
    }
  }

  /** A longer line is read when it arrives whole and forgotten when its newline comes in the next chunk. */
  lemma LongLineDependsOnChunking(d: Decoder, line: Bytes)
    requires |line| > CAP && NEWLINE !in line
    ensures Fed(d, [line + [NEWLINE]]).seen == ReadLine(d, Seen(None, false), line + [NEWLINE])
    ensures Fed(d, [line, [NEWLINE]]).seen == ReadLine(d, Seen(None, false), [NEWLINE])
  {
    hide Fed, ReadLines, Unfinished, ReadLine, FirstNewline;
    var start, whole, end: Bytes := Seen(None, false), line + [NEWLINE], [NEWLINE];
    NoLine(d, start, line);
    FedNone(d);
    FedSnoc(d, [], whole);
    FedSnoc(d, [], line);
    FedSnoc(d, [line], end);
    OneLine(d, start, line);
    OneLine(d, start, []);
    assert [] + [whole] == [whole] && [] + [line] == [line] && [line] + [end] == [line, end];
    assert [] + whole == whole && [] + line == line && [] + end == end;
  }

  /** The two readings of a longer line differ as soon as the line means something. */
  lemma LongLineReadOrForgotten(line: Bytes)
    requires |line| > CAP && NEWLINE !in line
    ensures Fed(LongIsDone(), [line + [NEWLINE]]).seen.done && !Fed(LongIsDone(), [line, [NEWLINE]]).seen.done
  {
    hide Fed;
    LongLineDependsOnChunking(LongIsDone(), line);
    LineMeaning(Seen(None, false), line + [NEWLINE]);
    LineMeaning(Seen(None, false), [NEWLINE]);
  }

  lemma FedNone(d: Decoder)
    ensures Fed(d, []) == Scanner([], Seen(None, false))
  {
  }

  lemma NoLine(d: Decoder, seen: Seen, content: Bytes)
    requires NEWLINE !in content
    ensures ReadLines(d, seen, content) == seen && Unfinished(content) == content
  {
    FirstNewlineIs(content, |content|);
  }

  lemma FedSnoc(d: Decoder, chunks: seq<Bytes>, chunk: Bytes)
    ensures var before := Fed(d, chunks);
            Fed(d, chunks + [chunk]) == Scanner(Capped(Unfinished(before.buf + chunk)), ReadLines(d, before.seen, before.buf + chunk))
  {
    assert (chunks + [chunk])[..|chunks|] == chunks;
  }

  lemma OneLine(d: Decoder, seen: Seen, content: Bytes)
    requires NEWLINE !in content
    ensures ReadLines(d, seen, content + [NEWLINE]) == ReadLine(d, seen, content + [NEWLINE])
  {
    var line := content + [NEWLINE];
    FirstNewlineIs(line, |content|);
    assert line[..|content| + 1] == line && line[|content| + 1..] == [];
  }

  // ---------- what a stream says, line by line ----------

  /** The complete lines, each with its newline. */
  function Lines(bytes: Bytes): seq<Bytes>
    decreases |bytes|
  {
    var i := FirstNewline(bytes);
    if i == |bytes| then [] else [bytes[..i + 1]] + Lines(bytes[i + 1..])
  }

  function Glued(lines: seq<Bytes>): Bytes {
    if lines == [] then [] else lines[0] + Glued(lines[1..])
  }

  /** A newline at the end and nowhere else. */
  predicate IsLine(line: Bytes) {
    line != [] && line[|line| - 1] == NEWLINE && NEWLINE !in line[..|line| - 1]
  }

  /** The lines and the unfinished rest are the stream, cut after each newline and nowhere else. */
  lemma {:induction false} LinesSplit(bytes: Bytes)
    ensures Glued(Lines(bytes)) + Unfinished(bytes) == bytes && NEWLINE !in Unfinished(bytes)
    ensures forall line :: line in Lines(bytes) ==> IsLine(line)
    decreases |bytes|
  {
    hide IsLine, Lines, Unfinished, FirstNewline;
    var i := FirstNewline(bytes);
    LinesStep(bytes);
    UnfinishedStep(bytes);
    if i < |bytes| {
      var line, rest := bytes[..i + 1], bytes[i + 1..];
      LinesSplit(rest);
      FirstIsLine(bytes);
      assert ([line] + Lines(rest))[1..] == Lines(rest);
      assert (line + Glued(Lines(rest))) + Unfinished(rest) == line + (Glued(Lines(rest)) + Unfinished(rest));
      assert line + rest == bytes;
    }
  }

  lemma LinesStep(bytes: Bytes)
    ensures var i := FirstNewline(bytes);
            if i == |bytes| then Lines(bytes) == []
            else Lines(bytes) == [bytes[..i + 1]] + Lines(bytes[i + 1..])
  {
    hide FirstNewline;
  }

  lemma UnfinishedStep(bytes: Bytes)
    ensures var i := FirstNewline(bytes);
            if i == |bytes| then Unfinished(bytes) == bytes else Unfinished(bytes) == Unfinished(bytes[i + 1..])
  {
    hide FirstNewline;
  }

  lemma FirstIsLine(bytes: Bytes)
    requires FirstNewline(bytes) < |bytes|
    ensures IsLine(bytes[..FirstNewline(bytes) + 1])
  {
    hide FirstNewline;
    var i := FirstNewline(bytes);
    assert bytes[..i + 1][..i] == bytes[..i];
  }

  /** Lines are short when none of them has more than 65536 bytes in front of its newline. */
  lemma {:induction false} ShortMeans(bytes: Bytes)
    ensures ShortLines(bytes) <==> forall line :: line in Lines(bytes) ==> |line| <= 65537
    decreases |bytes|
  {
    hide ShortLines, Lines, FirstNewline;
    var i := FirstNewline(bytes);
    LinesStep(bytes);
    ShortStep(bytes);
    if i < |bytes| {
      ShortMeans(bytes[i + 1..]);
      var line := bytes[..i + 1];
      assert line in Lines(bytes) && |line| == i + 1;
    }
  }

  lemma ShortStep(bytes: Bytes)
    ensures var i := FirstNewline(bytes);
            ShortLines(bytes) <==> i == |bytes| || (i <= 65536 && ShortLines(bytes[i + 1..]))
  {
    hide FirstNewline;
  }

  predicate SaysDone(d: Decoder, line: Bytes) {
    d.text(line) == "data: [DONE]"
  }

  /** A data line other than the end marker whose payload reports a usage. */
  ghost predicate Reports(d: Decoder, line: Bytes, usage: Usage) {
    exists payload :: d.text(line) == "data: " + payload && payload != "[DONE]" && d.usage(payload) == Some(usage)
  }

  lemma LineSays(d: Decoder, seen: Seen, line: Bytes)
    ensures ReadLine(d, seen, line).done <==> seen.done || SaysDone(d, line)
    ensures forall usage :: Reports(d, line, usage) ==> ReadLine(d, seen, line).last == Some(usage)
    ensures ReadLine(d, seen, line).last == seen.last
         || (ReadLine(d, seen, line).last.Some? && Reports(d, line, ReadLine(d, seen, line).last.value))
    ensures (forall usage :: !Reports(d, line, usage)) ==> ReadLine(d, seen, line).last == seen.last
  {
    var text := d.text(line);
    assert forall payload :: text == "data: " + payload ==> text[6..] == payload;
    if DATA <= text {
      assert text == "data: " + text[6..];
    }
  }

  /** No line from `from` on reports a usage. */
  ghost predicate Silent(d: Decoder, lines: seq<Bytes>, from: nat) {
    forall i, usage :: from <= i < |lines| ==> !Reports(d, lines[i], usage)
  }

  lemma SilentBehind(d: Decoder, line: Bytes, more: seq<Bytes>, from: nat)
    ensures Silent(d, [line] + more, from + 1) <==> Silent(d, more, from)
    ensures Silent(d, [line] + more, 0) <==> Silent(d, more, 0) && forall usage :: !Reports(d, line, usage)
  {
    hide Reports;
    var lines := [line] + more;
    assert forall k :: 0 <= k < |more| ==> lines[k + 1] == more[k];
    assert forall k :: 0 < k < |lines| ==> lines[k] == more[k - 1];
    assert lines[0] == line;
  }

  lemma {:induction false} DoneMeans(d: Decoder, seen: Seen, bytes: Bytes)
    ensures ReadLines(d, seen, bytes).done <==> seen.done || exists line :: line in Lines(bytes) && SaysDone(d, line)
    decreases |bytes|
  {
    hide ReadLine, SaysDone, Lines, FirstNewline;
    LinesStep(bytes);
    var i := FirstNewline(bytes);
    if i < |bytes| {
      var line := bytes[..i + 1];
      LineSays(d, seen, line);
      DoneMeans(d, ReadLine(d, seen, line), bytes[i + 1..]);
      assert line in Lines(bytes);
      assert forall l :: l in Lines(bytes) <==> l == line || l in Lines(bytes[i + 1..]);
    }
  }

  /** The last usage is that of the last complete line that reports one, or the one known before when none does. */
  lemma {:induction false} LastMeans(d: Decoder, seen: Seen, bytes: Bytes) returns (at: Option<nat>)
    ensures at == None ==> ReadLines(d, seen, bytes).last == seen.last && Silent(d, Lines(bytes), 0)
    ensures at.Some? ==>
              && at.value < |Lines(bytes)| && ReadLines(d, seen, bytes).last.Some?
              && Reports(d, Lines(bytes)[at.value], ReadLines(d, seen, bytes).last.value)
              && Silent(d, Lines(bytes), at.value + 1)
    decreases |bytes|
  {
    hide ReadLine, Reports, Silent, Lines, FirstNewline;
    LinesStep(bytes);
    at := None;
    var i := FirstNewline(bytes);
    if i < |bytes| {
      var line, rest := bytes[..i + 1], bytes[i + 1..];
      var next := ReadLine(d, seen, line);
      LineSays(d, seen, line);
      var more := LastMeans(d, next, rest);
      if more.Some? {
        at := Some(more.value + 1);
        SilentBehind(d, line, Lines(rest), more.value + 1);
      } else {
        SilentBehind(d, line, Lines(rest), 0);
        if usage :| Reports(d, line, usage) { at := Some(0); }
      }
    } else {
      NoneSilent(d);
    }
  }

  lemma NoneSilent(d: Decoder)
    ensures Silent(d, [], 0)
  {
  }

  /** A scanner fed a stream of short lines in any chunks ends having seen the end marker exactly when some complete
      line is `data: [DONE]`, with the usage of the last complete line that reports one. */
  lemma StreamMeans(d: Decoder, chunks: seq<Bytes>) returns (at: Option<nat>)
    requires forall line :: line in Lines(Joined(chunks)) ==> |line| <= 65537
    ensures Fed(d, chunks).seen.done <==> exists line :: line in Lines(Joined(chunks)) && SaysDone(d, line)
    ensures at == None ==> Fed(d, chunks).seen.last == None && Silent(d, Lines(Joined(chunks)), 0)
    ensures at.Some? ==>
              var lines, last := Lines(Joined(chunks)), Fed(d, chunks).seen.last;
              at.value < |lines| && last.Some? && Reports(d, lines[at.value], last.value) && Silent(d, lines, at.value + 1)
  {
    hide Lines, Reports, SaysDone, Silent, Fed, ReadLines;
    ShortMeans(Joined(chunks));
    ChunkingDoesNotMatter(d, chunks);
    DoneMeans(d, Seen(None, false), Joined(chunks));
    at := LastMeans(d, Seen(None, false), Joined(chunks));
  }
}
