/** Bodies frame by frame: the capped error body, and the streamed reply with its one completion event. */
module TransportStream {
  import opened Wrappers
  import opened TransportScan

  /** What waiting for the next frame brings; after the last frame listed the body has ended. */
  datatype Frame = Data(bytes: Bytes) | Trailers | Failed | Ended | Elapsed

  predicate Goes(frame: Frame) {
    frame.Data? || frame.Trailers?
  }

  /** The index of the frame that stops the body. */
  function Stop(frames: seq<Frame>): (n: nat)
    ensures n <= |frames| && (forall i :: 0 <= i < n ==> Goes(frames[i])) && (n < |frames| ==> !Goes(frames[n]))
  {
    if frames == [] || !Goes(frames[0]) then 0
    else
      var n := Stop(frames[1..]);
      assert forall i :: 1 <= i < n + 1 ==> frames[i] == frames[1..][i - 1];
      n + 1
  }

  function DataOf(frames: seq<Frame>): Bytes {
    if frames == [] then []
    else DataOf(frames[..|frames| - 1]) + (if frames[|frames| - 1].Data? then frames[|frames| - 1].bytes else [])
  }

  function Take(bytes: Bytes, n: nat): Bytes {
    if |bytes| <= n then bytes else bytes[..n]
  }

  lemma {:induction false} DataGrows(frames: seq<Frame>, i: nat, j: nat)
    requires i <= j <= |frames|
    ensures DataOf(frames[..i]) <= DataOf(frames[..j])
    decreases j - i
  {
    if i < j {
      DataGrows(frames, i, j - 1);
      assert frames[..j][..j - 1] == frames[..j - 1];
    }
  }

  /** `read_capped`: the first 64 KiB of the body, and whether the deadline passed before they or the end arrived. */
  method ReadCapped(frames: seq<Frame>) returns (buf: Bytes, timedOut: bool)
    ensures var stop := Stop(frames);
            var body := DataOf(frames[..stop]);
            && buf == Take(body, CAP)
            && (timedOut <==> |body| < CAP && stop < |frames| && frames[stop].Elapsed?)
  {
    buf, timedOut := [], false;
    var i := 0;
    ghost var stop := Stop(frames);
    while |buf| < CAP && i < |frames|
      invariant i <= stop && buf == Take(DataOf(frames[..i]), CAP) && !timedOut
      decreases |frames| - i
    {
      assert frames[..i + 1][..i] == frames[..i];
      ghost var body := DataOf(frames[..i]);
      match frames[i] {
        case Data(data) =>
          var remaining := CAP - |buf|;
          buf := buf + Take(data, remaining);
          assert body + Take(data, remaining) == Take(body + data, CAP);
        case Trailers =>
        case Failed => break;
        case Ended => break;
        case Elapsed =>
          timedOut := true;
          break;
      }
      i := i + 1;
    }
    DataGrows(frames, i, stop);
    if |buf| == CAP {
      assert DataOf(frames[..i])[..CAP] == DataOf(frames[..stop])[..CAP];
    }
  }

  /** How many trailers come first. */
  function Passed(frames: seq<Frame>): (n: nat)
    ensures n <= |frames| && (forall i :: 0 <= i < n ==> frames[i] == Trailers)
    ensures n < |frames| ==> frames[n] != Trailers
  {
    if frames == [] || frames[0] != Trailers then 0
    else
      var n := Passed(frames[1..]);
      assert forall i :: 1 <= i < n + 1 ==> frames[i] == frames[1..][i - 1];
      n + 1
  }

  datatype Item = Chunk(bytes: Bytes) | BodyError | IdleTimeout

  /** The streamed body's state; `events` are the completion events fired, each with the usage it reports. */
  class StreamState {
    const scanner: UsageScanner
    var ended: bool
    var emitted: bool
    var events: seq<Option<Usage>>

    ghost predicate Valid()
      reads this
    {
      |events| == (if emitted then 1 else 0) && (ended ==> emitted)
    }

    constructor (s: UsageScanner)
      ensures Valid() && scanner == s && !ended && !emitted
    {
      scanner, ended, emitted, events := s, false, false, [];
    }

    /** At most once; it reports the last usage scanned. */
    method EmitCompletion()
      requires |events| == if emitted then 1 else 0
      modifies this`emitted, this`events
      ensures Valid() && emitted && events == (if old(emitted) then old(events) else [scanner.last])
    {
      if emitted { return; }
      emitted := true;
      events := events + [scanner.last];
    }

    /** `stream_next_item`: trailers are passed over; a chunk is scanned and handed on; whatever ends the body fires
        the completion event. */
    method Next(frames: seq<Frame>) returns (item: Option<Item>, rest: seq<Frame>)
      requires Valid()
      modifies this, scanner
      ensures Valid()
      ensures old(ended) ==> item == None && rest == frames && events == old(events)
                             && Seen(scanner.last, scanner.done) == old(Seen(scanner.last, scanner.done))
      ensures !old(ended) ==>
                var n := Passed(frames);
                  if n < |frames| && frames[n].Data? then
                       && item == Some(Chunk(frames[n].bytes)) && rest == frames[n + 1..]
                       && ended == old(ended) && emitted == old(emitted) && events == old(events)
                       && Seen(scanner.last, scanner.done)
                          == ReadLines(scanner.decoder, old(Seen(scanner.last, scanner.done)), old(scanner.buf) + frames[n].bytes)
                     else
                       && (item == if n == |frames| || frames[n].Ended? then None
                                   else if frames[n].Failed? then Some(BodyError) else Some(IdleTimeout))
                       && ended == item.Some? && emitted
                       && events == (if old(emitted) then old(events) else [old(scanner.last)])
    {
      rest := frames;
      ghost var n := 0;
      while true
        invariant n <= |frames| && rest == frames[n..] && Passed(frames) == n + Passed(rest)
        invariant ended == old(ended) && emitted == old(emitted) && events == old(events)
        invariant scanner.last == old(scanner.last) && scanner.done == old(scanner.done) && scanner.buf == old(scanner.buf)
        decreases |rest|
      {
        if ended { return None, frames; }
        if rest == [] {
          EmitCompletion();
          return None, rest;
        }
        var frame := rest[0];
        rest := rest[1..];
        match frame
        case Data(bytes) =>
          var found := scanner.Scan(bytes);
          return Some(Chunk(bytes)), rest;
        case Trailers => n := n + 1;
        case Failed =>
          ended := true;
          EmitCompletion();
          return Some(BodyError), rest;
        case Ended =>
          EmitCompletion();
          return None, rest;
        case Elapsed =>
          ended := true;
          EmitCompletion();
          return Some(IdleTimeout), rest;
      }
    }

    /** `drop`: a stream given up before the `[DONE]` line fires nothing. */
    method Close()
      requires Valid()
      modifies this`emitted, this`events
      ensures Valid()
      ensures |events| == if old(emitted) || scanner.done then 1 else 0
      ensures old(emitted) ==> events == old(events)
      ensures !old(emitted) && scanner.done ==> events == [scanner.last]
    {
      if scanner.done { EmitCompletion(); }
    }
  }
}
