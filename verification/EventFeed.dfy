// The bridge's queue for one event stream (EventStreamState in frontend/main.cpp) and the browser's log
// (appendEventLine in frontend/webui/app.js).
module EventFeed {

  const CAP := 500

  /** The received lines at the positions marked true. */
  ghost function Selected(lines: seq<string>, marks: seq<bool>): seq<string>
    requires |marks| <= |lines|
  {
    if marks == [] then []
    else
      var n := |marks| - 1;
      Selected(lines, marks[..n]) + (if marks[n] then [lines[n]] else [])
  }

  lemma {:induction false} SelectedOfLonger(lines: seq<string>, more: seq<string>, marks: seq<bool>)
    requires |marks| <= |lines|
    ensures Selected(lines + more, marks) == Selected(lines, marks)
  {
    if marks != [] { SelectedOfLonger(lines, more, marks[..|marks| - 1]); }
  }

  /** Marks a position as delivered (true) or dropped (false) when the line leaves the queue, oldest first. */
  class EventStreamState {
    var queue: seq<string>
    ghost var received: seq<string>
    ghost var delivered: seq<string>
    ghost var fate: seq<bool>

    /** The queue is the end of what was received, never more than 501 lines; everything before it was
        delivered or dropped, and what was delivered came in order. */
    ghost predicate Valid()
      reads this
    {
      && |queue| <= CAP + 1
      && |fate| + |queue| == |received|
      && queue == received[|fate|..]
      && delivered == Selected(received, fate)
    }

    constructor ()
      ensures Valid() && queue == [] && received == []
    {
      queue, received, delivered, fate := [], [], [], [];
    }

    /** A line arrives: only a queue of 501 loses its oldest line to it. */
    method OnEvent(line: string)
      requires Valid()
      modifies this
      ensures Valid() && received == old(received) + [line] && delivered == old(delivered)
      ensures queue == (if |old(queue)| > CAP then old(queue)[1..] else old(queue)) + [line]
      ensures fate == old(fate) + (if |old(queue)| > CAP then [false] else [])
      ensures |queue| <= 501
      ensures queue == (if |old(queue)| == 501 then old(queue)[1..] else old(queue)) + [line]
    {
      SelectedOfLonger(received, [line], fate);
      if |queue| > CAP {
        queue := queue[1..];
        fate := fate + [false];
        assert fate[..|fate| - 1] == old(fate);
      }
      queue := queue + [line];
      received := received + [line];
    }

    /** The stream callback takes the oldest line, or sends a keep-alive if there is none, and hands over as
        much of the chunk as fits the buffer. */
    method Pull(maxLen: nat) returns (chunk: string)
      requires Valid()
      modifies this
      ensures Valid() && received == old(received)
      ensures chunk == ChunkFor(old(queue))[..Min(maxLen, |ChunkFor(old(queue))|)]
      ensures old(queue) == [] ==> delivered == old(delivered) && queue == []
      ensures old(queue) != [] ==> delivered == old(delivered) + [old(queue)[0]] && queue == old(queue)[1..]
      ensures fate == old(fate) + (if old(queue) == [] then [] else [true])
      ensures var whole := if old(queue) == [] then ": keep-alive\n\n" else "data: " + old(queue)[0] + "\n\n";
        chunk == if maxLen < |whole| then whole[..maxLen] else whole
    {
      chunk := ": keep-alive\n\n";
      if queue != [] {
        chunk := "data: " + queue[0] + "\n\n";
        delivered := delivered + [queue[0]];
        queue := queue[1..];
        fate := fate + [true];
        assert fate[..|fate| - 1] == old(fate);
      }
      chunk := chunk[..Min(maxLen, |chunk|)];
    }
  }

  function ChunkFor(queue: seq<string>): string {
    if queue == [] then ": keep-alive\n\n" else "data: " + queue[0] + "\n\n"
  }

  /** A line reaches the client whole if and only if the buffer holds it with its frame of eight characters. */
  lemma ChunkIsWholeIff(line: string, maxLen: nat)
    ensures var chunk := ChunkFor([line]);
      chunk[..Min(maxLen, |chunk|)] == "data: " + line + "\n\n" <==> |line| + 8 <= maxLen
  {
    assert |"data: "| == 6 && |"\n\n"| == 2;
  }

  // ---- the browser's log ----

  const MAX_EVENTS := 30

  function Min(a: nat, b: nat): nat {
    if a < b then a else b
  }

  /** Newest first. */
  function Append<T>(log: seq<T>, x: T): seq<T> {
    ([x] + log)[..Min(MAX_EVENTS, |log| + 1)]
  }

  function AppendAll<T>(log: seq<T>, xs: seq<T>): seq<T> {
    if xs == [] then log else Append(AppendAll(log, xs[..|xs| - 1]), xs[|xs| - 1])
  }

  class EventLog<T> {
    var eventLog: seq<T>

    constructor ()
      ensures eventLog == []
    {
      eventLog := [];
    }

    method AppendEventLine(x: T)
      modifies this
      ensures eventLog == Append(old(eventLog), x)
      ensures eventLog[0] == x && |eventLog| == Min(MAX_EVENTS, |old(eventLog)| + 1)
      ensures eventLog[1..] <= old(eventLog)
      ensures |eventLog| == if |old(eventLog)| < 30 then |old(eventLog)| + 1 else 30
    {
      eventLog := [x] + eventLog;
      if |eventLog| > MAX_EVENTS { eventLog := eventLog[..MAX_EVENTS]; }
    }
  }

  /** However many lines were appended, the log is the last 30 of them, newest first. */
  lemma {:induction false} LogIsLastThirty<T>(xs: seq<T>)
    ensures |AppendAll([], xs)| == if |xs| < 30 then |xs| else 30
    ensures forall i :: 0 <= i < |AppendAll([], xs)| ==> AppendAll([], xs)[i] == xs[|xs| - 1 - i]
  {
    if xs != [] { LogIsLastThirty(xs[..|xs| - 1]); }
  }
}
