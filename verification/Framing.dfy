// JSON lines over a byte stream that writes short and reads in arbitrary pieces: the write loops, the
// event-stream observer, the two line readers and the bridge's stream client
// (src/control.cpp, frontend/services/ControlClient.cc).
module Framing {
  import opened Common
  import opened KeyMapper
  import opened EventPipeline

  const NL: char := '\n'

  // ---- splitting a stream into lines ----

  datatype Split = Split(lines: seq<string>, tail: string)

  /** Complete lines, and what follows the last newline. */
  function SplitLines(bytes: string): Split {
    if bytes == [] then Split([], "")
    else
      var s := SplitLines(bytes[..|bytes| - 1]);
      if bytes[|bytes| - 1] == NL then Split(s.lines + [s.tail], "")
      else Split(s.lines, s.tail + [bytes[|bytes| - 1]])
  }

  lemma {:induction false} SplitPlain(s: string)
    requires NL !in s
    ensures SplitLines(s) == Split([], s)
  {
    if s != [] {
      SplitPlain(s[..|s| - 1]);
      assert s == s[..|s| - 1] + [s[|s| - 1]];
    }
  }

  lemma {:induction false} TailIsPlain(s: string)
    ensures NL !in SplitLines(s).tail
  {
    if s != [] { TailIsPlain(s[..|s| - 1]); }
  }

  /** Splitting goes on from the unfinished tail: bytes that arrive later only add lines. */
  lemma {:induction false} SplitAppend(a: string, b: string)
    ensures var sa, sb := SplitLines(a), SplitLines(SplitLines(a).tail + b);
      SplitLines(a + b) == Split(sa.lines + sb.lines, sb.tail)
  {
    var tail := SplitLines(a).tail;
    if b == [] {
      TailIsPlain(a);
      SplitPlain(tail);
      assert a + b == a && tail + b == tail;
    } else {
      var front := b[..|b| - 1];
      SplitAppend(a, front);
      assert (a + b)[..|a + b| - 1] == a + front;
      assert (tail + b)[..|tail + b| - 1] == tail + front;
    }
  }

  lemma SplitOneLine(line: string)
    requires NL !in line
    ensures SplitLines(line + [NL]) == Split([line], "")
  {
    assert (line + [NL])[..|line|] == line;
    SplitPlain(line);
  }

  /** A stream that begins with a complete line. */
  lemma SplitLineThen(line: string, rest: string)
    requires NL !in line
    ensures SplitLines(line + [NL] + rest) == Split([line] + SplitLines(rest).lines, SplitLines(rest).tail)
  {
    SplitOneLine(line);
    SplitAppend(line + [NL], rest);
    assert "" + rest == rest;
  }

  /** Lines end at newline characters, and nowhere else. */
  lemma LinesEndAtNewlines(line: string, rest: string)
    requires '\n' !in line
    ensures SplitLines(line) == Split([], line)
    ensures SplitLines(line + "\n" + rest) == Split([line] + SplitLines(rest).lines, SplitLines(rest).tail)
  {
    SplitPlain(line);
    SplitLineThen(line, rest);
  }

  /** Taking the first line off a buffer. */
  lemma SplitFirst(buf: string, nl: nat)
    requires nl < |buf| && buf[nl] == NL && NL !in buf[..nl]
    ensures var rest := SplitLines(buf[nl + 1..]);
      SplitLines(buf) == Split([buf[..nl]] + rest.lines, rest.tail)
  {
    SplitLineThen(buf[..nl], buf[nl + 1..]);
    assert buf == buf[..nl] + [NL] + buf[nl + 1..];
  }

  lemma TakeLine(all: string, done: seq<string>, buf: string, nl: nat)
    requires nl < |buf| && buf[nl] == NL && NL !in buf[..nl]
    requires SplitLines(all) == Split(done + SplitLines(buf).lines, SplitLines(buf).tail)
    ensures var rest := SplitLines(buf[nl + 1..]);
      SplitLines(all) == Split((done + [buf[..nl]]) + rest.lines, rest.tail)
  {
    SplitFirst(buf, nl);
    Associates(done, [buf[..nl]], SplitLines(buf[nl + 1..]).lines);
  }

  lemma SplitPrefix(a: string, b: string)
    requires a <= b
    ensures SplitLines(a).lines <= SplitLines(b).lines
  {
    SplitAppend(a, b[|a|..]);
    assert a + b[|a|..] == b;
  }

  function Concat(chunks: seq<string>): string {
    if chunks == [] then "" else chunks[0] + Concat(chunks[1..])
  }

  lemma ConcatStep(got: string, chunks: seq<string>, k: nat)
    requires k < |chunks|
    ensures got + Concat(chunks[k..]) == (got + chunks[k]) + Concat(chunks[k + 1..])
  {
    assert chunks[k..][1..] == chunks[k + 1..];
  }

  method FindNewline(buf: string) returns (nl: nat)
    ensures nl <= |buf| && NL !in buf[..nl]
    ensures nl < |buf| ==> buf[nl] == NL
  {
    nl := 0;
    while nl < |buf| && buf[nl] != NL
      invariant nl <= |buf| && NL !in buf[..nl]
    {
      nl := nl + 1;
    }
  }

  // ---- writing ----

  /** The outgoing side of a socket. Each write accepts some of the bytes offered, as the script says,
      or fails. */
  class Socket {
    var sent: string
    var script: seq<int>

    constructor (script: seq<int>)
      ensures sent == "" && this.script == script
    {
      sent, this.script := "", script;
    }

    method Write(s: string) returns (n: int)
      requires s != ""
      modifies this
      ensures n <= |s|
      ensures sent == old(sent) + s[..if n <= 0 then 0 else n]
      ensures script == if old(script) == [] then [] else old(script)[1..]
    {
      if script == [] { return -1; }
      n := if script[0] <= |s| then script[0] else |s|;
      script := script[1..];
      if n > 0 { sent := sent + s[..n]; }
    }
  }

  /** send_str and sendAll: whatever the pattern of short writes, success means that exactly the string
      went out, and failure that a proper prefix of it did. */
  method SendStr(sock: Socket, s: string) returns (ok: bool)
    modifies sock
    ensures ok ==> sock.sent == old(sock.sent) + s
    ensures !ok ==> exists k :: 0 <= k < |s| && sock.sent == old(sock.sent) + s[..k]
  {
    var done := 0;
    while done < |s|
      invariant 0 <= done <= |s|
      invariant sock.sent == old(sock.sent) + s[..done]
      decreases |s| - done
    {
      var n := sock.Write(s[done..]);
      if n <= 0 { return false; }
      assert s[..done] + s[done..][..n] == s[..done + n];
      done := done + n;
    }
    assert s[..|s|] == s;
    return true;
  }

  // ---- the event stream ----

  datatype EventMsg = EventMsg(device: string, path: string, key: string, code: int, command: string)

  /** The JSON writer and reader: one line per message, read back as it was. */
  datatype Codec = Codec(enc: EventMsg -> string, dec: string -> Option<EventMsg>)

  ghost predicate IsCodec(c: Codec) {
    forall m :: c.dec(c.enc(m)) == Some(m) && NL !in c.enc(m) && c.enc(m) != ""
  }

  function Frame(c: Codec, m: EventMsg): string {
    c.enc(m) + [NL]
  }

  function Frames(c: Codec, ms: seq<EventMsg>): string {
    if ms == [] then "" else Frames(c, ms[..|ms| - 1]) + Frame(c, ms[|ms| - 1])
  }

  function MessageOf(names: NameTable, what: Dispatch): EventMsg {
    EventMsg(what.ev.deviceId, what.ev.devicePath, CodeToName(names, what.ev.code), what.ev.code, what.cmd)
  }

  /** The presses among what an observer is told, as messages. */
  function PressMessages(names: NameTable, told: seq<Dispatch>): seq<EventMsg> {
    if told == [] then []
    else
      var last := told[|told| - 1];
      PressMessages(names, told[..|told| - 1]) + (if IsPress(last.ev) then [MessageOf(names, last)] else [])
  }

  lemma PressMessagesSnoc(names: NameTable, told: seq<Dispatch>, what: Dispatch)
    ensures PressMessages(names, told + [what])
      == PressMessages(names, told) + (if IsPress(what.ev) then [MessageOf(names, what)] else [])
  {
    assert (told + [what])[..|told|] == told;
  }

  /** One press told is one message, with its device, node, key name, code and command; anything else is none. */
  lemma OneMessage(names: NameTable, ev: InputEvent, cmd: string)
    ensures PressMessages(names, [Dispatch(ev, cmd)]) ==
      if ev.value == 1
      then [EventMsg(ev.deviceId, ev.devicePath, CodeToName(names, ev.code), ev.code, cmd)] else []
    ensures forall n :: n in names && names[n] == ev.code ==> CodeToName(names, ev.code) == n
  {
    assert [] + [Dispatch(ev, cmd)] == [Dispatch(ev, cmd)];
    PressMessagesSnoc(names, [], Dispatch(ev, cmd));
    CodeToNameIs(names, ev.code);
  }

  /** The messages are those of the presses told, one for each, in order. */
  ghost predicate AreThePresses(ms: seq<EventMsg>, names: NameTable, told: seq<Dispatch>) {
    exists ks: seq<nat> :: Increasing(ks) && PressAt(ks, ms, names, told)
  }

  ghost predicate PressAt(ks: seq<nat>, ms: seq<EventMsg>, names: NameTable, told: seq<Dispatch>) {
    && |ks| == |ms|
    && (forall j :: 0 <= j < |ks| ==>
          ks[j] < |told| && told[ks[j]].ev.value == 1 && IsMessageOf(ms[j], names, told[ks[j]]))
    && (forall i :: 0 <= i < |told| && told[i].ev.value == 1 ==> i in ks)
  }

  ghost predicate IsMessageOf(m: EventMsg, names: NameTable, what: Dispatch) {
    && m.device == what.ev.deviceId && m.path == what.ev.devicePath && m.code == what.ev.code
    && m.command == what.cmd && (m.code in names.Values ==> m.key in names && names[m.key] == m.code)
  }

  lemma PressAtSnoc(ks: seq<nat>, ms: seq<EventMsg>, names: NameTable, told: seq<Dispatch>, what: Dispatch)
    requires Increasing(ks) && PressAt(ks, ms, names, told)
    ensures what.ev.value != 1 ==> PressAt(ks, ms, names, told + [what])
    ensures what.ev.value == 1 ==>
      var more := ks + [|told|];
      Increasing(more) && PressAt(more, ms + [MessageOf(names, what)], names, told + [what])
  {
    var all, more := told + [what], ks + [|told|];
    CodeToNameIs(names, what.ev.code);
    forall i | 0 <= i < |all| && all[i].ev.value == 1 ensures i in more && (i < |told| ==> i in ks) {
      assert more[|ks|] == |told|;
      if i < |told| { assert told[i].ev.value == 1 && i in ks; }
    }
  }

  lemma PressesWitnessed(ks: seq<nat>, ms: seq<EventMsg>, names: NameTable, told: seq<Dispatch>)
    requires Increasing(ks) && PressAt(ks, ms, names, told)
    ensures AreThePresses(ms, names, told)
  {
  }

  lemma ThePressesSnoc(ms: seq<EventMsg>, names: NameTable, told: seq<Dispatch>, what: Dispatch)
    requires AreThePresses(ms, names, told)
    ensures AreThePresses(ms + (if what.ev.value == 1 then [MessageOf(names, what)] else []), names, told + [what])
  {
    var ks: seq<nat> :| Increasing(ks) && PressAt(ks, ms, names, told);
    PressAtSnoc(ks, ms, names, told, what);
    if what.ev.value == 1 {
      PressesWitnessed(ks + [|told|], ms + [MessageOf(names, what)], names, told + [what]);
    } else {
      assert ms + [] == ms;
      PressesWitnessed(ks, ms, names, told + [what]);
    }
  }

  lemma {:induction false} MessagesAreThePresses(names: NameTable, told: seq<Dispatch>)
    ensures AreThePresses(PressMessages(names, told), names, told)
  {
    if told == [] {
      PressesWitnessed([], [], names, []);
    } else {
      var front, what := told[..|told| - 1], told[|told| - 1];
      MessagesAreThePresses(names, front);
      ThePressesSnoc(PressMessages(names, front), names, front, what);
      PressMessagesSnoc(names, front, what);
      assert told == front + [what];
    }
  }

  /** The sent bytes are some whole frames and, only once the latch is set, part of the next one. */
  ghost predicate WellFramed(c: Codec, sent: string, due: seq<EventMsg>, whole: nat, latched: bool) {
    && whole <= |due|
    && (!latched ==> whole == |due|)
    && Frames(c, due[..whole]) <= sent
    && (var part := sent[|Frames(c, due[..whole])|..];
        if whole == |due| then part == "" else |part| < |Frame(c, due[whole])| && part <= Frame(c, due[whole]))
  }

  /** The observer that an `events` client registers, on a connection where `base` was sent before. */
  class EventObserver {
    const names: NameTable
    const codec: Codec
    const sock: Socket
    ghost const base: string
    var disconnected: bool
    ghost var told: seq<Dispatch>
    ghost var whole: nat

    ghost predicate Valid()
      reads this, sock
    {
      base <= sock.sent && WellFramed(codec, sock.sent[|base|..], PressMessages(names, told), whole, disconnected)
    }

    constructor (names: NameTable, codec: Codec, sock: Socket)
      ensures Valid() && told == [] && this.sock == sock && this.names == names && this.codec == codec
      ensures base == sock.sent
    {
      this.names, this.codec, this.sock, base := names, codec, sock, sock.sent;
      disconnected, told, whole := false, [], 0;
    }

    method OnEvent(ev: InputEvent, cmd: string)
      requires Valid()
      modifies this, sock
      ensures Valid() && told == old(told) + [Dispatch(ev, cmd)]
      ensures old(disconnected) ==> disconnected && sock.sent == old(sock.sent)
      ensures ev.value != 1 ==> sock.sent == old(sock.sent) && disconnected == old(disconnected)
      ensures ev.value == 1 && !disconnected ==>
        var m := EventMsg(ev.deviceId, ev.devicePath, CodeToName(names, ev.code), ev.code, cmd);
        sock.sent == old(sock.sent) + (codec.enc(m) + "\n")
    {
      ghost var due := PressMessages(names, told);
      told := told + [Dispatch(ev, cmd)];
      assert told[..|told| - 1] == old(told);
      if ev.value != EV_KEY_PRESS {
        assert PressMessages(names, told) == due;
        return;
      }
      var m := MessageOf(names, Dispatch(ev, cmd));
      assert PressMessages(names, told) == due + [m];
      if disconnected {
        WellFramedLatched(codec, sock.sent[|base|..], due, whole, m);
        return;
      }
      ghost var before := sock.sent;
      var ok := SendStr(sock, Frame(codec, m));
      OneMore(codec, base, before, sock.sent, due, m, ok);
      if ok { whole := whole + 1; } else { disconnected := true; }
    }
  }

  /** An attempt to send one more frame, after all those due before. */
  lemma OneMore(c: Codec, base: string, before: string, after: string, due: seq<EventMsg>, m: EventMsg, ok: bool)
    requires base <= before && WellFramed(c, before[|base|..], due, |due|, false)
    requires ok ==> after == before + Frame(c, m)
    requires !ok ==> exists k :: 0 <= k < |Frame(c, m)| && after == before + Frame(c, m)[..k]
    ensures base <= after
    ensures WellFramed(c, after[|base|..], due + [m], if ok then |due| + 1 else |due|, !ok)
  {
    assert due[..|due|] == due && (due + [m])[..|due|] == due && (due + [m])[..|due| + 1] == due + [m];
    var stream := before[|base|..];
    assert stream == Frames(c, due);
    FramesSnoc(c, due, m);
    if ok {
      assert after[|base|..] == stream + Frame(c, m);
    } else {
      var k :| 0 <= k < |Frame(c, m)| && after == before + Frame(c, m)[..k];
      assert after[|base|..] == stream + Frame(c, m)[..k];
    }
  }

  lemma WellFramedLatched(c: Codec, sent: string, due: seq<EventMsg>, whole: nat, m: EventMsg)
    requires WellFramed(c, sent, due, whole, true)
    ensures WellFramed(c, sent, due + [m], whole, true)
  {
    assert (due + [m])[..whole] == due[..whole];
  }

  // ---- the client at the other end ----

  /** The messages that the lines of a stream decode to; lines that do not parse are dropped. */
  function Decoded(c: Codec, lines: seq<string>): seq<EventMsg> {
    if lines == [] then []
    else
      var last := lines[|lines| - 1];
      Decoded(c, lines[..|lines| - 1]) + DecodedLine(c, last)
  }

  function DecodedLine(c: Codec, line: string): seq<EventMsg> {
    if line == "" then [] else match c.dec(line) case Some(m) => [m] case None => []
  }

  lemma DecodedSnoc(c: Codec, lines: seq<string>, line: string)
    ensures Decoded(c, lines + [line]) == Decoded(c, lines) + DecodedLine(c, line)
  {
    assert (lines + [line])[..|lines|] == lines;
  }

  lemma {:induction false} DecodedSplit(c: Codec, all: seq<string>, xs: seq<string>, ys: seq<string>)
    requires all == xs + ys
    ensures Decoded(c, all) == Decoded(c, xs) + Decoded(c, ys)
  {
    if ys == [] {
      assert all == xs;
    } else {
      var front, last := ys[..|ys| - 1], ys[|ys| - 1];
      DecodedSplit(c, all[..|all| - 1], xs, front);
      Associates(Decoded(c, xs), Decoded(c, front), DecodedLine(c, last));
    }
  }

  lemma DecodedAppend(c: Codec, xs: seq<string>, ys: seq<string>)
    ensures Decoded(c, xs + ys) == Decoded(c, xs) + Decoded(c, ys)
  {
    DecodedSplit(c, xs + ys, xs, ys);
  }

  /** ControlClient::streamEvents: however the bytes are cut into reads, the events handed on are those
      of the complete lines, and the rest stays in `leftover`. */
  method StreamEvents(c: Codec, chunks: seq<string>) returns (events: seq<EventMsg>, leftover: string)
    ensures events == Decoded(c, SplitLines(Concat(chunks)).lines)
    ensures leftover == SplitLines(Concat(chunks)).tail
  {
    events, leftover := [], "";
    ghost var got := "";
    for k := 0 to |chunks|
      invariant got + Concat(chunks[k..]) == Concat(chunks)
      invariant leftover == SplitLines(got).tail && events == Decoded(c, SplitLines(got).lines)
    {
      ConcatStep(got, chunks, k);
      ChunkDecodes(c, got, chunks[k]);
      got := got + chunks[k];
      var more;
      more, leftover := DrainLines(c, leftover + chunks[k]);
      events := events + more;
    }
    assert got == Concat(chunks);
  }

  /** A chunk adds the events of the lines that it completes. */
  lemma ChunkDecodes(c: Codec, got: string, chunk: string)
    ensures var s := SplitLines(SplitLines(got).tail + chunk);
      && SplitLines(got + chunk).tail == s.tail
      && Decoded(c, SplitLines(got + chunk).lines) == Decoded(c, SplitLines(got).lines) + Decoded(c, s.lines)
  {
    SplitAppend(got, chunk);
    DecodedAppend(c, SplitLines(got).lines, SplitLines(SplitLines(got).tail + chunk).lines);
  }

  /** The inner loop: take complete lines off the buffer, skip empty ones. */
  method DrainLines(c: Codec, buf: string) returns (events: seq<EventMsg>, leftover: string)
    ensures leftover == SplitLines(buf).tail
    ensures events == Decoded(c, SplitLines(buf).lines)
  {
    events, leftover := [], buf;
    ghost var lines := [];
    var pos := FindNewline(leftover);
    while pos < |leftover|
      invariant 0 <= pos <= |leftover| && NL !in leftover[..pos] && (pos < |leftover| ==> leftover[pos] == NL)
      invariant SplitLines(buf) == Split(lines + SplitLines(leftover).lines, SplitLines(leftover).tail)
      invariant events == Decoded(c, lines)
      decreases |leftover|
    {
      TakeLine(buf, lines, leftover, pos);
      var line := leftover[..pos];
      DecodedSnoc(c, lines, line);
      lines := lines + [line];
      leftover := leftover[pos + 1..];
      pos := FindNewline(leftover);
      if line == "" { continue; }
      var m := c.dec(line);
      if m.Some? { events := events + [m.value]; }
    }
    assert leftover[..pos] == leftover;
    SplitPlain(leftover);
    assert SplitLines(buf).lines == lines;
  }

  /** readLine: one byte at a time up to the first newline or the end of the stream. */
  method ReadLine(bytes: string) returns (line: string)
    ensures NL !in bytes ==> line == bytes
    ensures NL in bytes ==> SplitLines(bytes).lines != [] && line == SplitLines(bytes).lines[0]
  {
    line := "";
    var k := 0;
    while k < |bytes| && bytes[k] != NL
      invariant k <= |bytes| && line == bytes[..k] && NL !in line
    {
      line := line + [bytes[k]];
      k := k + 1;
    }
    if k < |bytes| { SplitFirst(bytes, k); } else { assert bytes[..k] == bytes; }
  }

  // ---- end to end ----

  /** The bytes are complete lines, which decode to the messages. */
  ghost predicate Spells(c: Codec, bytes: string, ms: seq<EventMsg>) {
    SplitLines(bytes).tail == "" && Decoded(c, SplitLines(bytes).lines) == ms
  }

  lemma {:induction false} FramesSplit(c: Codec, ms: seq<EventMsg>)
    requires IsCodec(c)
    ensures Spells(c, Frames(c, ms), ms)
  {
    if ms != [] {
      var front, m := ms[..|ms| - 1], ms[|ms| - 1];
      FramesSplit(c, front);
      FrameAddsLine(c, Frames(c, front), front, m);
      FramesSnoc(c, front, m);
      assert ms == front + [m];
    }
  }

  lemma FramesSnoc(c: Codec, ms: seq<EventMsg>, m: EventMsg)
    ensures Frames(c, ms + [m]) == Frames(c, ms) + Frame(c, m)
  {
    assert (ms + [m])[..|ms|] == ms;
  }

  lemma FrameAddsLine(c: Codec, frames: string, ms: seq<EventMsg>, m: EventMsg)
    requires IsCodec(c) && Spells(c, frames, ms)
    ensures Spells(c, frames + Frame(c, m), ms + [m])
  {
    var line, lines := c.enc(m), SplitLines(frames).lines;
    SplitAppend(frames, Frame(c, m));
    assert "" + Frame(c, m) == Frame(c, m);
    SplitOneLine(line);
    DecodedSnoc(c, lines, line);
  }

  lemma PartAddsNothing(frames: string, part: string)
    requires SplitLines(frames).tail == "" && NL !in part
    ensures SplitLines(frames + part).lines == SplitLines(frames).lines
  {
    SplitPlain(part);
    SplitAppend(frames, part);
    assert "" + part == part;
  }

  lemma WellFramedLines(c: Codec, sent: string, due: seq<EventMsg>, whole: nat, latched: bool)
    requires IsCodec(c) && WellFramed(c, sent, due, whole, latched)
    ensures Decoded(c, SplitLines(sent).lines) == due[..whole]
  {
    var frames := Frames(c, due[..whole]);
    var part := sent[|frames|..];
    FramesSplit(c, due[..whole]);
    assert NL !in part by {
      if whole < |due| {
        assert NL !in c.enc(due[whole]);
        assert forall k :: 0 <= k < |part| ==> part[k] == c.enc(due[whole])[k];
      }
    }
    PartAddsNothing(frames, part);
    assert sent == frames + part;
  }

  /** Whatever the short writes on one side and the reads on the other, and however much of what was sent
      has arrived, the events the client hands on are a prefix of the presses the observer was told of,
      in order; with everything sent arrived, they are those whose frame went out whole. */
  lemma ClientSeesPrefix(c: Codec, sent: string, due: seq<EventMsg>, whole: nat, latched: bool, received: string)
    requires IsCodec(c) && WellFramed(c, sent, due, whole, latched) && received <= sent
    ensures Decoded(c, SplitLines(received).lines) <= due
    ensures received == sent ==> Decoded(c, SplitLines(received).lines) == due[..whole]
    ensures received == sent && !latched ==> Decoded(c, SplitLines(received).lines) == due
  {
    WellFramedLines(c, sent, due, whole, latched);
    SplitPrefix(received, sent);
    DecodedPrefix(c, SplitLines(received).lines, SplitLines(sent).lines);
    assert due[..|due|] == due;
  }

  /** Replies sent before, if the last of them went out whole, only put their own lines before the stream's. */
  lemma AfterReplies(c: Codec, base: string, stream: string)
    requires SplitLines(base).tail == ""
    ensures Decoded(c, SplitLines(base + stream).lines)
      == Decoded(c, SplitLines(base).lines) + Decoded(c, SplitLines(stream).lines)
  {
    SplitAppend(base, stream);
    assert "" + stream == stream;
    DecodedAppend(c, SplitLines(base).lines, SplitLines(stream).lines);
  }

  lemma DecodedPrefix(c: Codec, xs: seq<string>, ys: seq<string>)
    requires xs <= ys
    ensures Decoded(c, xs) <= Decoded(c, ys)
  {
    DecodedAppend(c, xs, ys[|xs|..]);
    assert xs + ys[|xs|..] == ys;
  }
}
