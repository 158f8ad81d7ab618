// The text form of an event between the bridge and the browser: formatEventLine in frontend/main.cpp,
// parseEventLine in frontend/webui/app.js.
module EventLines {
  import opened Common

  const ARROW: char := '\U{2192}'

  /** White space as the browser's trim and \s have it. */
  predicate IsSpace(c: char) {
    || c == ' ' || '\t' <= c <= '\r' || c == '\U{00A0}' || c == '\U{1680}'
    || '\U{2000}' <= c <= '\U{200A}' || c == '\U{2028}' || c == '\U{2029}'
    || c == '\U{202F}' || c == '\U{205F}' || c == '\U{3000}' || c == '\U{FEFF}'
  }

  function TrimStart(s: string): string {
    if s != "" && IsSpace(s[0]) then TrimStart(s[1..]) else s
  }

  function TrimEnd(s: string): string {
    if s != "" && IsSpace(s[|s| - 1]) then TrimEnd(s[..|s| - 1]) else s
  }

  function Trim(s: string): string {
    TrimEnd(TrimStart(s))
  }

  predicate Trimmed(s: string) {
    s == "" || (!IsSpace(s[0]) && !IsSpace(s[|s| - 1]))
  }

  predicate NoSpace(s: string) {
    forall i :: 0 <= i < |s| ==> !IsSpace(s[i])
  }

  function IndexOf(s: string, c: char, from: nat): (i: int)
    ensures -1 <= i < |s|
    ensures i >= 0 ==> from <= i && s[i] == c && c !in s[from..i]
    ensures i < 0 && from <= |s| ==> c !in s[from..]
    decreases |s| - from
  {
    if from >= |s| then -1 else if s[from] == c then from
    else
      var i := IndexOf(s, c, from + 1);
      assert i >= 0 ==> s[from..i] == [s[from]] + s[from + 1..i];
      assert s[from..] == [s[from]] + s[from + 1..];
      i
  }

  /** The first white space, or -1. */
  function FirstSpace(s: string, from: nat): (i: int)
    requires from <= |s|
    ensures -1 <= i < |s|
    ensures i >= 0 ==> from <= i && IsSpace(s[i]) && NoSpace(s[from..i])
    ensures i < 0 ==> NoSpace(s[from..])
    decreases |s| - from
  {
    if from == |s| then -1 else if IsSpace(s[from]) then from
    else
      var i := FirstSpace(s, from + 1);
      assert i >= 0 ==> s[from..i] == [s[from]] + s[from + 1..i];
      assert s[from..] == [s[from]] + s[from + 1..];
      i
  }

  datatype KeyState = Down | Up

  datatype Parsed = Parsed(device: string, key: string, command: string, state: Option<KeyState>)

  function Format(device: string, key: string, command: string): string {
    "[" + device + "] " + key + CommandPart(command)
  }

  function CommandPart(command: string): string {
    if command == "" then "" else "  " + [ARROW] + "  " + command
  }

  function Lower(c: char): char {
    if 'A' <= c <= 'Z' then c + 32 as char else c
  }

  predicate IsWordChar(c: char) {
    'a' <= Lower(c) <= 'z' || '0' <= c <= '9' || c == '_'
  }

  /** The word, in any case, ending at a word boundary. */
  predicate Begins(s: string, word: string) {
    && |word| <= |s|
    && (forall i :: 0 <= i < |word| ==> Lower(s[i]) == word[i])
    && (|word| == |s| || !IsWordChar(s[|word|]))
  }

  /** The state word that some daemon builds print after the key, and its length. */
  function StateWord(s: string): Option<(nat, KeyState)> {
    if Begins(s, "down") then Some((4, Down))
    else if Begins(s, "up") then Some((2, Up))
    else if Begins(s, "pressed") then Some((7, Down))
    else if Begins(s, "press") then Some((5, Down))
    else if Begins(s, "released") then Some((8, Up))
    else if Begins(s, "release") then Some((7, Up))
    else None
  }

  function Parse(line: string): Option<Parsed> {
    match Brackets(line)
    case None => None
    case Some((device, rest)) =>
      if rest == "" then None else Some(ParseRest(device, KeyAndMore(rest).0, KeyAndMore(rest).1))
  }

  /** The device between the first brackets, and what follows them, both trimmed. */
  function Brackets(line: string): Option<(string, string)> {
    var lb := IndexOf(line, '[', 0);
    if lb < 0 then None else
    var rb := IndexOf(line, ']', lb);
    if rb < 0 then None else Some((Trim(line[lb + 1..rb]), Trim(line[rb + 1..])))
  }

  /** The key up to the first white space, and what follows it, trimmed. */
  function KeyAndMore(rest: string): (string, string) {
    var sp := FirstSpace(rest, 0);
    if sp < 0 then (rest, "") else (rest[..sp], Trim(rest[sp..]))
  }

  /** What follows the key: an optional state word, then an arrow and the command. */
  function ParseRest(device: string, key: string, rest: string): Parsed {
    match StateWord(rest)
    case None => Parsed(device, key, CommandIn(rest), None)
    case Some((n, state)) =>
      Parsed(device, key, CommandIn(Trim(rest[if n <= |rest| then n else |rest|..])), Some(state))
  }

  function CommandIn(rest: string): string {
    var arrow := IndexOf(rest, ARROW, 0);
    if arrow < 0 then "" else Trim(rest[arrow + 1..])
  }

  // ---- trimming ----

  predicate AllSpace(s: string) {
    forall i :: 0 <= i < |s| ==> IsSpace(s[i])
  }

  lemma {:induction false} TrimStartIs(s: string) returns (i: nat)
    ensures i <= |s| && TrimStart(s) == s[i..] && AllSpace(s[..i])
    ensures TrimStart(s) != "" ==> !IsSpace(TrimStart(s)[0])
  {
    i := 0;
    if s != "" && IsSpace(s[0]) {
      var j := TrimStartIs(s[1..]);
      i := j + 1;
      assert s[1..][j..] == s[i..];
      forall k | 0 <= k < i ensures IsSpace(s[k]) {
        if k > 0 { assert s[k] == s[1..][..j][k - 1]; }
      }
    }
  }

  lemma {:induction false} TrimEndIs(s: string) returns (j: nat)
    ensures j <= |s| && TrimEnd(s) == s[..j] && AllSpace(s[j..])
    ensures TrimEnd(s) != "" ==> !IsSpace(TrimEnd(s)[|TrimEnd(s)| - 1])
  {
    j := |s|;
    if s != "" && IsSpace(s[|s| - 1]) {
      var front := s[..|s| - 1];
      j := TrimEndIs(front);
      assert front[..j] == s[..j];
      forall k | j <= k < |s| ensures IsSpace(s[k]) {
        if k < |s| - 1 { assert s[k] == front[j..][k - j]; }
      }
    }
  }

  /** Trimming takes off outer white space, all of it and nothing else. */
  lemma TrimIs(s: string) returns (i: nat, j: nat)
    ensures i <= j <= |s| && Trim(s) == s[i..j]
    ensures AllSpace(s[..i]) && AllSpace(s[j..]) && Trimmed(Trim(s))
  {
    i := TrimStartIs(s);
    var k := TrimEndIs(s[i..]);
    j := i + k;
    assert s[i..][..k] == s[i..j] && s[i..][k..] == s[j..];
  }

  lemma {:induction false} TrimPadded(pad: string, body: string)
    requires (forall i :: 0 <= i < |pad| ==> IsSpace(pad[i])) && Trimmed(body)
    ensures Trim(pad + body) == body
  {
    if pad == "" {
      assert pad + body == body;
    } else {
      TrimPadded(pad[1..], body);
      assert (pad + body)[1..] == pad[1..] + body;
    }
  }

  // ---- printing and parsing ----

  /** What survives the trip: no "]" and no outer space in the device, a key without space,
      no outer space in the command. Arrows, brackets and state words in the command do no harm. */
  predicate Printable(device: string, key: string, command: string) {
    && ']' !in device && Trimmed(device)
    && key != "" && NoSpace(key)
    && Trimmed(command)
  }

  lemma BracketsTrimmed(line: string)
    ensures Brackets(line).Some? ==>
      ']' !in Brackets(line).value.0 && Trimmed(Brackets(line).value.0) && Trimmed(Brackets(line).value.1)
  {
    var lb := IndexOf(line, '[', 0);
    if lb >= 0 {
      var rb := IndexOf(line, ']', lb);
      if rb >= 0 {
        assert line[lb..rb] == [line[lb]] + line[lb + 1..rb];
        var i, j := TrimIs(line[lb + 1..rb]);
        var _, _ := TrimIs(line[rb + 1..]);
      }
    }
  }

  lemma KeyIsPlain(rest: string)
    requires rest != "" && Trimmed(rest)
    ensures KeyAndMore(rest).0 != "" && NoSpace(KeyAndMore(rest).0)
  {
    var sp := FirstSpace(rest, 0);
    assert rest[0..] == rest;
    if sp >= 0 { assert rest[0..sp] == rest[..sp]; }
  }

  /** Whatever it is given, the parser only ever yields printable parts. */
  lemma ParsedIsPrintable(line: string)
    ensures Parse(line).Some? ==>
      var p := Parse(line).value;
      Printable(p.device, p.key, p.command)
  {
    BracketsTrimmed(line);
    match Brackets(line)
    case None =>
    case Some((device, rest)) =>
      if rest != "" {
        KeyIsPlain(rest);
        ParsedCommandTrimmed(device, KeyAndMore(rest).0, KeyAndMore(rest).1);
      }
  }

  lemma ParsedCommandTrimmed(device: string, key: string, rest: string)
    ensures var p := ParseRest(device, key, rest);
      p.device == device && p.key == key && Trimmed(p.command)
  {
    forall s ensures Trimmed(CommandIn(s)) {
      var arrow := IndexOf(s, ARROW, 0);
      if arrow >= 0 { var _, _ := TrimIs(s[arrow + 1..]); }
    }
  }

  lemma ArrowIsNoStateWord(s: string)
    requires s == "" || s[0] == ARROW
    ensures StateWord(s) == None
  {
  }

  lemma CommandAfterArrow(command: string)
    requires Trimmed(command)
    ensures CommandIn([ARROW] + "  " + command) == command
  {
    var s := [ARROW] + "  " + command;
    assert IndexOf(s, ARROW, 0) == 0;
    assert s[1..] == "  " + command;
    TrimPadded("  ", command);
  }

  lemma {:induction false} IndexOfIs(s: string, c: char, from: nat, k: nat)
    requires from <= k < |s| && s[k] == c && forall i :: from <= i < k ==> s[i] != c
    ensures IndexOf(s, c, from) == k
    decreases k - from
  {
    if from < k { IndexOfIs(s, c, from + 1, k); }
  }

  lemma {:induction false} FirstSpaceIs(s: string, from: nat, k: nat)
    requires from <= k <= |s| && (forall i :: from <= i < k ==> !IsSpace(s[i])) && (k < |s| ==> IsSpace(s[k]))
    ensures FirstSpace(s, from) == if k < |s| then k else -1
    decreases k - from
  {
    if from < k { FirstSpaceIs(s, from + 1, k); }
  }

  lemma KeyThenSpace(key: string, more: string)
    requires NoSpace(key) && (more != "" ==> IsSpace(more[0]))
    ensures KeyAndMore(key + more) == (key, Trim(more))
  {
    FirstSpaceIs(key + more, 0, |key|);
    if more == "" {
      assert key + more == key;
    } else {
      assert (key + more)[..|key|] == key && (key + more)[|key|..] == more;
    }
  }

  lemma BodySplits(key: string, command: string)
    requires key != "" && NoSpace(key) && Trimmed(command)
    ensures Trimmed(key + CommandPart(command))
    ensures KeyAndMore(key + CommandPart(command)) == (key, if command == "" then "" else [ARROW] + "  " + command)
  {
    KeyThenSpace(key, CommandPart(command));
    if command == "" {
      assert key + "" == key;
    } else {
      var after := [ARROW] + "  " + command;
      assert CommandPart(command) == "  " + after;
      TrimPadded("  ", after);
    }
  }

  lemma RestParses(device: string, key: string, command: string)
    requires Trimmed(command)
    ensures ParseRest(device, key, if command == "" then "" else [ARROW] + "  " + command)
      == Parsed(device, key, command, None)
  {
    if command == "" {
      ArrowIsNoStateWord("");
    } else {
      ArrowIsNoStateWord([ARROW] + "  " + command);
      CommandAfterArrow(command);
    }
  }

  lemma LineSplits(device: string, body: string)
    requires ']' !in device && Trimmed(device) && Trimmed(body)
    ensures Brackets("[" + device + "] " + body) == Some((device, body))
  {
    var line, rb := "[" + device + "] " + body, |device| + 1;
    IndexOfIs(line, '[', 0, 0);
    assert forall i :: 1 <= i < rb ==> line[i] == device[i - 1];
    IndexOfIs(line, ']', 0, rb);
    assert line[1..rb] == "" + device && line[rb + 1..] == " " + body;
    TrimPadded(" ", body);
    TrimPadded("", device);
  }

  lemma PrintableParses(device: string, key: string, command: string)
    requires Printable(device, key, command)
    ensures Parse(Format(device, key, command)) == Some(Parsed(device, key, command, None))
  {
    var body := key + CommandPart(command);
    Associates("[" + device + "] ", key, CommandPart(command));
    BodySplits(key, command);
    LineSplits(device, body);
    RestParses(device, key, command);
  }

  /** An event survives being printed and parsed, with no state, exactly when it is printable. */
  lemma RoundTripIff(device: string, key: string, command: string)
    ensures Parse(Format(device, key, command)) == Some(Parsed(device, key, command, None))
      <==> Printable(device, key, command)
  {
    ParsedIsPrintable(Format(device, key, command));
    if Printable(device, key, command) { PrintableParses(device, key, command); }
  }

  /** A device id with a bracket is cut at it, so such an event does not survive. */
  lemma BracketInTheDevice()
    ensures !Printable("a]b", "KEY_A", "")
    ensures Parse(Format("a]b", "KEY_A", "")) != Some(Parsed("a]b", "KEY_A", "", None))
  {
    assert "a]b"[1] == ']';
    RoundTripIff("a]b", "KEY_A", "");
  }

  // ---- the text itself ----

  /** A line as it stands, with a right arrow before the command. */
  lemma FormatIs(device: string, key: string, command: string)
    ensures Format(device, key, "") == "[" + device + "] " + key
    ensures command != "" ==> Format(device, key, command) == "[" + device + "] " + key + "  \U{2192}  " + command
  {
    if command == "" {
      assert ("[" + device + "] " + key) + "" == "[" + device + "] " + key;
    } else {
      Associates("[" + device + "] " + key, "  \U{2192}  ", command);
      assert CommandPart(command) == "  \U{2192}  " + command;
      assert Format(device, key, "") == "[" + device + "] " + key + "";
    }
  }

  lemma IsSpaceIs(c: char)
    ensures IsSpace(c) <==>
      || c as int in {9, 10, 11, 12, 13, 32, 0xA0, 0x1680, 0x2028, 0x2029, 0x202F, 0x205F, 0x3000, 0xFEFF}
      || 0x2000 <= c as int <= 0x200A
  {
  }

  /** A line without brackets, or with nothing after them, is no event. */
  lemma NoEvent(line: string, device: string)
    ensures '[' !in line || ']' !in line ==> Parse(line) == None
    ensures ']' !in device && Trimmed(device) ==> Parse("[" + device + "] ") == None
  {
    if ']' !in device && Trimmed(device) {
      LineSplits(device, "");
      assert "[" + device + "] " + "" == "[" + device + "] ";
    }
    if '[' !in line { assert line[0..] == line; }
  }

  predicate IsWord(w: string) {
    w != "" && forall i :: 0 <= i < |w| ==> 'a' <= w[i] <= 'z'
  }

  lemma BeginsIff(word: string, tail: string, w: string)
    requires IsWord(word) && IsWord(w) && (tail != "" ==> tail[0] == ' ')
    ensures Begins(word + tail, w) <==> word == w
  {
    var s := word + tail;
    assert forall i :: 0 <= i < |word| ==> s[i] == word[i] && IsWordChar(s[i]);
    assert |word| < |s| ==> s[|word|] == ' ';
    assert Begins(s, w) ==> |w| == |word| && forall i :: 0 <= i < |w| ==> word[i] == w[i];
  }

  lemma WordsAre()
    ensures IsWord("down") && IsWord("up") && IsWord("press") && IsWord("pressed")
    ensures IsWord("release") && IsWord("released")
  {
  }

  lemma StateWordIs(word: string, tail: string)
    requires word in {"down", "press", "pressed", "up", "release", "released"} && (tail != "" ==> tail[0] == ' ')
    ensures StateWord(word + tail) == Some((|word|, if word in {"down", "press", "pressed"} then Down else Up))
  {
    WordsAre();
    BeginsIff(word, tail, "down");
    BeginsIff(word, tail, "up");
    BeginsIff(word, tail, "pressed");
    BeginsIff(word, tail, "press");
    BeginsIff(word, tail, "released");
    BeginsIff(word, tail, "release");
  }

  /** State words count in any case, and only as whole words. */
  lemma StateWordExamples(tail: string, c: char)
    requires tail != "" ==> tail[0] == ' '
    ensures StateWord("DOWN") == Some((4, Down)) && StateWord("Released") == Some((8, Up))
    ensures 'a' <= c <= 'z' || 'A' <= c <= 'Z' || '0' <= c <= '9' || c == '_' ==> !Begins("down" + [c] + tail, "down")
    ensures !Begins("dow" + tail, "down")
  {
    var s := "dow" + tail;
    assert "down"[3] == 'n' && (tail != "" ==> s[3] == ' ');
    assert |tail| == 0 ==> |s| == 3;
  }

  lemma ParseVia(line: string, device: string, rest: string, key: string, more: string)
    requires Brackets(line) == Some((device, rest)) && rest != "" && KeyAndMore(rest) == (key, more)
    ensures Parse(line) == Some(ParseRest(device, key, more))
  {
  }

  /** A state word between key and command is read as the state: down for a press, up for a release. */
  lemma StateIsRead(device: string, key: string, word: string, command: string)
    requires Printable(device, key, command)
    requires word in {"down", "press", "pressed", "up", "release", "released"}
    ensures Parse("[" + device + "] " + (key + (" " + (word + CommandPart(command))))) ==
      Some(Parsed(device, key, command, Some(if word in {"down", "press", "pressed"} then Down else Up)))
  {
    var rest := word + CommandPart(command);
    var body := key + (" " + rest);
    RestWithState(word, command);
    KeyThenSpace(key, " " + rest);
    TrimPadded(" ", rest);
    LineSplits(device, body);
    ParseVia("[" + device + "] " + body, device, body, key, rest);
    RestWithStateParses(device, key, word, command);
  }

  lemma RestWithStateParses(device: string, key: string, word: string, command: string)
    requires word in {"down", "press", "pressed", "up", "release", "released"} && Trimmed(command)
    ensures ParseRest(device, key, word + CommandPart(command)) ==
      Parsed(device, key, command, Some(if word in {"down", "press", "pressed"} then Down else Up))
  {
    StateWordIs(word, CommandPart(command));
    assert (word + CommandPart(command))[|word|..] == CommandPart(command);
    CommandPartParses(command);
  }

  lemma RestWithState(word: string, command: string)
    requires word in {"down", "press", "pressed", "up", "release", "released"} && Trimmed(command)
    ensures Trimmed(word + CommandPart(command))
    ensures forall key :: key != "" && NoSpace(key) ==> Trimmed(key + (" " + (word + CommandPart(command))))
  {
    assert !IsSpace(word[0]) && !IsSpace(word[|word| - 1]) by {
      assert "down"[0] == 'd' && "up"[0] == 'u' && "press"[0] == 'p' && "release"[0] == 'r';
      assert "down"[3] == 'n' && "up"[1] == 'p' && "press"[4] == 's' && "release"[6] == 'e';
      assert "pressed"[6] == 'd' && "released"[7] == 'd' && "pressed"[0] == 'p' && "released"[0] == 'r';
    }
  }

  lemma CommandPartParses(command: string)
    requires Trimmed(command)
    ensures CommandIn(Trim(CommandPart(command))) == command
  {
    if command != "" {
      var after := [ARROW] + "  " + command;
      assert CommandPart(command) == "  " + after;
      TrimPadded("  ", after);
      CommandAfterArrow(command);
    }
  }
}
