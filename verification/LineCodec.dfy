// There is a codec such as Framing asks for: fields quoted character by character, newlines by a letter.
module LineCodec {
  import opened Common
  import opened Framing

  function Quote(s: string): string {
    if s == "" then "." else (if s[0] == NL then "n" else ['c', s[0]]) + Quote(s[1..])
  }

  /** A quoted field off the front of a line, and what follows it. */
  function Unquote(t: string): Option<(string, string)>
    decreases |t|
  {
    if t == "" then None
    else if t[0] == '.' then Some(("", t[1..]))
    else if t[0] == 'n' then Put(NL, Unquote(t[1..]))
    else if |t| == 1 then None
    else Put(t[1], Unquote(t[2..]))
  }

  function Put(c: char, field: Option<(string, string)>): Option<(string, string)> {
    match field
    case None => None
    case Some((s, rest)) => Some(([c] + s, rest))
  }

  lemma {:induction false} QuoteIsRead(s: string, rest: string)
    ensures Unquote(Quote(s) + rest) == Some((s, rest))
  {
    var t := Quote(s) + rest;
    if s == "" {
      assert t[1..] == rest;
    } else {
      QuoteIsRead(s[1..], rest);
      assert t[if s[0] == NL then 1 else 2..] == Quote(s[1..]) + rest;
      assert [s[0]] + s[1..] == s;
    }
  }

  lemma {:induction false} QuoteIsOneLine(s: string)
    ensures NL !in Quote(s) && Quote(s) != ""
  {
    if s != "" { QuoteIsOneLine(s[1..]); }
  }

  function CodeText(code: int): string {
    if code < 0 then "-" + seq(-code, _ => 'i') else seq(code, _ => 'i')
  }

  function CodeOf(text: string): int {
    if text != "" && text[0] == '-' then 1 - |text| else |text|
  }

  function Line(fields: seq<string>): string {
    if fields == [] then "" else Quote(fields[0]) + Line(fields[1..])
  }

  function Fields(line: string, n: nat): (f: Option<seq<string>>)
    ensures f.Some? ==> |f.value| == n
    decreases n
  {
    if n == 0 then Some([])
    else match Unquote(line)
      case None => None
      case Some((s, rest)) =>
        match Fields(rest, n - 1)
        case None => None
        case Some(fs) => Some([s] + fs)
  }

  lemma {:induction false} LineIsRead(fields: seq<string>)
    ensures Fields(Line(fields), |fields|) == Some(fields)
    ensures NL !in Line(fields) && (fields != [] ==> Line(fields) != "")
  {
    if fields != [] {
      LineIsRead(fields[1..]);
      QuoteIsRead(fields[0], Line(fields[1..]));
      QuoteIsOneLine(fields[0]);
      assert [fields[0]] + fields[1..] == fields;
    }
  }

  function Enc(m: EventMsg): string {
    Line([m.device, m.path, m.key, m.command, CodeText(m.code)])
  }

  function Dec(line: string): Option<EventMsg> {
    match Fields(line, 5)
    case None => None
    case Some(f) => Some(EventMsg(f[0], f[1], f[2], CodeOf(f[4]), f[3]))
  }

  lemma ThereIsACodec()
    ensures IsCodec(Codec(Enc, Dec))
  {
    forall m ensures Dec(Enc(m)) == Some(m) && NL !in Enc(m) && Enc(m) != "" {
      LineIsRead([m.device, m.path, m.key, m.command, CodeText(m.code)]);
    }
  }
}
