/** The JSON texts the chat stream carries: one-field objects whose value is a string or
    `true`. The printer escapes as Python's `json.dumps(..., ensure_ascii=False)` does;
    the reader accepts the escapes of section 7 of RFC 8259. */
module Json {
  import opened Values

  datatype Payload = Text(text: string) | Yes

  datatype Object = Object(name: string, value: Payload)

  function HexDigit(n: nat): char
    requires n < 16
  {
    if n < 10 then ('0' as int + n) as char else ('a' as int + n - 10) as char
  }

  function HexValue(c: char): Option<nat> {
    if '0' <= c <= '9' then Some(c as int - '0' as int)
    else if 'a' <= c <= 'f' then Some(c as int - 'a' as int + 10)
    else if 'A' <= c <= 'F' then Some(c as int - 'A' as int + 10)
    else None
  }

  function EscapeChar(c: char): string {
    if c == '"' then ['\\', '"']
    else if c == '\\' then ['\\', '\\']
    else if c == '\n' then ['\\', 'n']
    else if c == '\r' then ['\\', 'r']
    else if c == '\t' then ['\\', 't']
    else if c == 8 as char then ['\\', 'b']
    else if c == 12 as char then ['\\', 'f']
    else if c < ' ' then ['\\', 'u', '0', '0', HexDigit(c as int / 16), HexDigit(c as int % 16)]
    else [c]
  }

  function Escape(s: string): string {
    if s == "" then "" else EscapeChar(s[0]) + Escape(s[1..])
  }

  function Quoted(s: string): string { ['"'] + Escape(s) + ['"'] }

  function Literal(v: Payload): string {
    match v
    case Text(t) => Quoted(t)
    case Yes => "true"
  }

  function Write(o: Object): string {
    ['{'] + Quoted(o.name) + [':', ' '] + Literal(o.value) + ['}']
  }

  // ---------------------------------------------------------------- reading it back

  function SimpleEscape(c: char): Option<char> {
    if c == '"' || c == '\\' || c == '/' then Some(c)
    else if c == 'n' then Some('\n')
    else if c == 'r' then Some('\r')
    else if c == 't' then Some('\t')
    else if c == 'b' then Some(8 as char)
    else if c == 'f' then Some(12 as char)
    else None
  }

  function HexEscape(a: char, b: char, c: char, d: char): Option<char> {
    var (w, x, y, z) := (HexValue(a), HexValue(b), HexValue(c), HexValue(d));
    if w.None? || x.None? || y.None? || z.None? then None
    else
      var code := ((w.value * 16 + x.value) * 16 + y.value) * 16 + z.value;
      if code < 0xD800 then Some(code as char) else None
  }

  /** The first character of a string literal's inside, and how much of it was read. */
  function ReadChar(s: string): Option<(char, nat)>
    requires s != ""
    ensures ReadChar(s).Some? ==> 1 <= ReadChar(s).value.1 <= |s|
  {
    if s[0] == '\\' then
      if |s| < 2 then None
      else if s[1] == 'u' then
        if |s| < 6 then None
        else
          var c := HexEscape(s[2], s[3], s[4], s[5]);
          if c.Some? then Some((c.value, 6)) else None
      else
        var c := SimpleEscape(s[1]);
        if c.Some? then Some((c.value, 2)) else None
    else if s[0] < ' ' || s[0] == '"' then None
    else Some((s[0], 1))
  }

  /** The text up to the closing quote, and what follows the quote. */
  function ReadText(s: string): Option<(string, string)>
    ensures ReadText(s).Some? ==> |ReadText(s).value.1| < |s|
    decreases |s|
  {
    if s == "" then None
    else if s[0] == '"' then Some(("", s[1..]))
    else
      var c := ReadChar(s);
      if c.None? then None
      else
        var rest := ReadText(s[c.value.1..]);
        if rest.None? then None else Some(([c.value.0] + rest.value.0, rest.value.1))
  }

  function ReadLiteral(s: string): Option<(Payload, string)> {
    if s != "" && s[0] == '"' then
      var t := ReadText(s[1..]);
      if t.None? then None else Some((Text(t.value.0), t.value.1))
    else if "true" <= s then Some((Yes, s[4..]))
    else None
  }

  function Read(s: string): Option<Object> {
    if |s| < 2 || s[0] != '{' || s[1] != '"' then None
    else
      var name := ReadText(s[2..]);
      if name.None? || name.value.1 == "" || name.value.1[0] != ':' then None
      else
        var v := ReadLiteral(Trim(name.value.1[1..]));
        if v.None? || v.value.1 != ['}'] then None
        else Some(Object(name.value.0, v.value.0))
  }

  // ---------------------------------------------------------------- the round trip

  lemma HexRoundTrip(n: nat)
    requires n < 16
    ensures HexValue(HexDigit(n)) == Some(n)
  {
  }

  lemma {:induction false} CharRoundTrip(c: char, rest: string)
    ensures ReadChar(EscapeChar(c) + rest) == Some((c, |EscapeChar(c)|))
    ensures EscapeChar(c)[0] != '"'
  {
    if c < ' ' {
      HexRoundTrip(c as int / 16);
      HexRoundTrip(c as int % 16);
    }
    var s := EscapeChar(c) + rest;
    assert forall i | 0 <= i < |EscapeChar(c)| :: s[i] == EscapeChar(c)[i];
  }

  lemma {:induction false} TextRoundTrip(t: string, rest: string)
    ensures ReadText(Escape(t) + ['"'] + rest) == Some((t, rest))
  {
    var s := Escape(t) + ['"'] + rest;
    if t == "" {
      assert s[1..] == rest;
    } else {
      var e, tail := EscapeChar(t[0]), Escape(t[1..]) + ['"'] + rest;
      assert s == e + tail;
      CharRoundTrip(t[0], tail);
      assert s[0] == e[0];
      assert s[|e|..] == tail;
      TextRoundTrip(t[1..], rest);
      assert [t[0]] + t[1..] == t;
    }
  }

  lemma {:induction false} LiteralRoundTrip(v: Payload)
    ensures ReadLiteral(Literal(v) + ['}']) == Some((v, ['}']))
    ensures Literal(v) != "" && !IsSpace(Literal(v)[0])
  {
    var s := Literal(v) + ['}'];
    match v
    case Text(t) =>
      TextRoundTrip(t, ['}']);
      assert s[1..] == Escape(t) + ['"'] + ['}'];
    case Yes =>
      assert s[4..] == ['}'];
  }

  lemma {:induction false} TrimOfTight(s: string)
    requires s == "" || (!IsSpace(s[0]) && !IsSpace(s[|s| - 1]))
    ensures Trim(s) == s
    ensures Trim([' '] + s) == s
  {
    assert ([' '] + s)[1..] == s;
  }

  /** Reading what was written gives back the object. */
  lemma {:induction false} RoundTrip(o: Object)
    ensures Read(Write(o)) == Some(o)
  {
    var s := Write(o);
    var value := Literal(o.value) + ['}'];
    var rest := [':', ' '] + value;
    assert s[2..] == Escape(o.name) + ['"'] + rest;
    TextRoundTrip(o.name, rest);
    LiteralRoundTrip(o.value);
    assert rest[1..] == [' '] + value;
    TrimOfTight(value);
  }

  predicate NoControl(s: string) { forall i | 0 <= i < |s| :: s[i] >= ' ' }

  lemma {:induction false} EscapeHasNoControl(s: string)
    ensures NoControl(Escape(s))
  {
    if s == "" {
    } else {
      EscapeHasNoControl(s[1..]);
      assert NoControl(EscapeChar(s[0]));
    }
  }

  /** A JSON text holds no control character, so no line break. */
  lemma {:induction false} WriteHasNoControl(o: Object)
    ensures NoControl(Write(o))
    ensures Write(o)[0] == '{' && Write(o)[|Write(o)| - 1] == '}'
  {
    EscapeHasNoControl(o.name);
    if o.value.Text? { EscapeHasNoControl(o.value.text); }
  }
}
