/** The dynamically typed values that the program's dictionaries hold, and the
    Python conversions (`bool`, `int`, `str`, `strip`) applied to them. */
module Values {
  datatype Option<+T> = None | Some(value: T)

  function OrElse<T>(o: Option<T>, default: T): T {
    match o
    case Some(v) => v
    case None => default
  }

  datatype Value = Null | Flag(b: bool) | Num(n: int) | Str(s: string)

  predicate Truthy(v: Value) {
    match v
    case Null => false
    case Flag(b) => b
    case Num(n) => n != 0
    case Str(s) => s != ""
  }

  function Max(a: int, b: int): int { if a < b then b else a }

  function Digits(n: nat): string {
    var last := [('0' as int + n % 10) as char];
    if n < 10 then last else Digits(n / 10) + last
  }

  /** Python's `str(value)`. */
  function ToText(v: Value): string {
    match v
    case Null => "None"
    case Flag(b) => if b then "True" else "False"
    case Num(n) => if n < 0 then "-" + Digits(-n) else Digits(n)
    case Str(s) => s
  }

  predicate IsSpace(c: char) { c == ' ' || '\t' <= c <= '\r' }

  /** Python's `strip` and JavaScript's `trim`, over the ASCII white space. */
  function Trim(s: string): string {
    if s == "" then ""
    else if IsSpace(s[0]) then Trim(s[1..])
    else if IsSpace(s[|s| - 1]) then Trim(s[..|s| - 1])
    else s
  }

  lemma {:induction false} TrimIsTight(s: string)
    ensures Trim(Trim(s)) == Trim(s)
    ensures Trim(s) == "" || (!IsSpace(Trim(s)[0]) && !IsSpace(Trim(s)[|Trim(s)| - 1]))
  {
    if s == "" {
    } else {
      if IsSpace(s[0]) {
        TrimIsTight(s[1..]);
      } else if IsSpace(s[|s| - 1]) {
        TrimIsTight(s[..|s| - 1]);
      }
    }
  }

  predicate IsDigit(c: char) { '0' <= c <= '9' }

  function ParseDigits(s: string): Option<int> {
    if s == "" then None
    else if !IsDigit(s[|s| - 1]) then None
    else
      var d := s[|s| - 1] as int - '0' as int;
      if |s| == 1 then Some(d)
      else
        match ParseDigits(s[..|s| - 1])
        case None => None
        case Some(n) => Some(10 * n + d)
  }

  /** Python's `int(value)`; `None` where it raises. */
  function ToInt(v: Value): Option<int> {
    match v
    case Null => None
    case Flag(b) => Some(if b then 1 else 0)
    case Num(n) => Some(n)
    case Str(s) =>
      var t := Trim(s);
      if t != "" && (t[0] == '-' || t[0] == '+') then
        match ParseDigits(t[1..])
        case None => None
        case Some(n) => Some(if t[0] == '-' then -n else n)
      else ParseDigits(t)
  }

  /** `_text_value`: the trimmed text of a value, empty for a missing one. */
  function TextValue(v: Value): string {
    if v.Null? then "" else Trim(ToText(v))
  }
}
