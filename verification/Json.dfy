/** Contract documents: the strict JSON subset (sections 4, 6 and 7 of RFC 8259, ASCII strings and bounded
    integers only), its canonical text, and the round trip between them. */
module Json {
  import opened Decimal
  import opened Ordering

  const MAX_SAFE: int := 9007199254740992

  datatype Field = Field(key: string, value: Json)

  type Fields = seq<Field>

  /** Objects keep their fields by ascending key. */
  datatype Json =
    | Null | Boolean(truth: bool) | Integer(number: int) | Text(text: string) | Array(items: seq<Json>) | Object(fields: Fields)

  datatype Option<+T> = None | Some(value: T)

  // ----------------------------------------------------------------- representable values

  predicate Ascii(s: string) {
    forall i :: 0 <= i < |s| ==> s[i] as int < 0x80
  }

  predicate Sorted(f: Fields) {
    forall i, j :: 0 <= i < j < |f| ==> Less(f[i].key, f[j].key)
  }

  predicate Representable(v: Json) {
    match v
    case Integer(n) => -MAX_SAFE <= n <= MAX_SAFE
    case Text(s) => Ascii(s)
    case Array(items) => forall i :: 0 <= i < |items| ==> Representable(items[i])
    case Object(f) => Sorted(f) && forall i :: 0 <= i < |f| ==> f[i].key != "" && Ascii(f[i].key) && Representable(f[i].value)
    case _ => true
  }

  // ---------------------------------------------------------------------- canonical text

  const HEX := "0123456789abcdef"

  function EscapeChar(c: char): string {
    if c == '\"' then "\\\""
    else if c == '\\' then "\\\\"
    else if c == 8 as char then "\\b"
    else if c == 12 as char then "\\f"
    else if c == '\n' then "\\n"
    else if c == '\r' then "\\r"
    else if c == '\t' then "\\t"
    else if c as int < 0x20 then "\\u00" + [HEX[c as int / 16], HEX[c as int % 16]]
    else [c]
  }

  function Escaped(s: string): string {
    if s == "" then "" else EscapeChar(s[0]) + Escaped(s[1..])
  }

  function Quoted(s: string): string { "\"" + Escaped(s) + "\"" }

  function Signed(n: int): string {
    if n < 0 then "-" + Numeral(-n) else Numeral(n)
  }

  function Canonical(v: Json): string
    decreases v
  {
    match v
    case Null => "null"
    case Boolean(b) => if b then "true" else "false"
    case Integer(n) => Signed(n)
    case Text(s) => Quoted(s)
    case Array(items) => "[" + Joined(items) + "]"
    case Object(f) => "{" + JoinedFields(f) + "}"
  }

  function Joined(items: seq<Json>): string
    decreases items
  {
    if items == [] then ""
    else Canonical(items[0]) + (if |items| > 1 then "," + Joined(items[1..]) else "")
  }

  function JoinedFields(f: Fields): string
    decreases f
  {
    if f == [] then ""
    else Quoted(f[0].key) + ":" + Canonical(f[0].value) + (if |f| > 1 then "," + JoinedFields(f[1..]) else "")
  }

  // -------------------------------------------------------------------------- the grammar
  // Each function reads a prefix of its input and returns what is left.

  type Read<T> = Option<(T, string)>

  predicate Blank(c: char) { c == ' ' || c == '\t' || c == '\n' || c == '\r' }

  function Skip(s: string): (r: string)
    ensures |r| <= |s| && (r == "" || !Blank(r[0]))
  {
    if s == "" || !Blank(s[0]) then s else Skip(s[1..])
  }

  function Literal(s: string, word: string): Option<string> {
    if word <= s then Some(s[|word|..]) else None
  }

  predicate Digit(c: char) { '0' <= c <= '9' }

  function HexDigit(c: char): Option<nat> {
    if Digit(c) then Some(c as int - '0' as int)
    else if 'a' <= c <= 'f' then Some(c as int - 'a' as int + 10)
    else if 'A' <= c <= 'F' then Some(c as int - 'A' as int + 10)
    else None
  }

  function HexQuad(s: string, n: nat, so: nat): Read<nat>
    decreases n
  {
    if n == 0 then Some((so, s))
    else if s == "" || HexDigit(s[0]).None? then None
    else HexQuad(s[1..], n - 1, 16 * so + HexDigit(s[0]).value)
  }

  function SimpleEscape(c: char): Option<char> {
    match c
    case '\"' => Some('\"')
    case '\\' => Some('\\')
    case '/' => Some('/')
    case 'b' => Some(8 as char)
    case 'f' => Some(12 as char)
    case 'n' => Some('\n')
    case 'r' => Some('\r')
    case 't' => Some('\t')
    case _ => None
  }

  /** One character of a string, after its opening quote: plain or escaped, always ASCII. */
  function OneChar(s: string): (r: Read<char>)
    ensures r.Some? ==> |r.value.1| < |s| && r.value.0 as int < 0x80
  {
    if s == "" || s[0] as int < 0x20 || s[0] as int >= 0x80 || s[0] == '\"' then None
    else if s[0] != '\\' then Some((s[0], s[1..]))
    else if |s| == 1 then None
    else if s[1] == 'u' then
      var q := HexQuad(s[2..], 4, 0);
      HexQuadShrinks(s[2..], 4, 0);
      if q.None? || q.value.0 > 0x7f then None else Some((q.value.0 as char, q.value.1))
    else if SimpleEscape(s[1]).None? then None
    else Some((SimpleEscape(s[1]).value, s[2..]))
  }

  lemma {:induction false} HexQuadShrinks(s: string, n: nat, so: nat)
    ensures HexQuad(s, n, so).Some? ==> |HexQuad(s, n, so).value.1| <= |s|
    decreases n
  {
    if n > 0 && s != "" && HexDigit(s[0]).Some? {
      HexQuadShrinks(s[1..], n - 1, 16 * so + HexDigit(s[0]).value);
    }
  }

  /** A string's characters up to and including its closing quote. */
  function Chars(s: string): (r: Read<string>)
    ensures r.Some? ==> |r.value.1| < |s| && Ascii(r.value.0)
  {
    if s != "" && s[0] == '\"' then Some(("", s[1..]))
    else
      var c := OneChar(s);
      if c.None? then None
      else
        var t := Chars(c.value.1);
        if t.None? then None else Some(([c.value.0] + t.value.0, t.value.1))
  }

  function StringOf(s: string): (r: Read<string>)
    ensures r.Some? ==> |r.value.1| < |s| && Ascii(r.value.0)
  {
    if s == "" || s[0] != '\"' then None else Chars(s[1..])
  }

  function DigitRun(s: string): (n: nat)
    ensures n <= |s| && (forall i :: 0 <= i < n ==> Digit(s[i])) && (n < |s| ==> !Digit(s[n]))
  {
    if s == "" || !Digit(s[0]) then 0 else 1 + DigitRun(s[1..])
  }

  /** The digits of a number: a lone zero, or no leading zero. */
  function Magnitude(s: string): (r: Read<nat>)
    ensures r.Some? ==> |r.value.1| < |s|
  {
    if s == "" || !Digit(s[0]) then None
    else if s[0] == '0' then (if |s| > 1 && Digit(s[1]) then None else Some((0, s[1..])))
    else Some((ValueOf(s[..DigitRun(s)]), s[DigitRun(s)..]))
  }

  predicate Fractional(c: char) { c == '.' || c == 'e' || c == 'E' }

  /** Integers only, and only within the safe range. */
  function IntegerOf(s: string): (r: Read<int>)
    ensures r.Some? ==> |r.value.1| < |s| && -MAX_SAFE <= r.value.0 <= MAX_SAFE
  {
    var negative := s != "" && s[0] == '-';
    var m := Magnitude(if negative then s[1..] else s);
    if m.None? || (m.value.1 != "" && Fractional(m.value.1[0])) || m.value.0 > MAX_SAFE then None
    else Some((if negative then -(m.value.0 as int) else m.value.0, m.value.1))
  }

  predicate HasKey(f: Fields, k: string) {
    exists i :: 0 <= i < |f| && f[i].key == k
  }

  /** Files a new field at its place in the order of keys. */
  function Filed(f: Fields, m: Field): Fields {
    if f == [] || Less(m.key, f[0].key) then [m] + f else [f[0]] + Filed(f[1..], m)
  }

  function Value(s: string): (r: Read<Json>)
    ensures r.Some? ==> |r.value.1| < |s|
    decreases |s|, 0
  {
    if s == "" then None
    else if s[0] == 'n' then Word(s, "null", Null)
    else if s[0] == 't' then Word(s, "true", Boolean(true))
    else if s[0] == 'f' then Word(s, "false", Boolean(false))
    else if s[0] == '\"' then
      var t := StringOf(s);
      if t.None? then None else Some((Text(t.value.0), t.value.1))
    else if s[0] == '[' then
      var u := Skip(s[1..]);
      if u != "" && u[0] == ']' then Some((Array([]), u[1..]))
      else
        var t := Elements(u);
        if t.None? then None else Some((Array(t.value.0), t.value.1))
    else if s[0] == '{' then
      var u := Skip(s[1..]);
      if u != "" && u[0] == '}' then Some((Object([]), u[1..]))
      else
        var t := Members(u, []);
        if t.None? then None else Some((Object(t.value.0), t.value.1))
    else if s[0] == '-' || Digit(s[0]) then
      var n := IntegerOf(s);
      if n.None? then None else Some((Integer(n.value.0), n.value.1))
    else None
  }

  function Word(s: string, word: string, v: Json): (r: Read<Json>)
    requires word != ""
    ensures r.Some? ==> |r.value.1| < |s|
  {
    if Literal(s, word).None? then None else Some((v, Literal(s, word).value))
  }

  /** One or more values with commas between them, up to and including the closing bracket. */
  function Elements(s: string): (r: Read<seq<Json>>)
    ensures r.Some? ==> |r.value.1| < |s|
    decreases |s|, 1
  {
    var v := Value(s);
    if v.None? then None
    else
      var u := Skip(v.value.1);
      if u == "" then None
      else if u[0] == ']' then Some(([v.value.0], u[1..]))
      else if u[0] != ',' then None
      else
        var t := Elements(Skip(u[1..]));
        if t.None? then None else Some(([v.value.0] + t.value.0, t.value.1))
  }

  /** A key, a colon and a value. */
  function Member(s: string): (r: Read<Field>)
    ensures r.Some? ==> |r.value.1| < |s|
    decreases |s|, 1
  {
    var k := StringOf(s);
    if k.None? || k.value.0 == "" then None
    else
      var u := Skip(k.value.1);
      if u == "" || u[0] != ':' then None
      else
        var v := Value(Skip(u[1..]));
        if v.None? then None else Some((Field(k.value.0, v.value.0), v.value.1))
  }

  /** One or more members with commas between them, up to and including the closing brace, filed with
      those read before; a repeated key is an error. */
  function Members(s: string, f: Fields): (r: Read<Fields>)
    ensures r.Some? ==> |r.value.1| < |s|
    decreases |s|, 2
  {
    var m := Member(s);
    if m.None? || HasKey(f, m.value.0.key) then None
    else
      var g := Filed(f, m.value.0);
      var u := Skip(m.value.1);
      if u == "" then None
      else if u[0] == '}' then Some((g, u[1..]))
      else if u[0] != ',' then None
      else Members(Skip(u[1..]), g)
  }

  /** A whole document: one value with nothing but blanks around it. */
  function Document(s: string): Option<Json> {
    var v := Value(Skip(s));
    if v.None? || Skip(v.value.1) != "" then None else Some(v.value.0)
  }
}
