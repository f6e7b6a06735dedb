/**
 JSON values, the compact printer (no whitespace, minimal escapes, members in
 the order given) that both `canonical.rs` and the index lines are built on, and
 a reader for the grammar of RFC 8259 that undoes it.
*/
module Json {

  /** Integers are exact; any other number is the text it is written as. */
  datatype Number = Int(n: int) | Float(text: string)

  datatype Member = Member(key: string, value: Json)

  datatype Json =
    | Null
    | Bool(b: bool)
    | Num(number: Number)
    | Str(text: string)
    | Arr(items: seq<Json>)
    | Obj(members: seq<Member>)

  // ---- numbers ----

  predicate IsDigit(c: char) { '0' <= c <= '9' }

  predicate AllDigits(t: string) { forall i :: 0 <= i < |t| ==> IsDigit(t[i]) }

  function DigitChar(d: int): (c: char)
    requires 0 <= d < 16
  {
    if d < 10 then ('0' as int + d) as char else ('a' as int + d - 10) as char
  }

  function Decimal(n: nat): (r: string)
    ensures r != "" && AllDigits(r)
    ensures r[0] == '0' ==> n == 0 && r == "0"
  {
    if n < 10 then [DigitChar(n)] else Decimal(n / 10) + [DigitChar(n % 10)]
  }

  function DecimalValue(t: string): nat
    requires AllDigits(t)
  {
    if t == "" then 0
    else DecimalValue(t[..|t| - 1]) * 10 + (t[|t| - 1] as int - '0' as int)
  }

  lemma {:induction false} DecimalRoundTrip(n: nat)
    ensures DecimalValue(Decimal(n)) == n
  {
    var t := Decimal(n);
    if n < 10 {
      assert t[..|t| - 1] == "";
    } else {
      DecimalRoundTrip(n / 10);
      assert t[..|t| - 1] == Decimal(n / 10);
    }
  }

  predicate IsNatText(t: string) {
    t != "" && AllDigits(t) && (t[0] == '0' ==> |t| == 1)
  }

  /** The texts of integers; "-0" is not one, because it is read as a float. */
  predicate IsIntText(t: string) {
    if t != "" && t[0] == '-' then IsNatText(t[1..]) && t[1] != '0' else IsNatText(t)
  }

  function IntText(n: int): string {
    if n < 0 then "-" + Decimal(-n) else Decimal(n)
  }

  function IntValue(t: string): int
    requires IsIntText(t)
  {
    if t[0] == '-' then 0 - (DecimalValue(t[1..]) as int) else DecimalValue(t)
  }

  lemma IntRoundTrip(n: int)
    ensures IsIntText(IntText(n)) && IntValue(IntText(n)) == n
  {
    if n < 0 {
      DecimalRoundTrip(-n);
      assert IntText(n)[1..] == Decimal(-n);
    } else {
      DecimalRoundTrip(n);
    }
  }

  function SkipDigits(t: string): string {
    if t != "" && IsDigit(t[0]) then SkipDigits(t[1..]) else t
  }

  predicate IsExponentText(t: string) {
    t == "" ||
    ((t[0] == 'e' || t[0] == 'E') &&
     var u := if |t| > 1 && (t[1] == '+' || t[1] == '-') then t[2..] else t[1..];
     u != "" && IsDigit(u[0]) && SkipDigits(u) == "")
  }

  /** Section 6 of RFC 8259. */
  predicate IsNumberText(t: string) {
    var u := if t != "" && t[0] == '-' then t[1..] else t;
    u != "" && IsDigit(u[0]) &&
    var w := if u[0] == '0' then u[1..] else SkipDigits(u);
    if w != "" && w[0] == '.'
    then |w| > 1 && IsDigit(w[1]) && IsExponentText(SkipDigits(w[1..]))
    else IsExponentText(w)
  }

  predicate IsNumChar(c: char) {
    IsDigit(c) || c == '-' || c == '+' || c == '.' || c == 'e' || c == 'E'
  }

  predicate IsFloatText(t: string) {
    IsNumberText(t) && !IsIntText(t) && forall i :: 0 <= i < |t| ==> IsNumChar(t[i])
  }

  function NumberText(x: Number): string {
    match x case Int(n) => IntText(n) case Float(text) => text
  }

  // ---- the compact printer ----

  /** The escapes of section 7 of RFC 8259 that the printer uses. */
  function EscapeChar(c: char): (r: string)
    ensures r != ""
  {
    if c == '"' then ['\\', '"']
    else if c == '\\' then ['\\', '\\']
    else if c == '\n' then ['\\', 'n']
    else if c == '\r' then ['\\', 'r']
    else if c == '\t' then ['\\', 't']
    else if c == '\U{0008}' then ['\\', 'b']
    else if c == '\U{000c}' then ['\\', 'f']
    else if c < ' ' then ['\\', 'u', '0', '0', DigitChar(c as int / 16), DigitChar(c as int % 16)]
    else [c]
  }

  function Escaped(s: string): string {
    if s == "" then "" else EscapeChar(s[0]) + Escaped(s[1..])
  }

  function Quoted(s: string): string { ['"'] + Escaped(s) + ['"'] }

  function Compact(v: Json): string
    decreases v, 0
  {
    match v
    case Null => "null"
    case Bool(b) => if b then "true" else "false"
    case Num(x) => NumberText(x)
    case Str(s) => Quoted(s)
    case Arr(items) => ['['] + CompactItems(items) + [']']
    case Obj(members) => ['{'] + CompactMembers(members) + ['}']
  }

  function CompactItems(items: seq<Json>): string
    decreases items, 1
  {
    if items == [] then ""
    else if |items| == 1 then Compact(items[0])
    else Compact(items[0]) + [','] + CompactItems(items[1..])
  }

  function CompactMember(m: Member): string
    decreases m, 1
  {
    Quoted(m.key) + [':'] + Compact(m.value)
  }

  function CompactMembers(ms: seq<Member>): string
    decreases ms, 1
  {
    if ms == [] then ""
    else if |ms| == 1 then CompactMember(ms[0])
    else CompactMember(ms[0]) + [','] + CompactMembers(ms[1..])
  }

  /** Every opaque number text is one. */
  predicate Printable(v: Json)
    decreases v
  {
    match v
    case Num(Float(t)) => IsFloatText(t)
    case Arr(items) => forall i :: 0 <= i < |items| ==> Printable(items[i])
    case Obj(ms) => forall i :: 0 <= i < |ms| ==> Printable(ms[i].value)
    case _ => true
  }

  // ---- the reader ----

  datatype Parsed<+T> = Fail | Done(value: T, rest: string)

  predicate IsWs(c: char) { c == ' ' || c == '\t' || c == '\n' || c == '\r' }

  function SkipWs(s: string): (r: string)
    ensures |r| <= |s|
    ensures r != "" ==> !IsWs(r[0])
  {
    if s != "" && IsWs(s[0]) then SkipWs(s[1..]) else s
  }

  function NumberRun(s: string): (k: nat)
    ensures k <= |s|
    ensures forall i :: 0 <= i < k ==> IsNumChar(s[i])
    ensures k < |s| ==> !IsNumChar(s[k])
  {
    if s != "" && IsNumChar(s[0]) then 1 + NumberRun(s[1..]) else 0
  }

  function NumberOf(t: string, rest: string): (r: Parsed<Json>)
    ensures r.Done? ==> r.value.Num? && r.rest == rest && t != ""
  {
    if IsIntText(t) then Done(Num(Int(IntValue(t))), rest)
    else if IsFloatText(t) then Done(Num(Float(t)), rest)
    else Fail
  }

  function ParseNumber(s: string): (r: Parsed<Json>)
    ensures r.Done? ==> |r.rest| < |s| && r.value.Num?
  {
    var k := NumberRun(s);
    NumberOf(s[..k], s[k..])
  }

  /** -1 for a character that is not a hexadecimal digit. */
  function HexValue(c: char): (n: int)
    ensures -1 <= n < 16
  {
    if '0' <= c <= '9' then c as int - '0' as int
    else if 'a' <= c <= 'f' then c as int - 'a' as int + 10
    else if 'A' <= c <= 'F' then c as int - 'A' as int + 10
    else -1
  }

  /** The number written in the first four characters, or -1. */
  function Hex4(s: string): (n: int)
    ensures -1 <= n < 0x10000
    ensures n >= 0 ==> |s| >= 4
  {
    if |s| >= 4 && HexValue(s[0]) >= 0 && HexValue(s[1]) >= 0 && HexValue(s[2]) >= 0 && HexValue(s[3]) >= 0
    then HexValue(s[0]) * 4096 + HexValue(s[1]) * 256 + HexValue(s[2]) * 16 + HexValue(s[3])
    else -1
  }

  /** The character an escape denotes, given the text after its backslash. */
  function ParseEscape(s: string): (r: Parsed<char>)
    ensures r.Done? ==> |r.rest| < |s|
  {
    if s == "" then Fail
    else if s[0] == '"' || s[0] == '\\' || s[0] == '/' then Done(s[0], s[1..])
    else if s[0] == 'b' then Done('\U{0008}', s[1..])
    else if s[0] == 'f' then Done('\U{000c}', s[1..])
    else if s[0] == 'n' then Done('\n', s[1..])
    else if s[0] == 'r' then Done('\r', s[1..])
    else if s[0] == 't' then Done('\t', s[1..])
    else if s[0] == 'u' then
      var n := Hex4(s[1..]);
      if 0 <= n < 0xD800 || 0xE000 <= n then Done(n as char, s[5..])
      else if 0xD800 <= n < 0xDC00 && |s| >= 7 && s[5] == '\\' && s[6] == 'u' then
        var m := Hex4(s[7..]);
        if 0xDC00 <= m < 0xE000
        then Done((0x10000 + (n - 0xD800) * 1024 + (m - 0xDC00)) as char, s[11..])
        else Fail
      else Fail
    else Fail
  }

  /** A string, given the text after its opening quote. */
  function ParseString(s: string): (r: Parsed<string>)
    ensures r.Done? ==> |r.rest| < |s|
    decreases |s|
  {
    if s == "" || s[0] < ' ' then Fail
    else if s[0] == '"' then Done("", s[1..])
    else
      var head := if s[0] == '\\' then ParseEscape(s[1..]) else Done(s[0], s[1..]);
      match head
      case Fail => Fail
      case Done(c, rest) =>
        match ParseString(rest)
        case Fail => Fail
        case Done(text, rest') => Done([c] + text, rest')
  }

  predicate StartsWith(s: string, w: string) { |w| <= |s| && s[..|w|] == w }

  function ParseValue(s: string): (r: Parsed<Json>)
    ensures r.Done? ==> |r.rest| < |s|
    decreases |s|, 1
  {
    var u := SkipWs(s);
    if u == "" then Fail
    else if u[0] == '{' then ParseObject(u[1..])
    else if u[0] == '[' then ParseArray(u[1..])
    else if u[0] == '"' then
      match ParseString(u[1..])
      case Fail => Fail
      case Done(text, rest) => Done(Str(text), rest)
    else if StartsWith(u, "null") then Done(Null, u[4..])
    else if StartsWith(u, "true") then Done(Bool(true), u[4..])
    else if StartsWith(u, "false") then Done(Bool(false), u[5..])
    else ParseNumber(u)
  }

  /** An array, given the text after its opening bracket. */
  function ParseArray(s: string): (r: Parsed<Json>)
    ensures r.Done? ==> |r.rest| < |s| && !r.value.Num?
    decreases |s|, 3
  {
    var u := SkipWs(s);
    if u != "" && u[0] == ']' then Done(Arr([]), u[1..])
    else
      match ParseItems(s)
      case Fail => Fail
      case Done(items, rest) => Done(Arr(items), rest)
  }

  function ParseItems(s: string): (r: Parsed<seq<Json>>)
    ensures r.Done? ==> |r.rest| < |s|
    decreases |s|, 2
  {
    match ParseValue(s)
    case Fail => Fail
    case Done(v, rest) =>
      var u := SkipWs(rest);
      if u != "" && u[0] == ',' then
        match ParseItems(u[1..])
        case Fail => Fail
        case Done(items, rest') => Done([v] + items, rest')
      else if u != "" && u[0] == ']' then Done([v], u[1..])
      else Fail
  }

  /** An object, given the text after its opening brace. */
  function ParseObject(s: string): (r: Parsed<Json>)
    ensures r.Done? ==> |r.rest| < |s| && !r.value.Num?
    decreases |s|, 3
  {
    var u := SkipWs(s);
    if u != "" && u[0] == '}' then Done(Obj([]), u[1..])
    else
      match ParseMembers(s)
      case Fail => Fail
      case Done(members, rest) => Done(Obj(members), rest)
  }

  function ParseMember(s: string): (r: Parsed<Member>)
    ensures r.Done? ==> |r.rest| < |s|
    decreases |s|, 1
  {
    var u := SkipWs(s);
    if u == "" || u[0] != '"' then Fail
    else
      match ParseString(u[1..])
      case Fail => Fail
      case Done(key, rest) =>
        var w := SkipWs(rest);
        if w == "" || w[0] != ':' then Fail
        else
          match ParseValue(w[1..])
          case Fail => Fail
          case Done(v, rest') => Done(Member(key, v), rest')
  }

  function ParseMembers(s: string): (r: Parsed<seq<Member>>)
    ensures r.Done? ==> |r.rest| < |s|
    decreases |s|, 2
  {
    match ParseMember(s)
    case Fail => Fail
    case Done(m, rest) =>
      var u := SkipWs(rest);
      if u != "" && u[0] == ',' then
        match ParseMembers(u[1..])
        case Fail => Fail
        case Done(ms, rest') => Done([m] + ms, rest')
      else if u != "" && u[0] == '}' then Done([m], u[1..])
      else Fail
  }

  /** A whole document: one value with only whitespace around it. */
  function ParseDocument(s: string): Parsed<Json> {
    match ParseValue(s)
    case Fail => Fail
    case Done(v, rest) => if SkipWs(rest) == "" then Done(v, "") else Fail
  }
}
