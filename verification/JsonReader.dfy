/**
 What the reader does with more text, and that it undoes the compact printer.
*/
module JsonReader {
  import opened Json
  import opened Sequences

  /** The same parse with t left over as well. */
  function Grow<T>(r: Parsed<T>, t: string): Parsed<T> {
    match r case Fail => Fail case Done(v, rest) => Done(v, rest + t)
  }

  lemma Shift(s: string, t: string)
    requires s != ""
    ensures (s + t)[0] == s[0] && (s + t)[1..] == s[1..] + t
  {
  }

  // ---- a parse that stopped before the end of its text is stable under more text ----

  lemma {:induction false} SkipWsGrow(s: string, t: string)
    ensures SkipWs(s) != "" ==> SkipWs(s + t) == SkipWs(s) + t
    ensures SkipWs(s) == "" ==> SkipWs(s + t) == SkipWs(t)
  {
    if s == "" {
      assert s + t == t;
    } else {
      Shift(s, t);
      if IsWs(s[0]) {
        SkipWsGrow(s[1..], t);
      }
    }
  }

  lemma {:induction false} NumberRunGrow(s: string, t: string)
    requires NumberRun(s) < |s| || t == "" || !IsNumChar(t[0])
    ensures NumberRun(s + t) == NumberRun(s)
  {
    if s == "" {
      assert s + t == t;
    } else {
      Shift(s, t);
      if IsNumChar(s[0]) {
        NumberRunGrow(s[1..], t);
      }
    }
  }

  lemma Cut(s: string, t: string, k: nat)
    requires k <= |s|
    ensures (s + t)[..k] == s[..k] && (s + t)[k..] == s[k..] + t
  {
  }

  lemma NumberOfGrow(x: string, rest: string, t: string)
    ensures NumberOf(x, rest + t) == Grow(NumberOf(x, rest), t)
  {
  }

  lemma NumberGrow(s: string, t: string)
    requires NumberRun(s) < |s| || t == "" || !IsNumChar(t[0])
    ensures ParseNumber(s + t) == Grow(ParseNumber(s), t)
  {
    NumberRunGrow(s, t);
    var k := NumberRun(s);
    Cut(s, t, k);
    NumberOfGrow(s[..k], s[k..], t);
  }

  lemma EscapeGrow(s: string, t: string)
    requires ParseEscape(s).Done?
    ensures ParseEscape(s + t) == Grow(ParseEscape(s), t)
  {
    Shift(s, t);
    if s[0] == 'u' {
      assert Hex4((s + t)[1..]) == Hex4(s[1..]);
      assert |s| >= 5 && (s + t)[5..] == s[5..] + t;
      if |s| >= 11 {
        assert Hex4((s + t)[7..]) == Hex4(s[7..]);
        assert (s + t)[11..] == s[11..] + t;
      }
    }
  }

  lemma {:induction false} StringGrow(s: string, t: string)
    requires ParseString(s).Done?
    ensures ParseString(s + t) == Grow(ParseString(s), t)
    decreases |s|
  {
    Shift(s, t);
    if s[0] == '"' {
    } else if s[0] == '\\' {
      EscapeGrow(s[1..], t);
      StringGrow(ParseEscape(s[1..]).rest, t);
    } else {
      StringGrow(s[1..], t);
    }
  }

  lemma WordGrow(u: string, t: string, w: string)
    requires |w| <= |u|
    ensures StartsWith(u + t, w) == StartsWith(u, w)
    ensures (u + t)[|w|..] == u[|w|..] + t
  {
    assert (u + t)[..|w|] == u[..|w|];
  }

  lemma LiteralGrow(s: string, u: string, t: string)
    requires u == SkipWs(s) && u != "" && u[0] != '{' && u[0] != '[' && u[0] != '"'
    requires ParseValue(s).Done?
    requires ParseValue(s).rest != "" || !ParseValue(s).value.Num?
    requires SkipWs(s + t) == u + t
    ensures ParseValue(s + t) == Grow(ParseValue(s), t)
  {
    Shift(u, t);
    if StartsWith(u, "null") {
      WordGrow(u, t, "null");
    } else if StartsWith(u, "true") {
      WordGrow(u, t, "true");
      assert u[0] == 't';
      assert !StartsWith(u + t, "null");
    } else if StartsWith(u, "false") {
      WordGrow(u, t, "false");
      assert u[0] == 'f';
      assert !StartsWith(u + t, "null") && !StartsWith(u + t, "true");
    } else {
      assert ParseValue(s) == ParseNumber(u);
      assert NumberRun(u) > 0;
      assert IsNumChar(u[0]);
      assert u[0] != 'n' && u[0] != 't' && u[0] != 'f';
      assert !StartsWith(u + t, "null") && !StartsWith(u + t, "true") && !StartsWith(u + t, "false");
      NumberGrow(u, t);
    }
  }

  /** Reading a value is stable under more text, unless a number ran to the end of the text. */
  lemma {:induction false} ValueGrow(s: string, t: string)
    requires ParseValue(s).Done?
    requires ParseValue(s).rest != "" || !ParseValue(s).value.Num?
    ensures ParseValue(s + t) == Grow(ParseValue(s), t)
    decreases |s|, 1
  {
    SkipWsGrow(s, t);
    var u := SkipWs(s);
    Shift(u, t);
    if u[0] == '{' {
      ObjectGrow(u[1..], t);
    } else if u[0] == '[' {
      ArrayGrow(u[1..], t);
    } else if u[0] == '"' {
      StringGrow(u[1..], t);
    } else {
      LiteralGrow(s, u, t);
    }
  }

  lemma {:induction false} ArrayGrow(s: string, t: string)
    requires ParseArray(s).Done?
    ensures ParseArray(s + t) == Grow(ParseArray(s), t)
    decreases |s|, 3
  {
    SkipWsGrow(s, t);
    var u := SkipWs(s);
    if u != "" {
      Shift(u, t);
    }
    if u == "" || u[0] != ']' {
      ItemsGrow(s, t);
      assert u != "";
    }
  }

  lemma {:induction false} ItemsGrow(s: string, t: string)
    requires ParseItems(s).Done?
    ensures ParseItems(s + t) == Grow(ParseItems(s), t)
    ensures SkipWs(s) != ""
    decreases |s|, 2
  {
    var rest := ParseValue(s).rest;
    ValueGrow(s, t);
    SkipWsGrow(rest, t);
    var u := SkipWs(rest);
    Shift(u, t);
    if u[0] == ',' {
      ItemsGrow(u[1..], t);
    }
  }

  lemma {:induction false} ObjectGrow(s: string, t: string)
    requires ParseObject(s).Done?
    ensures ParseObject(s + t) == Grow(ParseObject(s), t)
    decreases |s|, 3
  {
    SkipWsGrow(s, t);
    var u := SkipWs(s);
    if u != "" {
      Shift(u, t);
    }
    if u == "" || u[0] != '}' {
      MembersGrow(s, t);
      assert u != "";
    }
  }

  lemma {:induction false} MemberGrow(s: string, t: string)
    requires ParseMember(s).Done?
    requires ParseMember(s).rest != "" || !ParseMember(s).value.value.Num?
    ensures ParseMember(s + t) == Grow(ParseMember(s), t)
    ensures SkipWs(s) != ""
    decreases |s|, 1
  {
    SkipWsGrow(s, t);
    var u := SkipWs(s);
    Shift(u, t);
    StringGrow(u[1..], t);
    var rest := ParseString(u[1..]).rest;
    SkipWsGrow(rest, t);
    var w := SkipWs(rest);
    Shift(w, t);
    ValueGrow(w[1..], t);
  }

  lemma {:induction false} MembersGrow(s: string, t: string)
    requires ParseMembers(s).Done?
    ensures ParseMembers(s + t) == Grow(ParseMembers(s), t)
    ensures SkipWs(s) != ""
    decreases |s|, 2
  {
    var rest := ParseMember(s).rest;
    MemberGrow(s, t);
    SkipWsGrow(rest, t);
    var u := SkipWs(rest);
    Shift(u, t);
    if u[0] == ',' {
      MembersGrow(u[1..], t);
    }
  }

  /** No strict prefix of a document ending in a closing bracket, brace or quote is itself one. */
  lemma DocumentPrefixFree(s: string, t: string)
    requires ParseDocument(s + t).Done? && !ParseDocument(s + t).value.Num?
    requires ParseValue(s + t).rest == "" && t != ""
    ensures ParseDocument(s) == Fail || ParseDocument(s).value.Num?
  {
    if ParseDocument(s).Done? && !ParseDocument(s).value.Num? {
      ValueGrow(s, t);
    }
  }

  // ---- the reader undoes the compact printer ----

  lemma EscapeRoundTrip(c: char, t: string)
    requires c < ' ' || c == '"' || c == '\\'
    ensures EscapeChar(c)[0] == '\\' && ParseEscape(EscapeChar(c)[1..] + t) == Done(c, t)
  {
    var e := EscapeChar(c)[1..] + t;
    if c != '"' && c != '\\' && c != '\n' && c != '\r' && c != '\t' && c != '\U{0008}' && c != '\U{000c}' {
      var h, l := c as int / 16, c as int % 16;
      assert e == ['u', '0', '0', DigitChar(h), DigitChar(l)] + t;
      assert e[1..] == ['0', '0', DigitChar(h), DigitChar(l)] + t;
      assert Hex4(e[1..]) == h * 16 + l == c as int;
      assert e[5..] == t;
    } else {
      assert e == [EscapeChar(c)[1]] + t;
      assert e[1..] == t;
    }
  }

  lemma StringStep(c: char, tail: string)
    requires ParseString(tail).Done?
    ensures ParseString(EscapeChar(c) + tail) == Done([c] + ParseString(tail).value, ParseString(tail).rest)
  {
    var whole := EscapeChar(c) + tail;
    assert whole[0] == EscapeChar(c)[0];
    assert whole[1..] == EscapeChar(c)[1..] + tail;
    if c < ' ' || c == '"' || c == '\\' {
      EscapeRoundTrip(c, tail);
    } else {
      assert whole[1..] == tail;
    }
  }

  lemma {:induction false} StringRoundTrip(s: string, t: string)
    ensures ParseString(Escaped(s) + ['"'] + t) == Done(s, t)
  {
    if s == "" {
      assert Escaped(s) + ['"'] + t == ['"'] + t;
      assert (['"'] + t)[1..] == t;
    } else {
      var tail := Escaped(s[1..]) + ['"'] + t;
      assert Escaped(s) + ['"'] + t == EscapeChar(s[0]) + tail;
      StringRoundTrip(s[1..], t);
      StringStep(s[0], tail);
      assert [s[0]] + s[1..] == s;
    }
  }

  lemma QuotedRoundTrip(s: string, t: string)
    ensures (Quoted(s) + t)[0] == '"'
    ensures ParseString((Quoted(s) + t)[1..]) == Done(s, t)
  {
    StringRoundTrip(s, t);
    assert (Quoted(s) + t)[1..] == Escaped(s) + ['"'] + t;
  }

  lemma {:induction false} NumberRunAll(x: string)
    requires forall i :: 0 <= i < |x| ==> IsNumChar(x[i])
    ensures NumberRun(x) == |x|
  {
    if x != "" {
      NumberRunAll(x[1..]);
    }
  }

  lemma NumberTextChars(x: Number)
    requires x.Float? ==> IsFloatText(x.text)
    ensures NumberText(x) != "" && IsNumChar(NumberText(x)[0])
    ensures forall i :: 0 <= i < |NumberText(x)| ==> IsNumChar(NumberText(x)[i])
  {
    match x
    case Int(n) =>
      if n < 0 { assert NumberText(x)[1..] == Decimal(-n); }
    case Float(t) =>
  }

  lemma NumberRoundTrip(x: Number, t: string)
    requires x.Float? ==> IsFloatText(x.text)
    requires t == "" || !IsNumChar(t[0])
    ensures ParseNumber(NumberText(x) + t) == Done(Num(x), t)
  {
    var w := NumberText(x);
    NumberTextChars(x);
    NumberRunAll(w);
    if x.Int? {
      IntRoundTrip(x.n);
    }
    assert w[..|w|] == w && w[|w|..] == "";
    NumberGrow(w, t);
    assert "" + t == t;
  }

  lemma {:induction false} CompactStart(v: Json)
    requires Printable(v)
    ensures Compact(v) != "" && !IsWs(Compact(v)[0])
    ensures Compact(v)[0] != ']' && Compact(v)[0] != '}'
  {
    if v.Num? {
      NumberTextChars(v.number);
    }
  }

  lemma WordRoundTrip(w: string, t: string)
    requires w == "null" || w == "true" || w == "false"
    ensures ParseValue(w + t) == Done(if w == "null" then Null else Bool(w == "true"), t)
  {
    var u := w + t;
    assert SkipWs(u) == u;
    assert u[..|w|] == w && u[|w|..] == t;
    assert u[0] == w[0];
  }

  lemma EmptyArrayText(t: string)
    ensures ParseValue(['['] + ([']'] + t)) == Done(Arr([]), t)
  {
    var body := [']'] + t;
    var s := ['['] + body;
    assert SkipWs(s) == s && s[1..] == body;
    assert SkipWs(body) == body && body[1..] == t;
  }

  lemma ArrayText(body: string)
    requires ParseItems(body).Done? && SkipWs(body) != "" && SkipWs(body)[0] != ']'
    ensures ParseValue(['['] + body) == Done(Arr(ParseItems(body).value), ParseItems(body).rest)
  {
    var s := ['['] + body;
    assert SkipWs(s) == s && s[1..] == body;
  }

  lemma EmptyObjectText(t: string)
    ensures ParseValue(['{'] + (['}'] + t)) == Done(Obj([]), t)
  {
    var body := ['}'] + t;
    var s := ['{'] + body;
    assert SkipWs(s) == s && s[1..] == body;
    assert SkipWs(body) == body && body[1..] == t;
  }

  lemma ObjectText(body: string)
    requires ParseMembers(body).Done? && SkipWs(body) != "" && SkipWs(body)[0] != '}'
    ensures ParseValue(['{'] + body) == Done(Obj(ParseMembers(body).value), ParseMembers(body).rest)
  {
    var s := ['{'] + body;
    assert SkipWs(s) == s && s[1..] == body;
  }

  lemma StringText(s: string, t: string)
    ensures ParseValue(Quoted(s) + t) == Done(Str(s), t)
  {
    QuotedRoundTrip(s, t);
    assert SkipWs(Quoted(s) + t) == Quoted(s) + t;
  }

  lemma NumberValue(x: Number, t: string)
    requires x.Float? ==> IsFloatText(x.text)
    requires t == "" || !IsNumChar(t[0])
    ensures ParseValue(NumberText(x) + t) == Done(Num(x), t)
  {
    var s := NumberText(x) + t;
    NumberTextChars(x);
    assert s[0] == NumberText(x)[0];
    assert SkipWs(s) == s;
    assert !StartsWith(s, "null") && !StartsWith(s, "true") && !StartsWith(s, "false");
    NumberRoundTrip(x, t);
  }

  /**
   Reading back the compact text of a value yields that value and leaves what
   follows it, whatever follows (after a number: anything that does not extend it).
  */
  lemma {:induction false} ValueRoundTrip(v: Json, t: string)
    requires Printable(v)
    requires v.Num? ==> t == "" || !IsNumChar(t[0])
    ensures ParseValue(Compact(v) + t) == Done(v, t)
    decreases v, 2
  {
    match v
    case Null =>
      WordRoundTrip("null", t);
    case Bool(b) =>
      WordRoundTrip(if b then "true" else "false", t);
    case Num(x) =>
      NumberValue(x, t);
    case Str(text) =>
      StringText(text, t);
    case Arr(items) =>
      var body := CompactItems(items) + [']'] + t;
      assert Compact(v) + t == ['['] + body;
      if items == [] {
        assert body == [']'] + t;
        EmptyArrayText(t);
      } else {
        ItemsRoundTrip(items, t);
        ArrayText(body);
      }
    case Obj(ms) =>
      var body := CompactMembers(ms) + ['}'] + t;
      assert Compact(v) + t == ['{'] + body;
      if ms == [] {
        assert body == ['}'] + t;
        EmptyObjectText(t);
      } else {
        MembersRoundTrip(ms, t);
        ObjectText(body);
      }
  }

  lemma ItemsLast(s: string, v: Json, t: string)
    requires ParseValue(s) == Done(v, [']'] + t)
    ensures ParseItems(s) == Done([v], t)
  {
    var rest := [']'] + t;
    assert SkipWs(rest) == rest && rest[1..] == t;
  }

  lemma ItemsStep(s: string, v: Json, tail: string)
    requires ParseValue(s) == Done(v, [','] + tail) && ParseItems(tail).Done?
    ensures ParseItems(s) == Done([v] + ParseItems(tail).value, ParseItems(tail).rest)
  {
    var rest := [','] + tail;
    assert SkipWs(rest) == rest && rest[1..] == tail;
  }

  lemma ItemsText(items: seq<Json>, t: string)
    requires |items| > 1
    ensures CompactItems(items) + [']'] + t == Compact(items[0]) + ([','] + (CompactItems(items[1..]) + [']'] + t))
  {
    RegroupFive(Compact(items[0]), [','], CompactItems(items[1..]), [']'], t);
  }

  lemma RegroupFive(a: string, b: string, c: string, d: string, e: string)
    ensures a + b + c + d + e == a + (b + (c + d + e))
  {
  }

  lemma FirstChar(a: string, b: string)
    requires a != ""
    ensures (a + b)[0] == a[0]
  {
  }

  lemma {:induction false} ItemsRoundTrip(items: seq<Json>, t: string)
    requires items != [] && forall i :: 0 <= i < |items| ==> Printable(items[i])
    ensures ParseItems(CompactItems(items) + [']'] + t) == Done(items, t)
    ensures var u := SkipWs(CompactItems(items) + [']'] + t); u != "" && u[0] != ']'
    decreases items, 1
  {
    var s := CompactItems(items) + [']'] + t;
    CompactStart(items[0]);
    if |items| == 1 {
      Assoc(Compact(items[0]), [']'], t);
      FirstChar(Compact(items[0]), [']'] + t);
      ValueRoundTrip(items[0], [']'] + t);
      ItemsLast(s, items[0], t);
      assert items == [items[0]];
    } else {
      var tail := CompactItems(items[1..]) + [']'] + t;
      ItemsText(items, t);
      FirstChar(Compact(items[0]), [','] + tail);
      ValueRoundTrip(items[0], [','] + tail);
      ItemsRoundTrip(items[1..], t);
      ItemsStep(s, items[0], tail);
      assert items == [items[0]] + items[1..];
    }
  }

  lemma MemberText(key: string, body: string)
    requires ParseValue(body).Done?
    ensures ParseMember(Quoted(key) + ([':'] + body)) == Done(Member(key, ParseValue(body).value), ParseValue(body).rest)
  {
    var tail := [':'] + body;
    var s := Quoted(key) + tail;
    QuotedRoundTrip(key, tail);
    assert SkipWs(s) == s && SkipWs(tail) == tail && tail[1..] == body;
  }

  lemma {:induction false} MemberRoundTrip(m: Member, t: string)
    requires Printable(m.value)
    requires t != "" && !IsNumChar(t[0])
    ensures ParseMember(CompactMember(m) + t) == Done(m, t)
    decreases m, 1
  {
    var body := Compact(m.value) + t;
    assert CompactMember(m) + t == Quoted(m.key) + ([':'] + body);
    ValueRoundTrip(m.value, t);
    MemberText(m.key, body);
  }

  lemma MembersLast(s: string, m: Member, t: string)
    requires ParseMember(s) == Done(m, ['}'] + t)
    ensures ParseMembers(s) == Done([m], t)
  {
    var rest := ['}'] + t;
    assert SkipWs(rest) == rest && rest[1..] == t;
  }

  lemma MembersStep(s: string, m: Member, tail: string)
    requires ParseMember(s) == Done(m, [','] + tail) && ParseMembers(tail).Done?
    ensures ParseMembers(s) == Done([m] + ParseMembers(tail).value, ParseMembers(tail).rest)
  {
    var rest := [','] + tail;
    assert SkipWs(rest) == rest && rest[1..] == tail;
  }

  lemma MembersStart(ms: seq<Member>)
    requires ms != []
    ensures CompactMembers(ms) != "" && CompactMembers(ms)[0] == '"'
  {
    assert CompactMember(ms[0])[0] == '"';
  }

  lemma {:induction false} MembersRoundTrip(ms: seq<Member>, t: string)
    requires ms != [] && forall i :: 0 <= i < |ms| ==> Printable(ms[i].value)
    ensures ParseMembers(CompactMembers(ms) + ['}'] + t) == Done(ms, t)
    ensures var u := SkipWs(CompactMembers(ms) + ['}'] + t); u != "" && u[0] != '}'
    decreases ms, 1
  {
    var s := CompactMembers(ms) + ['}'] + t;
    MembersStart(ms);
    if |ms| == 1 {
      assert s == CompactMember(ms[0]) + (['}'] + t);
      MemberRoundTrip(ms[0], ['}'] + t);
      MembersLast(s, ms[0], t);
      assert ms == [ms[0]];
    } else {
      var tail := CompactMembers(ms[1..]) + ['}'] + t;
      assert s == CompactMember(ms[0]) + ([','] + tail);
      MemberRoundTrip(ms[0], [','] + tail);
      MembersRoundTrip(ms[1..], t);
      MembersStep(s, ms[0], tail);
      assert ms == [ms[0]] + ms[1..];
    }
  }

  lemma DocumentRoundTrip(v: Json)
    requires Printable(v)
    ensures ParseDocument(Compact(v)) == Done(v, "")
  {
    ValueRoundTrip(v, "");
    assert Compact(v) + "" == Compact(v);
  }
}
