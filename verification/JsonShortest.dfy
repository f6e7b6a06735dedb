/**
 Why the printed form is the only one: no JSON text of a value is shorter than its
 canonical text, the hexadecimal digits of escapes are lower-case, and the keys of
 every object ascend. Together with the reader these leave no choice to a printer.
*/
module JsonShortest {
  import opened Sequences
  import opened Utf8
  import opened Json
  import opened Canonical

  // ---- numbers ----

  lemma {:induction false} PositiveText(t: string)
    requires IsNatText(t) && t[0] != '0'
    ensures DecimalValue(t) > 0
  {
    if |t| > 1 {
      PositiveText(t[..|t| - 1]);
    } else {
      assert t[..0] == "";
    }
  }

  /** A natural number has one text. */
  lemma {:induction false} NatTextUnique(t: string)
    requires IsNatText(t)
    ensures Decimal(DecimalValue(t)) == t
  {
    var init, d := t[..|t| - 1], t[|t| - 1] as int - '0' as int;
    assert t == init + [t[|t| - 1]];
    if |t| > 1 {
      NatTextUnique(init);
      PositiveText(init);
    } else {
      assert init == "";
    }
    assert DigitChar(d) == t[|t| - 1];
  }

  lemma IntTextUnique(t: string)
    requires IsIntText(t)
    ensures IntText(IntValue(t)) == t
  {
    if t[0] == '-' {
      NatTextUnique(t[1..]);
      PositiveText(t[1..]);
    } else {
      NatTextUnique(t);
    }
  }

  lemma NumberShortest(s: string)
    requires ParseNumber(s).Done?
    ensures |Compact(ParseNumber(s).value)| + |ParseNumber(s).rest| <= |s|
  {
    var t := s[..NumberRun(s)];
    if IsIntText(t) {
      IntTextUnique(t);
    }
  }

  // ---- strings ----

  lemma EscapeShortest(s: string)
    requires ParseEscape(s).Done?
    ensures |EscapeChar(ParseEscape(s).value)| + |ParseEscape(s).rest| <= |s| + 1
  {
  }

  lemma {:induction false} StringShortest(s: string)
    requires ParseString(s).Done?
    ensures |Escaped(ParseString(s).value)| + 1 + |ParseString(s).rest| <= |s|
    decreases |s|
  {
    if s[0] == '\\' {
      EscapeShortest(s[1..]);
      StringShortest(ParseEscape(s[1..]).rest);
      EscapedCons(ParseEscape(s[1..]).value, ParseString(ParseEscape(s[1..]).rest).value);
    } else if s[0] != '"' {
      StringShortest(s[1..]);
      EscapedCons(s[0], ParseString(s[1..]).value);
    }
  }

  lemma EscapedCons(c: char, text: string)
    ensures Escaped([c] + text) == EscapeChar(c) + Escaped(text)
  {
    assert ([c] + text)[1..] == text;
  }

  /** Every way to write a string is at least as long as the printed one. */
  lemma EscapesAreMinimal(s: string, t: string)
    requires ParseString(t + ['"']) == Done(s, "")
    ensures |Escaped(s)| <= |t|
  {
    StringShortest(t + ['"']);
  }

  /** And its escapes hold no upper-case hexadecimal digit. */
  lemma EscapesAreLowerCase(c: char)
    ensures c < ' ' ==> forall i :: 0 <= i < |EscapeChar(c)| ==> !('A' <= EscapeChar(c)[i] <= 'F')
  {
  }

  // ---- values ----

  lemma {:induction false} ValueShortest(s: string)
    requires ParseValue(s).Done?
    ensures |Compact(ParseValue(s).value)| + |ParseValue(s).rest| <= |s|
    decreases |s|, 1
  {
    var u := SkipWs(s);
    if u[0] == '{' {
      ObjectShortest(u[1..]);
    } else if u[0] == '[' {
      ArrayShortest(u[1..]);
    } else if u[0] == '"' {
      StringShortest(u[1..]);
    } else if !(StartsWith(u, "null") || StartsWith(u, "true") || StartsWith(u, "false")) {
      NumberShortest(u);
    }
  }

  lemma {:induction false} ArrayShortest(s: string)
    requires ParseArray(s).Done?
    ensures |Compact(ParseArray(s).value)| + |ParseArray(s).rest| <= |s| + 1
    decreases |s|, 3
  {
    var u := SkipWs(s);
    if !(u != "" && u[0] == ']') {
      ItemsShortest(s);
    }
  }

  lemma {:induction false} ItemsShortest(s: string)
    requires ParseItems(s).Done?
    ensures |CompactItems(ParseItems(s).value)| + 1 + |ParseItems(s).rest| <= |s|
    decreases |s|, 2
  {
    ValueShortest(s);
    var u := SkipWs(ParseValue(s).rest);
    if u[0] == ',' {
      ItemsShortest(u[1..]);
      ItemsCons(ParseValue(s).value, ParseItems(u[1..]).value);
    }
  }

  lemma ItemsCons(v: Json, items: seq<Json>)
    ensures |CompactItems([v] + items)| <= |Compact(v)| + 1 + |CompactItems(items)|
  {
    assert ([v] + items)[1..] == items;
  }

  lemma {:induction false} ObjectShortest(s: string)
    requires ParseObject(s).Done?
    ensures |Compact(ParseObject(s).value)| + |ParseObject(s).rest| <= |s| + 1
    decreases |s|, 3
  {
    var u := SkipWs(s);
    if !(u != "" && u[0] == '}') {
      MembersShortest(s);
    }
  }

  lemma {:induction false} MemberShortest(s: string)
    requires ParseMember(s).Done?
    ensures |CompactMember(ParseMember(s).value)| + |ParseMember(s).rest| <= |s|
    decreases |s|, 1
  {
    var u := SkipWs(s);
    StringShortest(u[1..]);
    var w := SkipWs(ParseString(u[1..]).rest);
    ValueShortest(w[1..]);
  }

  lemma {:induction false} MembersShortest(s: string)
    requires ParseMembers(s).Done?
    ensures |CompactMembers(ParseMembers(s).value)| + 1 + |ParseMembers(s).rest| <= |s|
    decreases |s|, 2
  {
    MemberShortest(s);
    var u := SkipWs(ParseMember(s).rest);
    if u[0] == ',' {
      MembersShortest(u[1..]);
      MembersCons(ParseMember(s).value, ParseMembers(u[1..]).value);
    }
  }

  lemma MembersCons(m: Member, ms: seq<Member>)
    ensures |CompactMembers([m] + ms)| == |CompactMember(m)| + (if ms == [] then 0 else 1 + |CompactMembers(ms)|)
  {
    assert ([m] + ms)[1..] == ms;
  }

  /** Reading a text and printing what was read never gives a longer text. */
  lemma DocumentShortest(t: string)
    requires ParseDocument(t).Done?
    ensures |Compact(ParseDocument(t).value)| <= |t|
  {
    ValueShortest(t);
  }

  // ---- sorting the members changes no length ----

  lemma {:induction false} InsertLength(m: Member, ms: seq<Member>, le: (Member, Member) -> bool)
    ensures |CompactMembers(Insert(m, ms, le))| == |CompactMembers([m] + ms)|
  {
    MembersCons(m, ms);
    if ms != [] && !le(m, ms[0]) {
      var rest := Insert(m, ms[1..], le);
      InsertLength(m, ms[1..], le);
      MembersCons(m, ms[1..]);
      MembersCons(ms[0], rest);
      MembersCons(ms[0], ms[1..]);
      HeadTail(ms);
    }
  }

  lemma {:induction false} SortLength(ms: seq<Member>, le: (Member, Member) -> bool)
    ensures |CompactMembers(Sort(ms, le))| == |CompactMembers(ms)|
    ensures |Sort(ms, le)| == |ms|
  {
    SortPermutes(ms, le);
    if ms != [] {
      var rest := Sort(ms[1..], le);
      SortLength(ms[1..], le);
      InsertLength(ms[0], rest, le);
      MembersCons(ms[0], rest);
      MembersCons(ms[0], ms[1..]);
      HeadTail(ms);
    }
  }

  lemma {:induction false} NormalLength(v: Json)
    ensures |Compact(Normal(v, RustKeyLe()))| == |Compact(v)|
    decreases v, 0
  {
    match v
    case Arr(items) => NormalItemsLength(items);
    case Obj(ms) =>
      NormalMembersLength(ms);
      SortLength(NormalMembers(ms, RustKeyLe()), RustKeyLe());
    case _ =>
  }

  lemma {:induction false} NormalItemsLength(items: seq<Json>)
    ensures |CompactItems(NormalItems(items, RustKeyLe()))| == |CompactItems(items)|
    decreases items, 1
  {
    if items != [] {
      NormalLength(items[0]);
      NormalItemsLength(items[1..]);
      assert NormalItems(items, RustKeyLe())[1..] == NormalItems(items[1..], RustKeyLe());
    }
  }

  lemma {:induction false} NormalMembersLength(ms: seq<Member>)
    ensures |CompactMembers(NormalMembers(ms, RustKeyLe()))| == |CompactMembers(ms)|
    decreases ms, 1
  {
    if ms != [] {
      NormalLength(ms[0].value);
      NormalMembersLength(ms[1..]);
      assert NormalMembers(ms, RustKeyLe())[1..] == NormalMembers(ms[1..], RustKeyLe());
    }
  }

  /**
   No JSON text of a value, in whatever order its members and with whatever blanks
   and escapes, is shorter than its canonical text.
  */
  lemma CanonicalIsShortest(v: Json, t: string)
    requires WellFormed(v) && ParseDocument(t).Done?
    requires WellFormed(ParseDocument(t).value) && SameValue(v, ParseDocument(t).value)
    ensures |Canon(v)| <= |t|
  {
    CanonicalTextIdentifies(v, ParseDocument(t).value);
    NormalLength(ParseDocument(t).value);
    DocumentShortest(t);
  }

  // ---- the order of keys ----

  /** The keys of every object ascend by code point, all the way down. */
  ghost predicate KeysAscend(v: Json)
    decreases v
  {
    match v
    case Arr(items) => forall i :: 0 <= i < |items| ==> KeysAscend(items[i])
    case Obj(ms) =>
      && (forall i, j :: 0 <= i < j < |ms| ==> ms[i].key != ms[j].key && InOrder(ms[i].key, ms[j].key))
      && forall i :: 0 <= i < |ms| ==> KeysAscend(ms[i].value)
    case _ => true
  }

  lemma SortedKeys(ns: seq<Member>)
    requires DistinctKeys(ns)
    ensures var s := Sort(ns, RustKeyLe());
            forall i, j :: 0 <= i < j < |s| ==> s[i].key != s[j].key && InOrder(s[i].key, s[j].key)
  {
    var s := Sort(ns, RustKeyLe());
    KeyOrders();
    SortPermutes(ns, RustKeyLe());
    SortSorted(ns, RustKeyLe());
    PermutedKeys(ns, s);
    forall i, j | 0 <= i < j < |s| ensures s[i].key != s[j].key && InOrder(s[i].key, s[j].key) {
      assert RustKeyLe()(s[i], s[j]) && PythonKeyLe()(s[i], s[j]);
      StringLeIff(s[i].key, s[j].key);
    }
  }

  lemma {:induction false} CanonicalKeysAscend(v: Json)
    requires WellFormed(v)
    ensures KeysAscend(Normal(v, RustKeyLe()))
    decreases v
  {
    var le := RustKeyLe();
    match v
    case Arr(items) =>
      forall i | 0 <= i < |items| ensures KeysAscend(Normal(items[i], le)) { CanonicalKeysAscend(items[i]); }
    case Obj(ms) =>
      var ns := NormalMembers(ms, le);
      forall i | 0 <= i < |ms| ensures KeysAscend(ns[i].value) { CanonicalKeysAscend(ms[i].value); }
      SortedKeys(ns);
      var at := SortedMembers(ns, le);
    case _ =>
  }

  /** The canonical text lists the keys of every object in that order. */
  lemma CanonicalTextAscends(v: Json)
    requires WellFormed(v)
    ensures ParseDocument(Canon(v)).Done? && KeysAscend(ParseDocument(Canon(v)).value)
  {
    ReadCanonical(v);
    CanonicalKeysAscend(v);
  }
}
