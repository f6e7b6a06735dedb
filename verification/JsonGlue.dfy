/**
 Why a line cannot be repaired by what is appended to it: an object text glued
 to any non-blank text never reads as one document.
*/
module JsonGlue {
  import opened Json
  import opened JsonReader

  /** A complete object text whose first key starts with a letter. */
  predicate ObjectLine(l: string) {
    && |l| > 2 && l[0] == '{' && l[1] == '"' && 'a' <= l[2] <= 'z'
    && ParseValue(l).Done? && ParseValue(l).rest == ""
  }

  predicate Keeps(x: string, l: string) {
    |l| <= |x| && x[|x| - |l|..] == l
  }

  /** x is l after at least one more character, or l itself. */
  lemma KeepsStep(x: string, l: string)
    requires ObjectLine(l) && Keeps(x, l)
    ensures x != "" && (x == l || Keeps(x[1..], l))
    ensures |x| == |l| ==> x == l
  {
    if |x| > |l| {
      assert x[1..][|x| - 1 - |l|..] == x[|x| - |l|..];
    } else {
      assert x[0..] == x;
    }
  }

  lemma KeepsDrop(x: string, l: string, n: nat)
    requires Keeps(x, l) && n <= |x| - |l|
    ensures Keeps(x[n..], l)
  {
    assert x[n..][|x| - n - |l|..] == x[|x| - |l|..];
  }

  lemma {:induction false} SkipWsKeeps(x: string, l: string)
    requires ObjectLine(l) && Keeps(x, l)
    ensures Keeps(SkipWs(x), l) && SkipWs(x) != ""
  {
    KeepsStep(x, l);
    if IsWs(x[0]) {
      SkipWsKeeps(x[1..], l);
    }
  }

  lemma AfterOpenString(l: string)
    requires ObjectLine(l)
    ensures SkipWs(l[2..]) == l[2..] && l[2..] != "" && l[2..][0] == l[2]
  {
  }

  lemma Hex4Keeps(x: string, l: string)
    requires ObjectLine(l) && Keeps(x, l) && Hex4(x) >= 0
    ensures 4 <= |x| - |l|
  {
    var d := |x| - |l|;
    assert x[d..][0] == x[d];
    assert HexValue('{') < 0;
  }

  lemma EscapeKeeps(x: string, l: string)
    requires ObjectLine(l) && Keeps(x, l) && ParseEscape(x).Done?
    ensures Keeps(ParseEscape(x).rest, l)
  {
    KeepsStep(x, l);
    KeepsDrop(x, l, 1);
    if x[0] == 'u' {
      Hex4Keeps(x[1..], l);
      KeepsDrop(x, l, 5);
      var n := Hex4(x[1..]);
      if 0xD800 <= n < 0xDC00 {
        var d := |x| - |l|;
        assert x[d..][0] == x[d] && x[d..][1] == x[d + 1];
        assert d != 5 && d != 6;
        KeepsDrop(x, l, 7);
        Hex4Keeps(x[7..], l);
        KeepsDrop(x, l, 11);
      }
    }
  }

  /** A string left open before l is closed by the first quote of l. */
  lemma {:induction false} StringKeeps(x: string, l: string)
    requires ObjectLine(l) && Keeps(x, l) && ParseString(x).Done?
    ensures Keeps(ParseString(x).rest, l) || ParseString(x).rest == l[2..]
    decreases |x|
  {
    KeepsStep(x, l);
    if x == l {
      assert ParseString(x[1..]) == Done("", l[2..]);
    } else if x[0] == '\\' {
      EscapeKeeps(x[1..], l);
      StringKeeps(ParseEscape(x[1..]).rest, l);
    } else if x[0] != '"' {
      StringKeeps(x[1..], l);
    }
  }

  lemma {:induction false} NumberKeeps(x: string, l: string)
    requires ObjectLine(l) && Keeps(x, l)
    ensures NumberRun(x) <= |x| - |l|
  {
    KeepsStep(x, l);
    if x != l && IsNumChar(x[0]) {
      NumberKeeps(x[1..], l);
    }
  }

  lemma WordKeeps(x: string, l: string, w: string)
    requires ObjectLine(l) && Keeps(x, l) && StartsWith(x, w) && '{' !in w
    ensures Keeps(x[|w|..], l)
  {
    var d := |x| - |l|;
    assert x[d] == x[d..][0] == '{';
    assert forall i :: 0 <= i < |w| ==> x[..|w|][i] == w[i] && w[i] != '{';
    assert |w| <= d;
    KeepsDrop(x, l, |w|);
  }

  lemma LineItself(x: string, l: string)
    requires ObjectLine(l) && SkipWs(x) == l
    ensures ParseValue(x) == ParseValue(l)
  {
    assert SkipWs(l) == l;
  }

  lemma LiteralKeeps(x: string, l: string)
    requires ObjectLine(l) && Keeps(x, l) && ParseValue(x).Done?
    requires SkipWs(x) != l && SkipWs(x) != "" && SkipWs(x)[0] != '{' && SkipWs(x)[0] != '[' && SkipWs(x)[0] != '"'
    ensures Keeps(ParseValue(x).rest, l)
  {
    SkipWsKeeps(x, l);
    var u := SkipWs(x);
    if StartsWith(u, "null") {
      WordKeeps(u, l, "null");
    } else if StartsWith(u, "true") {
      WordKeeps(u, l, "true");
    } else if StartsWith(u, "false") {
      WordKeeps(u, l, "false");
    } else {
      NumberKeeps(u, l);
      KeepsDrop(u, l, NumberRun(u));
    }
  }

  lemma {:induction false} ValueKeeps(x: string, l: string)
    requires ObjectLine(l) && Keeps(x, l) && ParseValue(x).Done?
    ensures var rest := ParseValue(x).rest;
            Keeps(rest, l) || (rest == l[2..] && ParseValue(x).value.Str?) || (SkipWs(x) == l && rest == "")
    decreases |x|, 1
  {
    SkipWsKeeps(x, l);
    var u := SkipWs(x);
    KeepsStep(u, l);
    if u == l {
      LineItself(x, l);
    } else if u[0] == '{' {
      ObjectKeeps(u[1..], l);
    } else if u[0] == '[' {
      ArrayKeeps(u[1..], l);
    } else if u[0] == '"' {
      StringKeeps(u[1..], l);
    } else {
      LiteralKeeps(x, l);
    }
  }

  lemma {:induction false} ArrayKeeps(x: string, l: string)
    requires ObjectLine(l) && Keeps(x, l) && ParseArray(x).Done?
    ensures Keeps(ParseArray(x).rest, l)
    decreases |x|, 3
  {
    SkipWsKeeps(x, l);
    KeepsStep(SkipWs(x), l);
    if SkipWs(x)[0] != ']' {
      ItemsKeeps(x, l);
    }
  }

  lemma {:induction false} ItemsKeeps(x: string, l: string)
    requires ObjectLine(l) && Keeps(x, l) && ParseItems(x).Done?
    ensures Keeps(ParseItems(x).rest, l)
    decreases |x|, 2
  {
    ValueKeeps(x, l);
    AfterOpenString(l);
    var rest := ParseValue(x).rest;
    assert Keeps(rest, l);
    SkipWsKeeps(rest, l);
    var u := SkipWs(rest);
    KeepsStep(u, l);
    if u[0] == ',' {
      ItemsKeeps(u[1..], l);
    }
  }

  lemma {:induction false} ObjectKeeps(x: string, l: string)
    requires ObjectLine(l) && Keeps(x, l) && ParseObject(x).Done?
    ensures Keeps(ParseObject(x).rest, l)
    decreases |x|, 3
  {
    SkipWsKeeps(x, l);
    KeepsStep(SkipWs(x), l);
    if SkipWs(x)[0] != '}' {
      MembersKeeps(x, l);
    }
  }

  lemma {:induction false} MemberKeeps(x: string, l: string)
    requires ObjectLine(l) && Keeps(x, l) && ParseMember(x).Done?
    ensures var rest := ParseMember(x).rest; Keeps(rest, l) || rest == l[2..] || rest == ""
    decreases |x|, 1
  {
    SkipWsKeeps(x, l);
    var u := SkipWs(x);
    KeepsStep(u, l);
    StringKeeps(u[1..], l);
    AfterOpenString(l);
    var rest := ParseString(u[1..]).rest;
    assert Keeps(rest, l);
    SkipWsKeeps(rest, l);
    var w := SkipWs(rest);
    KeepsStep(w, l);
    ValueKeeps(w[1..], l);
  }

  lemma {:induction false} MembersKeeps(x: string, l: string)
    requires ObjectLine(l) && Keeps(x, l) && ParseMembers(x).Done?
    ensures Keeps(ParseMembers(x).rest, l)
    decreases |x|, 2
  {
    MemberKeeps(x, l);
    AfterOpenString(l);
    var rest := ParseMember(x).rest;
    assert Keeps(rest, l);
    SkipWsKeeps(rest, l);
    var u := SkipWs(rest);
    KeepsStep(u, l);
    if u[0] == ',' {
      MembersKeeps(u[1..], l);
    }
  }

  /** A text that ends in an object line is a document iff only blanks come before the line. */
  lemma GluedDocument(s: string, l: string)
    requires ObjectLine(l)
    ensures ParseDocument(s + l) == if SkipWs(s) == "" then ParseDocument(l) else Fail
  {
    var x := s + l;
    assert Keeps(x, l);
    SkipWsGrow(s, l);
    if SkipWs(s) == "" {
      assert SkipWs(x) == l == SkipWs(l);
    } else if ParseValue(x).Done? {
      ValueKeeps(x, l);
      AfterOpenString(l);
      var rest := ParseValue(x).rest;
      if Keeps(rest, l) {
        SkipWsKeeps(rest, l);
      }
      assert |SkipWs(x)| > |l|;
    }
  }

  /** Glued to a text that is not blank, even a part of an object line gives no document but a string. */
  lemma GluedPrefix(s: string, l: string, k: nat)
    requires ObjectLine(l) && SkipWs(s) != "" && 0 < k <= |l|
    ensures ParseDocument(s + l[..k]).Done? ==> ParseDocument(s + l[..k]).value.Str? || ParseDocument(s + l[..k]).value.Num?
  {
    var x, p := s + l, s + l[..k];
    if ParseDocument(p).Done? && !ParseDocument(p).value.Num? {
      var rest := ParseValue(p).rest;
      ValueGrow(p, l[k..]);
      Recombine(s, l, k);
      ValueKeeps(x, l);
      SkipWsGrow(s, l);
      assert |SkipWs(x)| > |l|;
      if Keeps(rest + l[k..], l) {
        BlankKeepsNone(rest, l, k);
      }
    }
  }

  lemma Recombine(s: string, l: string, k: nat)
    requires k <= |l|
    ensures (s + l[..k]) + l[k..] == s + l
    ensures Keeps(s + l, l)
  {
  }

  lemma BlankKeepsNone(rest: string, l: string, k: nat)
    requires ObjectLine(l) && 0 < k <= |l| && Keeps(rest + l[k..], l)
    ensures SkipWs(rest) != ""
  {
    var i := |rest| - k;
    assert (rest + l[k..])[i] == l[0] == '{';
    NotBlank(rest, i);
  }

  lemma {:induction false} NotBlank(s: string, i: nat)
    requires i < |s| && !IsWs(s[i])
    ensures SkipWs(s) != ""
  {
    if i > 0 {
      NotBlank(s[1..], i - 1);
    }
  }
}
