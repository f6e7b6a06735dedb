/**
 The printer as canonical.rs runs it: characters and words pushed onto one
 growing string, keys collected, sorted and looked up again.
*/
module CanonicalWriter {
  import opened Json
  import opened Canonical
  import opened Sequences
  import opened Utf8

  class TextBuffer {
    var text: string

    constructor ()
      ensures text == ""
    {
      text := "";
    }

    method Push(c: char)
      modifies this
      ensures text == old(text) + [c]
    {
      text := text + [c];
    }

    method PushStr(s: string)
      modifies this
      ensures text == old(text) + s
    {
      text := text + s;
    }
  }

  // ---- lists printed from the left ----

  lemma {:induction false} EscapedSnoc(s: string, n: nat)
    requires n < |s|
    ensures Escaped(s[..n + 1]) == Escaped(s[..n]) + EscapeChar(s[n])
  {
    if n == 0 {
      assert s[..1][1..] == "" && s[..0] == "";
    } else {
      EscapedSnoc(s[1..], n - 1);
      assert s[..n + 1][1..] == s[1..][..n] && s[..n][1..] == s[1..][..n - 1];
    }
  }

  lemma Regroup(a: string, x: string, c: string, v: string)
    ensures a + x + c + v == a + (x + c + v)
  {
  }

  lemma {:induction false} ItemsSnoc(items: seq<Json>, n: nat)
    requires n < |items|
    ensures CompactItems(items[..n + 1]) ==
            CompactItems(items[..n]) + (if n > 0 then [','] else "") + Compact(items[n])
  {
    if n == 0 {
      assert items[..1] == [items[0]];
    } else {
      var rest := items[1..];
      ItemsSnoc(rest, n - 1);
      assert items[..n + 1][1..] == rest[..n] && items[..n][1..] == rest[..n - 1];
      if n == 1 {
        assert rest[..0] == [];
      } else {
        Regroup(Compact(items[0]) + [','], CompactItems(rest[..n - 1]), [','], Compact(items[n]));
      }
    }
  }

  lemma {:induction false} MembersSnoc(ms: seq<Member>, n: nat)
    requires n < |ms|
    ensures CompactMembers(ms[..n + 1]) ==
            CompactMembers(ms[..n]) + (if n > 0 then [','] else "") + CompactMember(ms[n])
  {
    if n == 0 {
      assert ms[..1] == [ms[0]];
    } else {
      var rest := ms[1..];
      MembersSnoc(rest, n - 1);
      assert ms[..n + 1][1..] == rest[..n] && ms[..n][1..] == rest[..n - 1];
      if n == 1 {
        assert rest[..0] == [];
      } else {
        Regroup(CompactMember(ms[0]) + [','], CompactMembers(rest[..n - 1]), [','], CompactMember(ms[n]));
      }
    }
  }

  // ---- sorting keys and looking values up again is sorting members ----

  function KeyLe(): (string, string) -> bool {
    (a: string, b: string) => BytesLe(Encode(a), Encode(b))
  }

  function Keys(ms: seq<Member>): (r: seq<string>)
    ensures |r| == |ms|
    ensures forall i :: 0 <= i < |ms| ==> r[i] == ms[i].key
  {
    if ms == [] then [] else [ms[0].key] + Keys(ms[1..])
  }

  /** map[key] */
  function Lookup(ms: seq<Member>, key: string): Json
    requires exists i :: 0 <= i < |ms| && ms[i].key == key
  {
    if ms[0].key == key then ms[0].value else Lookup(ms[1..], key)
  }

  lemma {:induction false} LookupAt(ms: seq<Member>, i: nat)
    requires DistinctKeys(ms) && i < |ms|
    ensures Lookup(ms, ms[i].key) == ms[i].value
  {
    if i > 0 {
      LookupAt(ms[1..], i - 1);
    }
  }

  lemma {:induction false} InsertKeys(m: Member, ms: seq<Member>)
    ensures Keys(Insert(m, ms, RustKeyLe())) == Insert(m.key, Keys(ms), KeyLe())
  {
    if ms != [] {
      InsertKeys(m, ms[1..]);
      assert Keys(ms)[1..] == Keys(ms[1..]);
    }
  }

  lemma {:induction false} SortKeys(ms: seq<Member>)
    ensures Keys(Sort(ms, RustKeyLe())) == Sort(Keys(ms), KeyLe())
  {
    if ms != [] {
      SortKeys(ms[1..]);
      InsertKeys(ms[0], Sort(ms[1..], RustKeyLe()));
    }
  }

  /** The i-th key in sorted order, with its value normalized, is the i-th member of the normal object. */
  lemma SortedKeyFindsMember(ms: seq<Member>, i: nat) returns (j: nat)
    requires DistinctKeys(ms) && i < |ms|
    ensures |Sort(Keys(ms), KeyLe())| == |ms|
    ensures j < |ms| && ms[j].key == Sort(Keys(ms), KeyLe())[i]
    ensures Lookup(ms, ms[j].key) == ms[j].value
    ensures var ns := Sort(NormalMembers(ms, RustKeyLe()), RustKeyLe());
            |ns| == |ms| && ns[i] == Member(ms[j].key, Normal(ms[j].value, RustKeyLe()))
  {
    var raw := NormalMembers(ms, RustKeyLe());
    SortKeys(raw);
    assert Keys(raw) == Keys(ms);
    var at := SortedMembers(raw, RustKeyLe());
    j := at[i];
    LookupAt(ms, j);
  }

  lemma MembersStep(start: string, ns: seq<Member>, i: nat, before: string, after: string)
    requires i < |ns| && before == start + CompactMembers(ns[..i])
    requires after == before + (if i > 0 then [','] else "") + CompactMember(ns[i])
    ensures after == start + CompactMembers(ns[..i + 1])
  {
    MembersSnoc(ns, i);
    Regroup(start, CompactMembers(ns[..i]), if i > 0 then [','] else "", CompactMember(ns[i]));
  }

  lemma CanonObject(ms: seq<Member>, before: string)
    ensures before + ['{'] + CompactMembers(Sort(NormalMembers(ms, RustKeyLe()), RustKeyLe())) + ['}'] ==
            before + Canon(Obj(ms))
  {
  }

  // ---- the writer ----

  /** One character of a string, escaped where it has to be. */
  method WriteChar(out: TextBuffer, c: char)
    modifies out
    ensures out.text == old(out.text) + EscapeChar(c)
  {
    if c == '"' {
      out.PushStr(['\\', '"']);
    } else if c == '\\' {
      out.PushStr(['\\', '\\']);
    } else if c == '\n' {
      out.PushStr(['\\', 'n']);
    } else if c == '\r' {
      out.PushStr(['\\', 'r']);
    } else if c == '\t' {
      out.PushStr(['\\', 't']);
    } else if c == '\U{0008}' {
      out.PushStr(['\\', 'b']);
    } else if c == '\U{000c}' {
      out.PushStr(['\\', 'f']);
    } else if c < ' ' {
      out.PushStr(['\\', 'u', '0', '0', DigitChar(c as int / 16), DigitChar(c as int % 16)]);
    } else {
      out.Push(c);
    }
  }

  /** write_string */
  method WriteString(out: TextBuffer, s: string)
    modifies out
    ensures out.text == old(out.text) + Quoted(s)
  {
    out.Push('"');
    var i := 0;
    while i < |s|
      invariant i <= |s|
      invariant out.text == old(out.text) + ['"'] + Escaped(s[..i])
    {
      EscapedSnoc(s, i);
      WriteChar(out, s[i]);
      i := i + 1;
    }
    assert s[..i] == s;
    out.Push('"');
  }

  /** write_value */
  method WriteValue(out: TextBuffer, v: Json)
    requires WellFormed(v)
    modifies out
    ensures out.text == old(out.text) + Canon(v)
    decreases v, 0
  {
    match v
    case Null => out.PushStr("null");
    case Bool(b) => out.PushStr(if b then "true" else "false");
    case Num(x) => out.PushStr(NumberText(x));
    case Str(s) => WriteString(out, s);
    case Arr(items) => WriteItems(out, items);
    case Obj(ms) => WriteMembers(out, ms);
  }

  method WriteItems(out: TextBuffer, items: seq<Json>)
    requires WellFormed(Arr(items))
    modifies out
    ensures out.text == old(out.text) + Canon(Arr(items))
    decreases items
  {
    out.Push('[');
    ghost var start := out.text;
    ghost var ns := NormalItems(items, RustKeyLe());
    var i := 0;
    while i < |items|
      invariant i <= |items|
      invariant out.text == start + CompactItems(ns[..i])
    {
      if i > 0 {
        out.Push(',');
      }
      WriteValue(out, items[i]);
      ItemsSnoc(ns, i);
      Regroup(start, CompactItems(ns[..i]), if i > 0 then [','] else "", Compact(ns[i]));
      i := i + 1;
    }
    assert ns[..i] == ns;
    out.Push(']');
    assert Canon(Arr(items)) == ['['] + CompactItems(ns) + [']'];
  }

  method WriteMember(out: TextBuffer, key: string, v: Json)
    requires WellFormed(v)
    modifies out
    ensures out.text == old(out.text) + CompactMember(Member(key, Normal(v, RustKeyLe())))
    decreases v, 1
  {
    WriteString(out, key);
    out.Push(':');
    WriteValue(out, v);
    Regroup(old(out.text), Quoted(key), [':'], Canon(v));
  }

  /** The i-th round of the loop over the sorted keys. */
  method WriteNext(out: TextBuffer, ms: seq<Member>, keys: seq<string>, i: nat)
    requires WellFormed(Obj(ms)) && keys == Sort(Keys(ms), KeyLe()) && i < |keys| == |ms|
    modifies out
    ensures var ns := Sort(NormalMembers(ms, RustKeyLe()), RustKeyLe());
            |ns| == |ms| &&
            out.text == old(out.text) + (if i > 0 then [','] else "") + CompactMember(ns[i])
    decreases ms, 0
  {
    ghost var j := SortedKeyFindsMember(ms, i);
    if i > 0 {
      out.Push(',');
    }
    WriteMember(out, keys[i], Lookup(ms, keys[i]));
  }

  /** The loop over the sorted keys. */
  method WriteRounds(out: TextBuffer, ms: seq<Member>, keys: seq<string>, ghost ns: seq<Member>)
    requires WellFormed(Obj(ms)) && keys == Sort(Keys(ms), KeyLe()) && |keys| == |ms|
    requires ns == Sort(NormalMembers(ms, RustKeyLe()), RustKeyLe()) && |ns| == |ms|
    modifies out
    ensures out.text == old(out.text) + CompactMembers(ns)
    decreases ms, 1
  {
    ghost var start := out.text;
    var i := 0;
    while i < |keys|
      invariant i <= |keys|
      invariant out.text == start + CompactMembers(ns[..i])
    {
      ghost var before := out.text;
      WriteNext(out, ms, keys, i);
      MembersStep(start, ns, i, before, out.text);
      i := i + 1;
    }
    assert ns[..i] == ns;
  }

  method WriteMembers(out: TextBuffer, ms: seq<Member>)
    requires WellFormed(Obj(ms))
    modifies out
    ensures out.text == old(out.text) + Canon(Obj(ms))
    decreases ms, 2
  {
    var keys := Sort(Keys(ms), KeyLe());
    SortPermutes(Keys(ms), KeyLe());
    ghost var ns := Sort(NormalMembers(ms, RustKeyLe()), RustKeyLe());
    SortPermutes(NormalMembers(ms, RustKeyLe()), RustKeyLe());
    out.Push('{');
    WriteRounds(out, ms, keys, ns);
    out.Push('}');
    CanonObject(ms, old(out.text));
  }

  /** canonical_json */
  method CanonicalJson(v: Json) returns (text: string)
    requires WellFormed(v)
    ensures text == Canon(v)
  {
    var out := new TextBuffer();
    WriteValue(out, v);
    text := out.text;
    assert "" + Canon(v) == Canon(v);
  }
}
