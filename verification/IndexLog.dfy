/**
 The text of index.jsonl: one compact JSON object per line, and the line-by-line
 load that skips what it cannot read. The theorems say what survives a write that
 stops early, and when an append survives a reload.
*/
module IndexLog {
  import opened Wrappers
  import opened Json
  import opened JsonReader
  import opened JsonGlue
  import opened Utf8
  import Canonical
  import opened Sequences

  type U64 = n: int | 0 <= n < 0x1_0000_0000_0000_0000

  datatype IndexEntry = IndexEntry(
    ingestedAt: int,
    schema: string,
    provider: Option<string>,
    sha256: string,
    status: Option<string>,
    sizeBytes: U64)

  /** chrono's text form of a UTC instant, of which only the round trip is used. */
  datatype TimeCodec = TimeCodec(show: int -> string, read: string -> Option<int>) {
    ghost predicate Valid() {
      forall t :: read(show(t)) == Some(t)
    }
  }

  lemma ValidCodec() returns (c: TimeCodec)
    ensures c.Valid()
  {
    c := TimeCodec(IntText, (t: string) => if IsIntText(t) then Some(IntValue(t)) else None);
    forall t ensures c.read(c.show(t)) == Some(t) {
      IntRoundTrip(t);
    }
  }

  predicate IsHex(c: char) { '0' <= c <= '9' || 'a' <= c <= 'f' || 'A' <= c <= 'F' }

  /** is_valid_sha256_hex */
  predicate IsValidSha(s: string) {
    |s| == 64 && forall i :: 0 <= i < 64 ==> IsHex(s[i])
  }

  // ---- one entry as a line ----

  function OptionalMember(key: string, value: Option<string>): seq<Member> {
    match value case None => [] case Some(s) => [Member(key, Str(s))]
  }

  function EntryJson(c: TimeCodec, e: IndexEntry): Json {
    Obj([Member("ingested_at", Str(c.show(e.ingestedAt)))]
        + ([Member("schema", Str(e.schema))]
        + (OptionalMember("provider", e.provider)
        + ([Member("sha256", Str(e.sha256))]
        + (OptionalMember("status", e.status)
        + [Member("size_bytes", Num(Int(e.sizeBytes)))])))))
  }

  function EntryLine(c: TimeCodec, e: IndexEntry): string { Compact(EntryJson(c, e)) }

  /** A character that stands for itself inside a JSON string. */
  predicate IsPlain(c: char) { c >= ' ' && c != '"' && c != '\\' }

  lemma {:induction false} PlainEscaped(s: string)
    requires forall i :: 0 <= i < |s| ==> IsPlain(s[i])
    ensures Escaped(s) == s
  {
    if s != "" {
      PlainEscaped(s[1..]);
      HeadTail(s);
    }
  }

  lemma QuotedPlain(s: string)
    requires forall i :: 0 <= i < |s| ==> IsPlain(s[i])
    ensures Quoted(s) == ['"'] + s + ['"']
  {
    PlainEscaped(s);
  }

  /** A key as it is written before its value. */
  function KeyText(key: string): string { ['"'] + key + ['"', ':'] }

  function OptionalPart(key: string, value: Option<string>): string {
    match value case None => "" case Some(s) => [','] + KeyText(key) + Quoted(s)
  }

  /** The rest of an object after one of its members. */
  function Rest(ms: seq<Member>): string { [','] + CompactMembers(ms) + ['}'] }

  lemma CompactOne(m: Member, rest: seq<Member>)
    ensures CompactMembers([m] + rest) == if rest == [] then CompactMember(m) else CompactMember(m) + [','] + CompactMembers(rest)
  {
    assert ([m] + rest)[1..] == rest;
  }

  lemma KeyBefore(key: string, v: Json)
    requires forall i :: 0 <= i < |key| ==> IsPlain(key[i])
    ensures CompactMember(Member(key, v)) == KeyText(key) + Compact(v)
  {
    QuotedPlain(key);
    assert ['"'] + key + ['"'] + [':'] == KeyText(key);
  }

  lemma Regroup(a: string, b: string, c: string)
    ensures [','] + (a + b + [','] + c) + ['}'] == [','] + a + b + ([','] + c + ['}'])
    ensures [','] + (a + b) + ['}'] == [','] + a + b + ['}']
  {
  }

  lemma OneMember(key: string, v: Json, rest: seq<Member>)
    requires forall i :: 0 <= i < |key| ==> IsPlain(key[i])
    ensures Rest([Member(key, v)] + rest) ==
            [','] + KeyText(key) + Compact(v) + (if rest == [] then ['}'] else Rest(rest))
  {
    CompactOne(Member(key, v), rest);
    KeyBefore(key, v);
    Regroup(KeyText(key), Compact(v), CompactMembers(rest));
  }

  lemma OptionalOne(key: string, value: Option<string>, rest: seq<Member>)
    requires rest != [] && forall i :: 0 <= i < |key| ==> IsPlain(key[i])
    ensures Rest(OptionalMember(key, value) + rest) == OptionalPart(key, value) + Rest(rest)
  {
    match value {
      case None =>
        Unit(rest);
        Unit(Rest(rest));
      case Some(s) =>
        OneMember(key, Str(s), rest);
    }
  }

  lemma PlainKeys()
    ensures forall key, i :: key in ["ingested_at", "schema", "provider", "sha256", "status", "size_bytes"] && 0 <= i < |key| ==>
              IsPlain(key[i])
  {
  }

  /** What the rest of an entry line holds, field by field; absent options leave no trace. */
  function EntryText(time: string, e: IndexEntry): string {
    ['{'] + KeyText("ingested_at") + Quoted(time) +
    ([','] + KeyText("schema") + Quoted(e.schema) +
     (OptionalPart("provider", e.provider) +
      ([','] + KeyText("sha256") + Quoted(e.sha256) +
       (OptionalPart("status", e.status) +
        ([','] + KeyText("size_bytes") + IntText(e.sizeBytes) + ['}'])))))
  }

  lemma AfterSha(e: IndexEntry, size: seq<Member>)
    requires size == [Member("size_bytes", Num(Int(e.sizeBytes)))]
    ensures Rest(OptionalMember("status", e.status) + size) ==
            OptionalPart("status", e.status) + ([','] + KeyText("size_bytes") + IntText(e.sizeBytes) + ['}'])
  {
    PlainKeys();
    Unit(size);
    OneMember("size_bytes", Num(Int(e.sizeBytes)), []);
    OptionalOne("status", e.status, size);
  }

  lemma ShaPart(e: IndexEntry, rest: seq<Member>)
    requires rest != []
    ensures Rest([Member("sha256", Str(e.sha256))] + rest) == [','] + KeyText("sha256") + Quoted(e.sha256) + Rest(rest)
  {
    PlainKeys();
    OneMember("sha256", Str(e.sha256), rest);
  }

  lemma ProviderPart(e: IndexEntry, rest: seq<Member>)
    requires rest != []
    ensures Rest(OptionalMember("provider", e.provider) + rest) == OptionalPart("provider", e.provider) + Rest(rest)
  {
    PlainKeys();
    OptionalOne("provider", e.provider, rest);
  }

  lemma SchemaPart(e: IndexEntry, rest: seq<Member>)
    requires rest != []
    ensures Rest([Member("schema", Str(e.schema))] + rest) == [','] + KeyText("schema") + Quoted(e.schema) + Rest(rest)
  {
    PlainKeys();
    OneMember("schema", Str(e.schema), rest);
  }

  lemma TimePart(time: string, rest: seq<Member>)
    requires rest != []
    ensures Compact(Obj([Member("ingested_at", Str(time))] + rest)) == ['{'] + KeyText("ingested_at") + Quoted(time) + Rest(rest)
  {
    PlainKeys();
    OneMember("ingested_at", Str(time), rest);
    FirstOfRest([Member("ingested_at", Str(time))] + rest);
    DropComma(KeyText("ingested_at"), Quoted(time), Rest(rest));
  }

  lemma FirstOfRest(ms: seq<Member>)
    ensures Compact(Obj(ms)) == ['{'] + Rest(ms)[1..]
  {
  }

  lemma DropComma(a: string, b: string, c: string)
    ensures ['{'] + ([','] + a + b + c)[1..] == ['{'] + a + b + c
  {
  }

  /** The line of an entry: these keys, in this order, without blanks. */
  lemma EntryLineText(c: TimeCodec, e: IndexEntry)
    ensures EntryLine(c, e) == EntryText(c.show(e.ingestedAt), e)
  {
    var size := [Member("size_bytes", Num(Int(e.sizeBytes)))];
    var status := OptionalMember("status", e.status) + size;
    var sha := [Member("sha256", Str(e.sha256))] + status;
    var provider := OptionalMember("provider", e.provider) + sha;
    var schema := [Member("schema", Str(e.schema))] + provider;
    AfterSha(e, size);
    ShaPart(e, status);
    ProviderPart(e, sha);
    SchemaPart(e, provider);
    TimePart(c.show(e.ingestedAt), schema);
  }

  datatype Field = Missing | Present(value: Json) | Duplicate

  function FieldOf(ms: seq<Member>, key: string): Field {
    if ms == [] then Missing
    else if ms[0].key == key then
      if FieldOf(ms[1..], key).Missing? then Present(ms[0].value) else Duplicate
    else FieldOf(ms[1..], key)
  }

  /** An optional field: absent and null both mean none. */
  function OptionalField(f: Field): Field {
    if f.Missing? then Present(Null) else f
  }

  function OptionalText(v: Json): Option<Option<string>> {
    match v
    case Null => Some(None)
    case Str(s) => Some(Some(s))
    case _ => None
  }

  function EntryOfValues(c: TimeCodec, at: Json, schema: Json, provider: Json, sha: Json, status: Json, size: Json)
    : Option<IndexEntry>
  {
    if at.Str? && schema.Str? && sha.Str? && size.Num? && size.number.Int? &&
       0 <= size.number.n < 0x1_0000_0000_0000_0000 &&
       OptionalText(provider).Some? && OptionalText(status).Some? && c.read(at.text).Some?
    then Some(IndexEntry(c.read(at.text).value, schema.text, OptionalText(provider).value, sha.text,
                         OptionalText(status).value, size.number.n))
    else None
  }

  /** What serde accepts as an entry: an object with each field once, or the six values in order. */
  function EntryOf(c: TimeCodec, v: Json): Option<IndexEntry> {
    match v
    case Obj(ms) =>
      var at, schema, sha, size := FieldOf(ms, "ingested_at"), FieldOf(ms, "schema"), FieldOf(ms, "sha256"), FieldOf(ms, "size_bytes");
      var provider, status := OptionalField(FieldOf(ms, "provider")), OptionalField(FieldOf(ms, "status"));
      if at.Present? && schema.Present? && sha.Present? && size.Present? && provider.Present? && status.Present?
      then EntryOfValues(c, at.value, schema.value, provider.value, sha.value, status.value, size.value)
      else None
    case Arr(vs) =>
      if |vs| == 6 then EntryOfValues(c, vs[0], vs[1], vs[2], vs[3], vs[4], vs[5]) else None
    case _ => None
  }

  /** serde_json::from_str::<IndexEntry> */
  function ParseEntry(c: TimeCodec, line: string): Option<IndexEntry> {
    match ParseDocument(line) case Fail => None case Done(v, _) => EntryOf(c, v)
  }

  lemma FieldNames()
    ensures "ingested_at" != "schema" && "ingested_at" != "provider" && "ingested_at" != "sha256"
    ensures "ingested_at" != "status" && "ingested_at" != "size_bytes" && "schema" != "provider"
    ensures "schema" != "sha256" && "schema" != "status" && "schema" != "size_bytes"
    ensures "provider" != "sha256" && "provider" != "status" && "provider" != "size_bytes"
    ensures "sha256" != "status" && "sha256" != "size_bytes" && "status" != "size_bytes"
  {
    assert "schema"[1] != "sha256"[1] && "schema"[1] != "status"[1] && "sha256"[1] != "status"[1];
  }

  lemma FieldOfCons(m: Member, rest: seq<Member>, key: string)
    ensures FieldOf([m] + rest, key) ==
            if m.key != key then FieldOf(rest, key)
            else if FieldOf(rest, key).Missing? then Present(m.value) else Duplicate
  {
    assert ([m] + rest)[1..] == rest;
  }

  lemma FieldOfOptional(name: string, value: Option<string>, rest: seq<Member>, key: string)
    ensures FieldOf(OptionalMember(name, value) + rest, key) ==
            if value.None? || name != key then FieldOf(rest, key)
            else if FieldOf(rest, key).Missing? then Present(Str(value.value)) else Duplicate
  {
    if value.None? {
      assert [] + rest == rest;
    } else {
      FieldOfCons(Member(name, Str(value.value)), rest, key);
    }
  }

  function EntryField(c: TimeCodec, e: IndexEntry, key: string): Field {
    if key == "ingested_at" then Present(Str(c.show(e.ingestedAt)))
    else if key == "schema" then Present(Str(e.schema))
    else if key == "provider" && e.provider.Some? then Present(Str(e.provider.value))
    else if key == "sha256" then Present(Str(e.sha256))
    else if key == "status" && e.status.Some? then Present(Str(e.status.value))
    else if key == "size_bytes" then Present(Num(Int(e.sizeBytes)))
    else Missing
  }

  lemma EntryFieldAt(c: TimeCodec, e: IndexEntry, key: string)
    ensures FieldOf(EntryJson(c, e).members, key) == EntryField(c, e, key)
  {
    FieldNames();
    var t5 := [Member("size_bytes", Num(Int(e.sizeBytes)))];
    var t4 := OptionalMember("status", e.status) + t5;
    var t3 := [Member("sha256", Str(e.sha256))] + t4;
    var t2 := OptionalMember("provider", e.provider) + t3;
    var t1 := [Member("schema", Str(e.schema))] + t2;
    FieldOfCons(t5[0], [], key);
    Unit(t5);
    FieldOfOptional("status", e.status, t5, key);
    FieldOfCons(t3[0], t4, key);
    FieldOfOptional("provider", e.provider, t3, key);
    FieldOfCons(t1[0], t2, key);
    FieldOfCons(Member("ingested_at", Str(c.show(e.ingestedAt))), t1, key);
  }

  /** Reading an entry's line back gives the entry. */
  lemma EntryRoundTrip(c: TimeCodec, e: IndexEntry)
    requires c.Valid()
    ensures ParseEntry(c, EntryLine(c, e)) == Some(e)
  {
    FieldNames();
    DocumentRoundTrip(EntryJson(c, e));
    EntryFieldAt(c, e, "ingested_at");
    EntryFieldAt(c, e, "schema");
    EntryFieldAt(c, e, "provider");
    EntryFieldAt(c, e, "sha256");
    EntryFieldAt(c, e, "status");
    EntryFieldAt(c, e, "size_bytes");
  }

  lemma EntryLineShape(c: TimeCodec, e: IndexEntry)
    ensures var l := EntryLine(c, e);
            ObjectLine(l) && l[|l| - 1] == '}' && Canonical.NoControls(l)
  {
    var v := EntryJson(c, e);
    var l := EntryLine(c, e);
    ValueRoundTrip(v, "");
    assert l + "" == l;
    Canonical.CompactHasNoControls(v);
    EntryLineStart(v.members);
  }

  lemma QuotedStart(key: string, t: string)
    requires key != "" && 'a' <= key[0] <= 'z'
    ensures (Quoted(key) + t)[0] == '"' && (Quoted(key) + t)[1] == key[0]
  {
    assert Escaped(key)[0] == key[0];
  }

  lemma EntryLineStart(ms: seq<Member>)
    requires ms != [] && ms[0].key == "ingested_at"
    ensures |Compact(Obj(ms))| > 2 && Compact(Obj(ms))[..3] == ['{', '"', 'i']
  {
    var body := CompactMembers(ms);
    QuotedStart(ms[0].key, [':'] + Compact(ms[0].value));
    var m := CompactMember(ms[0]);
    Assoc(Quoted(ms[0].key), [':'], Compact(ms[0].value));
    assert m == Quoted(ms[0].key) + ([':'] + Compact(ms[0].value));
    assert m[0] == '"' && m[1] == 'i';
    assert body[0] == m[0] && body[1] == m[1];
  }

  /** No strict prefix of an entry's line is a JSON document. */
  lemma EntryPrefixRejected(c: TimeCodec, e: IndexEntry, k: nat)
    requires k < |EntryLine(c, e)|
    ensures ParseDocument(EntryLine(c, e)[..k]) == Fail
  {
    var l := EntryLine(c, e);
    var p := l[..k];
    EntryLineShape(c, e);
    assert l == p + l[k..];
    ValueRoundTrip(EntryJson(c, e), "");
    assert l + "" == l;
    if k > 0 && ParseValue(p).Done? {
      assert p[0] == '{' && SkipWs(p) == p;
      assert !ParseValue(p).value.Num?;
      ValueGrow(p, l[k..]);
    }
  }

  // ---- lines ----

  /** Where the first newline is, or the length of the text. */
  function NewlineAt(s: string): (i: nat)
    ensures i <= |s|
    ensures i < |s| ==> s[i] == '\n'
    ensures forall j :: 0 <= j < i ==> s[j] != '\n'
  {
    if s == "" || s[0] == '\n' then 0 else 1 + NewlineAt(s[1..])
  }

  function StripCr(line: string): string {
    if line != "" && line[|line| - 1] == '\r' then line[..|line| - 1] else line
  }

  /** The lines next_line yields: a last line without its newline counts, an empty one does not. */
  function Lines(s: string): seq<string> {
    if s == "" then []
    else if NewlineAt(s) == |s| then [s]
    else [StripCr(s[..NewlineAt(s)])] + Lines(s[NewlineAt(s) + 1..])
  }

  /** Empty, or ending in a newline. */
  predicate Terminated(s: string) { s == "" || s[|s| - 1] == '\n' }

  lemma NewlineAtAppend(a: string, b: string)
    ensures NewlineAt(a) < |a| ==> NewlineAt(a + b) == NewlineAt(a)
    ensures NewlineAt(a) == |a| ==> NewlineAt(a + b) == |a| + NewlineAt(b)
  {
    if a == "" {
      assert a + b == b;
    } else if a[0] != '\n' {
      NewlineAtAppend(a[1..], b);
      assert (a + b)[1..] == a[1..] + b;
    }
  }

  lemma FirstNewline(a: string, b: string)
    requires NewlineAt(a) < |a|
    ensures NewlineAt(a + b) == NewlineAt(a)
    ensures (a + b)[..NewlineAt(a)] == a[..NewlineAt(a)]
    ensures (a + b)[NewlineAt(a) + 1..] == a[NewlineAt(a) + 1..] + b
  {
    NewlineAtAppend(a, b);
  }

  lemma TerminatedRest(a: string)
    requires Terminated(a) && a != ""
    ensures NewlineAt(a) < |a| && Terminated(a[NewlineAt(a) + 1..])
  {
  }

  lemma {:induction false} LinesAppend(a: string, b: string)
    requires Terminated(a)
    ensures Lines(a + b) == Lines(a) + Lines(b)
    decreases |a|
  {
    if a == "" {
      Unit(b);
      Unit(Lines(b));
    } else {
      TerminatedRest(a);
      var first, rest := [StripCr(a[..NewlineAt(a)])], a[NewlineAt(a) + 1..];
      LinesAppend(rest, b);
      FirstNewline(a, b);
      Assoc(first, Lines(rest), Lines(b));
    }
  }

  /** A text without newlines, alone and followed by one. */
  lemma OneLine(s: string)
    requires NewlineAt(s) == |s|
    ensures Lines(s) == if s == "" then [] else [s]
    ensures Lines(s + ['\n']) == [StripCr(s)]
  {
    NewlineAtAppend(s, ['\n']);
    var t := s + ['\n'];
    assert NewlineAt(t) == |s|;
    assert t[..|s|] == s && t[|s| + 1..] == "";
  }

  /** The text up to and including the last newline. */
  function Head(s: string): string {
    if Terminated(s) then s else Head(s[..|s| - 1])
  }

  /** What follows the last newline. */
  function Tail(s: string): string {
    if Terminated(s) then "" else Tail(s[..|s| - 1]) + [s[|s| - 1]]
  }

  lemma {:induction false} HeadAndTail(s: string)
    ensures s == Head(s) + Tail(s)
    ensures Terminated(Head(s)) && NewlineAt(Tail(s)) == |Tail(s)|
  {
    if Terminated(s) {
      Unit(s);
    } else {
      var init, last := s[..|s| - 1], [s[|s| - 1]];
      HeadAndTail(init);
      Assoc(Head(init), Tail(init), last);
      NewlineAtAppend(Tail(init), last);
    }
  }

  // ---- the load ----

  /** Unicode White_Space, which str::trim removes. */
  predicate IsSpace(c: char) {
    var n := c as int;
    9 <= n <= 13 || n == 32 || n == 0x85 || n == 0xA0 || n == 0x1680 || 0x2000 <= n <= 0x200A ||
    n == 0x2028 || n == 0x2029 || n == 0x202F || n == 0x205F || n == 0x3000
  }

  predicate IsBlank(line: string) { forall i :: 0 <= i < |line| ==> IsSpace(line[i]) }

  datatype Load = Load(entries: seq<IndexEntry>, malformed: nat, invalidSha: nat)

  const Nothing := Load([], 0, 0)

  function Join(a: Load, b: Load): Load {
    Load(a.entries + b.entries, a.malformed + b.malformed, a.invalidSha + b.invalidSha)
  }

  function LoadLine(c: TimeCodec, line: string): Load {
    if IsBlank(line) then Nothing
    else
      match ParseEntry(c, line)
      case None => Load([], 1, 0)
      case Some(e) => if IsValidSha(e.sha256) then Load([e], 0, 0) else Load([], 0, 1)
  }

  function Collect(lines: seq<string>, f: string -> Load): Load {
    if lines == [] then Nothing else Join(f(lines[0]), Collect(lines[1..], f))
  }

  function LineLoader(c: TimeCodec): string -> Load {
    (line: string) => LoadLine(c, line)
  }

  /** load_from_disk on a text file. */
  function LoadText(c: TimeCodec, s: string): Load { Collect(Lines(s), LineLoader(c)) }

  lemma {:induction false} CollectedAreValid(lines: seq<string>, c: TimeCodec)
    ensures forall e :: e in Collect(lines, LineLoader(c)).entries ==> IsValidSha(e.sha256)
  {
    if lines != [] {
      CollectedAreValid(lines[1..], c);
    }
  }

  /** Only entries with 64 hexadecimal digits for a sha are loaded. */
  lemma LoadedShas(c: TimeCodec, s: string)
    ensures forall e :: e in LoadText(c, s).entries ==>
              |e.sha256| == 64 && forall i :: 0 <= i < 64 ==> e.sha256[i] in "0123456789abcdefABCDEF"
  {
    CollectedAreValid(Lines(s), c);
    forall e | e in LoadText(c, s).entries
      ensures |e.sha256| == 64 && forall i :: 0 <= i < 64 ==> e.sha256[i] in "0123456789abcdefABCDEF"
    {
      assert IsValidSha(e.sha256);
      forall i | 0 <= i < 64 ensures e.sha256[i] in "0123456789abcdefABCDEF" {
        HexDigits(e.sha256[i]);
      }
    }
  }

  lemma HexDigits(c: char)
    ensures IsHex(c) <==> c in "0123456789abcdefABCDEF"
  {
  }

  lemma JoinAssoc(x: Load, y: Load, z: Load)
    ensures Join(x, Join(y, z)) == Join(Join(x, y), z)
  {
    Assoc(x.entries, y.entries, z.entries);
  }

  lemma JoinUnit(x: Load)
    ensures Join(Nothing, x) == x == Join(x, Nothing)
  {
    Unit(x.entries);
  }

  lemma CollectCons(line: string, rest: seq<string>, f: string -> Load)
    ensures Collect([line] + rest, f) == Join(f(line), Collect(rest, f))
  {
    assert ([line] + rest)[1..] == rest;
  }

  lemma {:induction false} CollectAppend(a: seq<string>, b: seq<string>, f: string -> Load)
    ensures Collect(a + b, f) == Join(Collect(a, f), Collect(b, f))
  {
    if a == [] {
      Unit(b);
      JoinUnit(Collect(b, f));
    } else {
      var rest := a[1..];
      CollectAppend(rest, b, f);
      JoinAssoc(f(a[0]), Collect(rest, f), Collect(b, f));
      Assoc([a[0]], rest, b);
      HeadTail(a);
      CollectCons(a[0], rest, f);
      CollectCons(a[0], rest + b, f);
    }
  }

  lemma CollectOne(line: string, f: string -> Load)
    ensures Collect([line], f) == f(line)
  {
    assert [line][1..] == [];
    JoinUnit(f(line));
  }

  /** Loads of consecutive texts add up when the first one ends its last line. */
  lemma LoadAppend(c: TimeCodec, a: string, b: string)
    requires Terminated(a)
    ensures LoadText(c, a + b) == Join(LoadText(c, a), LoadText(c, b))
  {
    LinesAppend(a, b);
    CollectAppend(Lines(a), Lines(b), LineLoader(c));
  }

  lemma LoadOneLine(c: TimeCodec, s: string, line: string)
    requires Lines(s) == [line]
    ensures LoadText(c, s) == LoadLine(c, line)
  {
    CollectOne(line, LineLoader(c));
  }

  lemma EntryLineLoads(c: TimeCodec, e: IndexEntry)
    requires c.Valid() && IsValidSha(e.sha256)
    ensures LoadLine(c, EntryLine(c, e)) == Load([e], 0, 0)
    ensures Lines(EntryLine(c, e)) == Lines(EntryLine(c, e) + ['\n']) == [EntryLine(c, e)]
  {
    var l := EntryLine(c, e);
    EntryRoundTrip(c, e);
    EntryLineShape(c, e);
    assert !IsBlank(l) by { assert !IsSpace(l[0]); }
    assert NewlineAt(l) == |l|;
    OneLine(l);
  }

  function NotBlank(): string -> bool {
    (line: string) => !IsBlank(line)
  }

  /** Every line that is not blank is an entry, is malformed, or has an invalid sha. */
  lemma {:induction false} CollectCounts(c: TimeCodec, lines: seq<string>)
    ensures var load := Collect(lines, LineLoader(c));
            |load.entries| + load.malformed + load.invalidSha == |Filter(lines, NotBlank())|
  {
    if lines != [] {
      CollectCounts(c, lines[1..]);
    }
  }

  lemma LoadCounts(c: TimeCodec, s: string)
    ensures |LoadText(c, s).entries| + LoadText(c, s).malformed + LoadText(c, s).invalidSha == |Filter(Lines(s), NotBlank())|
  {
    CollectCounts(c, Lines(s));
  }

  /** An entry whose sha is not one is counted as that. */
  lemma InvalidShaCounted(c: TimeCodec, e: IndexEntry)
    requires c.Valid() && !IsValidSha(e.sha256)
    ensures LoadLine(c, EntryLine(c, e)) == Load([], 0, 1)
  {
    EntryRoundTrip(c, e);
    EntryLineShape(c, e);
    assert !IsBlank(EntryLine(c, e)) by { assert !IsSpace(EntryLine(c, e)[0]); }
  }

  /** A line may end in a newline, or in a carriage return and a newline. */
  lemma EitherEnding(line: string, rest: string)
    requires NewlineAt(line) == |line| && (line == "" || line[|line| - 1] != '\r')
    ensures Lines(line + ['\n'] + rest) == [line] + Lines(rest)
    ensures Lines(line + ['\r'] + ['\n'] + rest) == [line] + Lines(rest)
  {
    OneLine(line);
    LinesAppend(line + ['\n'], rest);
    NewlineAtAppend(line, ['\r']);
    OneLine(line + ['\r']);
    LinesAppend(line + ['\r'] + ['\n'], rest);
  }

  // ---- what survives a write that stops early ----

  /** The line and the newline that append_inner writes. */
  function Written(c: TimeCodec, e: IndexEntry): string { EntryLine(c, e) + ['\n'] }

  lemma PartialLineLoads(c: TimeCodec, e: IndexEntry, k: nat)
    requires 0 < k < |EntryLine(c, e)|
    ensures LoadText(c, EntryLine(c, e)[..k]) == Load([], 1, 0)
  {
    var w := EntryLine(c, e)[..k];
    EntryLineShape(c, e);
    EntryPrefixRejected(c, e, k);
    assert !IsBlank(w) by { assert !IsSpace(w[0]); }
    assert NewlineAt(w) == |w|;
    OneLine(w);
    LoadOneLine(c, w, w);
  }

  /** What the first k characters of an appended line load as: the entry, exactly when the line is complete. */
  function CutLoad(c: TimeCodec, e: IndexEntry, k: nat): Load {
    if k == 0 then Nothing
    else if k < |EntryLine(c, e)| then Load([], 1, 0)
    else Load([e], 0, 0)
  }

  lemma CutLineLoads(c: TimeCodec, e: IndexEntry, k: nat)
    requires c.Valid() && IsValidSha(e.sha256) && k <= |Written(c, e)|
    ensures LoadText(c, Written(c, e)[..k]) == CutLoad(c, e, k)
  {
    var l := EntryLine(c, e);
    var w := Written(c, e)[..k];
    if k < |l| {
      assert w == l[..k];
      if k > 0 {
        PartialLineLoads(c, e, k);
      }
    } else {
      EntryLineLoads(c, e);
      assert w == if k == |l| then l else l + ['\n'];
      LoadOneLine(c, w, l);
    }
  }

  lemma CrashedAppendLoads(c: TimeCodec, before: string, e: IndexEntry, k: nat)
    requires c.Valid() && IsValidSha(e.sha256) && k <= |Written(c, e)|
    requires Terminated(before)
    ensures LoadText(c, before + Written(c, e)[..k]) == Join(LoadText(c, before), CutLoad(c, e, k))
  {
    LoadAppend(c, before, Written(c, e)[..k]);
    CutLineLoads(c, e, k);
  }

  /**
   A crash that cuts the write of a line anywhere: reloading yields the old
   entries, or the old entries and the new one, and never anything else.
  */
  lemma CrashedAppendIsAtomic(c: TimeCodec, before: string, e: IndexEntry, k: nat)
    requires c.Valid() && IsValidSha(e.sha256) && k <= |Written(c, e)|
    requires Terminated(before)
    ensures k < |EntryLine(c, e)| ==>
              LoadText(c, before + Written(c, e)[..k]).entries == LoadText(c, before).entries
    ensures k >= |EntryLine(c, e)| ==>
              LoadText(c, before + Written(c, e)[..k]).entries == LoadText(c, before).entries + [e]
  {
    var after := LoadText(c, before + Written(c, e)[..k]);
    CrashedAppendLoads(c, before, e, k);
    EntryLineShape(c, e);
    CutEntries(LoadText(c, before), CutLoad(c, e, k));
  }

  lemma CutEntries(a: Load, b: Load)
    ensures b.entries == [] ==> Join(a, b).entries == a.entries
  {
  }

  /** The load of the bytes of a file: nothing when they are not valid UTF-8. */
  function LoadBytes(c: TimeCodec, bs: seq<Byte>): Option<Load> {
    match Decode(bs) case None => None case Some(s) => Some(LoadText(c, s))
  }

  lemma CutBytes(before: string, w: string, k: nat)
    requires k <= |Encode(w)|
    ensures var j := WholeChars(w, k);
            Decode(Encode(before) + Encode(w)[..k]) ==
            if k == |Encode(w[..j])| then Some(before + w[..j]) else None
  {
    DecodeCut(w, k);
    DecodeEncodedPrefix(before, Encode(w)[..k]);
  }

  lemma CutBytesLoad(c: TimeCodec, before: string, w: string, k: nat, j: nat)
    requires k <= |Encode(w)| && j == WholeChars(w, k)
    ensures LoadBytes(c, Encode(before) + Encode(w)[..k]) ==
            if k == |Encode(w[..j])| then Some(LoadText(c, before + w[..j])) else None
  {
    CutBytes(before, w, k);
  }

  /** The same at byte granularity: the whole load fails exactly when the cut is inside a character. */
  lemma CrashedAppendBytes(c: TimeCodec, before: string, e: IndexEntry, k: nat)
    requires c.Valid() && IsValidSha(e.sha256) && Terminated(before)
    requires k <= |Encode(Written(c, e))|
    ensures var j := WholeChars(Written(c, e), k);
            LoadBytes(c, Encode(before) + Encode(Written(c, e))[..k]) ==
            if k == |Encode(Written(c, e)[..j])| then Some(Join(LoadText(c, before), CutLoad(c, e, j))) else None
  {
    var w := Written(c, e);
    var j := WholeChars(w, k);
    CutBytesLoad(c, before, w, k, j);
    CrashedAppendLoads(c, before, e, j);
  }

  // ---- when an append survives a reload ----

  lemma BlankTail(t: string)
    requires SkipWs(t) == ""
    ensures IsBlank(t)
  {
    if t != "" {
      BlankTail(t[1..]);
      assert forall i :: 1 <= i < |t| ==> t[i] == t[1..][i - 1];
    }
  }

  lemma LoadSplit(c: TimeCodec, s: string)
    ensures LoadText(c, s) == Join(LoadText(c, Head(s)), LoadText(c, Tail(s)))
    ensures SkipWs(Tail(s)) == "" ==> LoadText(c, s) == LoadText(c, Head(s))
  {
    HeadAndTail(s);
    LoadAppend(c, Head(s), Tail(s));
    OneLine(Tail(s));
    if SkipWs(Tail(s)) == "" {
      BlankTail(Tail(s));
      if Tail(s) != "" {
        LoadOneLine(c, Tail(s), Tail(s));
      }
      JoinUnit(LoadText(c, Head(s)));
    }
  }

  lemma GluedNotBlank(c: TimeCodec, t: string, e: IndexEntry)
    ensures !IsBlank(t + EntryLine(c, e))
  {
    EntryLineShape(c, e);
    assert (t + EntryLine(c, e))[|t|] == '{';
    assert !IsSpace('{');
  }

  lemma GluedShape(c: TimeCodec, t: string, e: IndexEntry)
    requires NewlineAt(t) == |t|
    ensures Lines(t + Written(c, e)) == [t + EntryLine(c, e)]
  {
    var l := EntryLine(c, e);
    EntryLineShape(c, e);
    NewlineAtAppend(t, l);
    assert NewlineAt(l) == |l|;
    OneLine(t + l);
    Assoc(t, l, ['\n']);
    LastOf(t, l);
  }

  lemma LastOf(t: string, l: string)
    requires l != ""
    ensures (t + l)[|t + l| - 1] == l[|l| - 1]
  {
  }

  lemma GluedLine(c: TimeCodec, t: string, e: IndexEntry)
    requires c.Valid() && IsValidSha(e.sha256) && NewlineAt(t) == |t|
    ensures LoadText(c, t + Written(c, e)) ==
            if SkipWs(t) == "" then Load([e], 0, 0) else Load([], 1, 0)
  {
    GluedShape(c, t, e);
    GluedNotBlank(c, t, e);
    LoadOneLine(c, t + Written(c, e), t + EntryLine(c, e));
    EntryLineShape(c, e);
    GluedDocument(t, EntryLine(c, e));
    EntryRoundTrip(c, e);
  }

  lemma AppendedLoads(c: TimeCodec, s: string, e: IndexEntry)
    requires c.Valid() && IsValidSha(e.sha256)
    ensures LoadText(c, s + Written(c, e)) ==
            if SkipWs(Tail(s)) == "" then Join(LoadText(c, s), Load([e], 0, 0))
            else Join(LoadText(c, Head(s)), Load([], 1, 0))
  {
    HeadAndTail(s);
    Assoc(Head(s), Tail(s), Written(c, e));
    LoadAppend(c, Head(s), Tail(s) + Written(c, e));
    GluedLine(c, Tail(s), e);
    LoadSplit(c, s);
  }

  /**
   A completed append survives a reload iff only blanks follow the last newline.
   Otherwise the new entry is lost, together with whatever the torn line held.
  */
  lemma AppendSurvivesIff(c: TimeCodec, s: string, e: IndexEntry)
    requires c.Valid() && IsValidSha(e.sha256)
    ensures LoadText(c, s + Written(c, e)).entries == LoadText(c, s).entries + [e] <==> SkipWs(Tail(s)) == ""
    ensures SkipWs(Tail(s)) != "" ==> LoadText(c, s + Written(c, e)).entries == LoadText(c, Head(s)).entries
  {
    AppendedLoads(c, s, e);
    LoadSplit(c, s);
    Unit(LoadText(c, Head(s)).entries);
  }

  lemma GluedPart(c: TimeCodec, t: string, e: IndexEntry, k: nat)
    requires c.Valid() && IsValidSha(e.sha256) && 0 < k < |EntryLine(c, e)|
    ensures ParseEntry(c, t + EntryLine(c, e)[..k]) == None
  {
    var l := EntryLine(c, e);
    EntryLineShape(c, e);
    if SkipWs(t) != "" {
      GluedPrefix(t, l, k);
    } else {
      SkipWsGrow(t, l[..k]);
      assert l[..k][0] == '{';
      EntryPrefixRejected(c, e, k);
    }
  }

  lemma OneGluedLine(c: TimeCodec, t: string, w: string)
    requires NewlineAt(t) == |t| && NewlineAt(w) == |w| && w != "" && w[0] == '{'
    ensures LoadText(c, t + w) == LoadLine(c, t + w)
    ensures !IsBlank(t + w)
  {
    NewlineAtAppend(t, w);
    OneLine(t + w);
    LoadOneLine(c, t + w, t + w);
    assert (t + w)[|t|] == '{' && !IsSpace('{');
  }

  lemma PartShape(c: TimeCodec, e: IndexEntry, k: nat)
    requires 0 < k <= |EntryLine(c, e)|
    ensures var w := EntryLine(c, e)[..k]; NewlineAt(w) == |w| && w != "" && w[0] == '{'
  {
    EntryLineShape(c, e);
  }

  lemma GluedCut(c: TimeCodec, t: string, e: IndexEntry, k: nat)
    requires NewlineAt(t) == |t| && 0 < k <= |EntryLine(c, e)|
    ensures LoadText(c, t + EntryLine(c, e)[..k]) == LoadLine(c, t + EntryLine(c, e)[..k])
    ensures !IsBlank(t + EntryLine(c, e)[..k])
  {
    PartShape(c, e, k);
    OneGluedLine(c, t, EntryLine(c, e)[..k]);
  }

  lemma LineWithoutNewline(c: TimeCodec, t: string, e: IndexEntry)
    requires c.Valid() && IsValidSha(e.sha256) && NewlineAt(t) == |t|
    ensures LoadText(c, t + EntryLine(c, e)) == LoadText(c, t + Written(c, e))
  {
    var l := EntryLine(c, e);
    assert l[..|l|] == l;
    EntryLineShape(c, e);
    GluedCut(c, t, e, |l|);
    GluedShape(c, t, e);
    LoadOneLine(c, t + Written(c, e), t + l);
  }

  lemma GluedLoad(c: TimeCodec, t: string, e: IndexEntry, k: nat)
    requires c.Valid() && IsValidSha(e.sha256) && NewlineAt(t) == |t| && 0 < k <= |Written(c, e)|
    ensures LoadText(c, t + Written(c, e)[..k]) ==
            if SkipWs(t) == "" && k >= |EntryLine(c, e)| then Load([e], 0, 0) else Load([], 1, 0)
  {
    var l, w := EntryLine(c, e), Written(c, e);
    if k < |l| {
      assert w[..k] == l[..k];
      GluedCut(c, t, e, k);
      GluedPart(c, t, e, k);
    } else {
      assert w[..k] == if k == |l| then l else w;
      LineWithoutNewline(c, t, e);
      GluedLine(c, t, e);
    }
  }

  /**
   Any write of an entry, cut anywhere, after any text: the reload gains exactly
   that entry, when the line is complete and only blanks followed the last newline
   before, and otherwise it gains nothing and keeps what the complete lines held.
  */
  lemma AnyWriteLoads(c: TimeCodec, s: string, e: IndexEntry, k: nat)
    requires c.Valid() && IsValidSha(e.sha256) && 0 < k <= |Written(c, e)|
    ensures LoadText(c, s + Written(c, e)[..k]).entries ==
            if SkipWs(Tail(s)) == "" && k >= |EntryLine(c, e)| then LoadText(c, s).entries + [e]
            else LoadText(c, Head(s)).entries
  {
    var w := Written(c, e)[..k];
    HeadAndTail(s);
    Assoc(Head(s), Tail(s), w);
    LoadAppend(c, Head(s), Tail(s) + w);
    GluedLoad(c, Tail(s), e, k);
    LoadSplit(c, s);
    Unit(LoadText(c, Head(s)).entries);
  }

  /** What the complete lines hold comes first in what the whole text holds. */
  lemma HeadLoadsPrefix(c: TimeCodec, s: string)
    ensures LoadText(c, Head(s)).entries <= LoadText(c, s).entries
    ensures SkipWs(Tail(s)) == "" ==> LoadText(c, Head(s)).entries == LoadText(c, s).entries
  {
    LoadSplit(c, s);
  }

  /**
   The crash window this leaves: when only the newline of an entry is missing,
   the entry is reported after a reload, and the next append destroys both.
  */
  lemma LostNewlineLosesTwo(c: TimeCodec, before: string, e: IndexEntry, next: IndexEntry)
    requires c.Valid() && IsValidSha(e.sha256) && IsValidSha(next.sha256) && Terminated(before)
    ensures var torn := before + EntryLine(c, e);
            && LoadText(c, torn).entries == LoadText(c, before).entries + [e]
            && LoadText(c, torn + Written(c, next)).entries == LoadText(c, before).entries
  {
    var l := EntryLine(c, e);
    EntryLineShape(c, e);
    assert Written(c, e)[..|l|] == l;
    CrashedAppendIsAtomic(c, before, e, |l|);
    var torn := before + l;
    var glued := l + Written(c, next);
    assert NewlineAt(l) == |l|;
    assert torn + Written(c, next) == before + glued;
    LoadAppend(c, before, glued);
    GluedLine(c, l, next);
    JoinUnit(LoadText(c, before));
  }
}
