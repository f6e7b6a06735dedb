/**
 The content address of an upload: the digest of the canonical form of what
 serde_json makes of its bytes. The reader keeps integers of 64 bits, turns every
 other number into a double, and keeps the last of repeated object keys.
*/
module ContentAddress {
  import opened Wrappers
  import opened Utf8
  import opened Sequences
  import opened Json
  import JsonReader
  import opened JsonLookup
  import opened Canonical

  /**
   Reading a number as a double and printing it again, the shortest way that reads
   back as the same double; none when it is out of range.
  */
  datatype Doubles = Doubles(read: string -> Option<string>) {
    ghost predicate Valid() {
      forall t :: read(t).Some? ==> IsFloatText(read(t).value) && read(read(t).value) == read(t)
    }
  }

  /** Doubles that print as they were written. */
  lemma ValidDoubles() returns (f: Doubles)
    ensures f.Valid() && forall t :: IsFloatText(t) ==> f.read(t) == Some(t)
  {
    f := Doubles(t => if IsFloatText(t) then Some(t) else None);
  }

  predicate In64Bits(n: int) { -0x8000_0000_0000_0000 <= n < 0x1_0000_0000_0000_0000 }

  function AsDouble(f: Doubles, t: string): Option<Json> {
    match f.read(t) case None => None case Some(r) => Some(Num(Float(r)))
  }

  predicate HasKey(ms: seq<Member>, key: string) { exists i :: 0 <= i < |ms| && ms[i].key == key }

  /** The value serde_json builds from a parsed text, or none when a number is out of range. */
  function AsRead(f: Doubles, v: Json): Option<Json>
    decreases v, 0
  {
    match v
    case Num(Int(n)) => if In64Bits(n) then Some(v) else AsDouble(f, IntText(n))
    case Num(Float(t)) => AsDouble(f, t)
    case Arr(items) => (match ItemsAsRead(f, items) case None => None case Some(r) => Some(Arr(r)))
    case Obj(ms) => (match MembersAsRead(f, ms) case None => None case Some(r) => Some(Obj(r)))
    case _ => Some(v)
  }

  function ItemsAsRead(f: Doubles, items: seq<Json>): Option<seq<Json>>
    decreases items, 1
  {
    if items == [] then Some([])
    else
      match (AsRead(f, items[0]), ItemsAsRead(f, items[1..]))
      case (Some(v), Some(rest)) => Some([v] + rest)
      case _ => None
  }

  /** A key that comes again later is replaced. */
  function MembersAsRead(f: Doubles, ms: seq<Member>): Option<seq<Member>>
    decreases ms, 1
  {
    if ms == [] then Some([])
    else
      match (AsRead(f, ms[0].value), MembersAsRead(f, ms[1..]))
      case (Some(v), Some(rest)) => Some(if HasKey(rest, ms[0].key) then rest else [Member(ms[0].key, v)] + rest)
      case _ => None
  }

  /** The integers of i64 and u64 are kept; any other is read as a double. */
  lemma IntegersKept(f: Doubles, n: int)
    ensures -9_223_372_036_854_775_808 <= n <= 18_446_744_073_709_551_615 ==>
              AsRead(f, Num(Int(n))) == Some(Num(Int(n)))
    ensures !(-9_223_372_036_854_775_808 <= n <= 18_446_744_073_709_551_615) ==>
              AsRead(f, Num(Int(n))) == match f.read(IntText(n)) case None => None case Some(t) => Some(Num(Float(t)))
  {
  }

  lemma {:induction false} HasKeyIff(ms: seq<Member>, key: string)
    ensures HasKey(ms, key) <==> LastMember(ms, key).Some?
  {
    if ms != [] {
      var init := ms[..|ms| - 1];
      HasKeyIff(init, key);
      if HasKey(ms, key) && ms[|ms| - 1].key != key {
        var i :| 0 <= i < |ms| && ms[i].key == key;
        assert init[i].key == key;
      }
      if HasKey(init, key) {
        var i :| 0 <= i < |init| && init[i].key == key;
        assert ms[i].key == key;
      }
    }
  }

  /** Of repeated keys the last one counts, wherever it stands. */
  lemma {:induction false} LastKeyCounts(f: Doubles, ms: seq<Member>, key: string)
    requires MembersAsRead(f, ms).Some?
    ensures LastMember(MembersAsRead(f, ms).value, key) ==
            match LastMember(ms, key) case None => None case Some(v) => AsRead(f, v)
  {
    if ms != [] {
      var rest := MembersAsRead(f, ms[1..]).value;
      LastKeyCounts(f, ms[1..], key);
      HeadTail(ms);
      LastMemberCons(ms[0], ms[1..], key);
      HasKeyIff(rest, ms[0].key);
      LastMemberCons(Member(ms[0].key, AsRead(f, ms[0].value).value), rest, key);
      LastKeyCounts(f, ms[1..], ms[0].key);
      if LastMember(ms[1..], key).Some? {
        ReadOfFound(f, ms[1..], key);
      }
    }
  }

  lemma {:induction false} ReadOfFound(f: Doubles, ms: seq<Member>, key: string)
    requires MembersAsRead(f, ms).Some? && LastMember(ms, key).Some?
    ensures AsRead(f, LastMember(ms, key).value).Some?
  {
    HeadTail(ms);
    LastMemberCons(ms[0], ms[1..], key);
    if LastMember(ms[1..], key).Some? {
      ReadOfFound(f, ms[1..], key);
    }
  }

  // ---- what is read is read again ----

  /** A value that reading leaves as it is. */
  ghost predicate Steady(f: Doubles, v: Json)
    decreases v
  {
    match v
    case Num(Int(n)) => In64Bits(n)
    case Num(Float(t)) => f.read(t) == Some(t)
    case Arr(items) => forall i :: 0 <= i < |items| ==> Steady(f, items[i])
    case Obj(ms) => DistinctKeys(ms) && forall i :: 0 <= i < |ms| ==> Steady(f, ms[i].value)
    case _ => true
  }

  lemma {:induction false} SteadyWellFormed(f: Doubles, v: Json)
    requires f.Valid() && Steady(f, v)
    ensures WellFormed(v)
    decreases v
  {
    match v
    case Arr(items) =>
      forall i | 0 <= i < |items| ensures WellFormed(items[i]) { SteadyWellFormed(f, items[i]); }
    case Obj(ms) =>
      forall i | 0 <= i < |ms| ensures WellFormed(ms[i].value) { SteadyWellFormed(f, ms[i].value); }
    case _ =>
  }

  lemma {:induction false} ReadIsSteady(f: Doubles, v: Json)
    requires f.Valid() && AsRead(f, v).Some?
    ensures Steady(f, AsRead(f, v).value)
    decreases v, 0
  {
    match v
    case Arr(items) => ItemsReadSteady(f, items);
    case Obj(ms) => MembersReadSteady(f, ms);
    case _ =>
  }

  lemma {:induction false} ItemsReadSteady(f: Doubles, items: seq<Json>)
    requires f.Valid() && ItemsAsRead(f, items).Some?
    ensures forall i :: 0 <= i < |ItemsAsRead(f, items).value| ==> Steady(f, ItemsAsRead(f, items).value[i])
    decreases items, 1
  {
    if items != [] {
      ReadIsSteady(f, items[0]);
      ItemsReadSteady(f, items[1..]);
    }
  }

  lemma {:induction false} MembersReadSteady(f: Doubles, ms: seq<Member>)
    requires f.Valid() && MembersAsRead(f, ms).Some?
    ensures DistinctKeys(MembersAsRead(f, ms).value)
    ensures forall i :: 0 <= i < |MembersAsRead(f, ms).value| ==> Steady(f, MembersAsRead(f, ms).value[i].value)
    decreases ms, 1
  {
    if ms != [] {
      ReadIsSteady(f, ms[0].value);
      MembersReadSteady(f, ms[1..]);
    }
  }

  /** However the bytes were written, what is read has distinct keys and printable numbers. */
  lemma ReadIsWellFormed(f: Doubles, v: Json)
    requires f.Valid() && AsRead(f, v).Some?
    ensures WellFormed(AsRead(f, v).value)
  {
    ReadIsSteady(f, v);
    SteadyWellFormed(f, AsRead(f, v).value);
  }

  lemma {:induction false} SteadyIsRead(f: Doubles, v: Json)
    requires Steady(f, v)
    ensures AsRead(f, v) == Some(v)
    decreases v, 0
  {
    match v
    case Arr(items) => SteadyItemsAreRead(f, items);
    case Obj(ms) => SteadyMembersAreRead(f, ms);
    case _ =>
  }

  lemma {:induction false} SteadyItemsAreRead(f: Doubles, items: seq<Json>)
    requires forall i :: 0 <= i < |items| ==> Steady(f, items[i])
    ensures ItemsAsRead(f, items) == Some(items)
    decreases items, 1
  {
    if items != [] {
      SteadyIsRead(f, items[0]);
      SteadyItemsAreRead(f, items[1..]);
      HeadTail(items);
    }
  }

  lemma {:induction false} SteadyMembersAreRead(f: Doubles, ms: seq<Member>)
    requires DistinctKeys(ms) && forall i :: 0 <= i < |ms| ==> Steady(f, ms[i].value)
    ensures MembersAsRead(f, ms) == Some(ms)
    decreases ms, 1
  {
    if ms != [] {
      SteadyIsRead(f, ms[0].value);
      SteadyMembersAreRead(f, ms[1..]);
      HeadTail(ms);
    }
  }

  lemma {:induction false} NormalSteady(f: Doubles, v: Json)
    requires Steady(f, v)
    ensures Steady(f, Normal(v, RustKeyLe()))
    decreases v
  {
    var le := RustKeyLe();
    match v
    case Arr(items) =>
      forall i | 0 <= i < |items| ensures Steady(f, Normal(items[i], le)) { NormalSteady(f, items[i]); }
    case Obj(ms) =>
      forall i | 0 <= i < |ms| ensures Steady(f, Normal(ms[i].value, le)) { NormalSteady(f, ms[i].value); }
      var ns := NormalMembers(ms, le);
      SortPermutes(ns, le);
      PermutedKeys(ns, Sort(ns, le));
      var at := SortedMembers(ns, le);
    case _ =>
  }

  // ---- addresses ----

  /** How this server addresses content. */
  datatype Digester = Digester(h: Hasher, f: Doubles) {
    ghost predicate Valid() { h.Injective() && f.Valid() }
  }

  /** The JSON value that an upload is read as. */
  function ValueOf(d: Digester, raw: seq<Byte>): Option<Json> {
    match Decode(raw)
    case None => None
    case Some(text) =>
      match ParseDocument(text)
      case Fail => None
      case Done(v, _) => AsRead(d.f, v)
  }

  /** The content address of raw bytes. */
  function AddressOf(d: Digester, raw: seq<Byte>): Option<string> {
    match ValueOf(d, raw) case None => None case Some(v) => Some(Digest(d.h, v))
  }

  lemma ValueIsSteady(d: Digester, raw: seq<Byte>)
    requires d.Valid() && ValueOf(d, raw).Some?
    ensures Steady(d.f, ValueOf(d, raw).value) && WellFormed(ValueOf(d, raw).value)
  {
    ReadIsSteady(d.f, ParseDocument(Decode(raw).value).value);
    SteadyWellFormed(d.f, ValueOf(d, raw).value);
  }

  /** Uploads share an address exactly when they are read as the same JSON value. */
  lemma SameAddressSameValue(d: Digester, a: seq<Byte>, b: seq<Byte>)
    requires d.Valid() && ValueOf(d, a).Some? && ValueOf(d, b).Some?
    ensures AddressOf(d, a) == AddressOf(d, b) <==> SameValue(ValueOf(d, a).value, ValueOf(d, b).value)
  {
    ValueIsSteady(d, a);
    ValueIsSteady(d, b);
    DigestIdentifies(d.h, ValueOf(d, a).value, ValueOf(d, b).value);
  }

  /** Blanks as JSON allows them between tokens. */
  predicate AreBlanks(s: string) { forall i :: 0 <= i < |s| ==> s[i] in " \t\n\r" }

  lemma {:induction false} BlanksSkipped(s: string)
    requires AreBlanks(s)
    ensures SkipWs(s) == ""
  {
    if s != "" {
      BlanksSkipped(s[1..]);
    }
  }

  lemma BlanksBefore(before: string, text: string)
    requires AreBlanks(before)
    ensures ParseValue(before + text) == ParseValue(text)
  {
    BlanksSkipped(before);
    JsonReader.SkipWsGrow(before, text);
  }

  /** Blanks before and after a document change nothing. */
  lemma BlanksAround(before: string, text: string, after: string)
    requires AreBlanks(before) && AreBlanks(after)
    requires ParseDocument(text).Done? && !ParseDocument(text).value.Num?
    ensures ParseDocument(before + (text + after)) == ParseDocument(text)
  {
    BlanksBefore(before, text + after);
    JsonReader.ValueGrow(text, after);
    JsonReader.SkipWsGrow(ParseValue(text).rest, after);
    BlanksSkipped(after);
  }

  lemma OtherEncoding(s: string, t: string)
    requires |s| != |t|
    ensures Encode(s) != Encode(t)
  {
    DecodeEncoded(s);
    DecodeEncoded(t);
  }

  /** Every upload but a bare number shares its address with other bytes: itself with any blanks around it. */
  lemma SameAddressOtherBytes(d: Digester, before: string, text: string, after: string)
    requires AddressOf(d, Encode(text)).Some? && !ValueOf(d, Encode(text)).value.Num?
    requires AreBlanks(before) && AreBlanks(after) && before + after != ""
    ensures AddressOf(d, Encode(before + (text + after))) == AddressOf(d, Encode(text))
    ensures Encode(before + (text + after)) != Encode(text)
  {
    DecodeEncoded(text);
    DecodeEncoded(before + (text + after));
    BlanksAround(before, text, after);
    OtherEncoding(before + (text + after), text);
  }

  /** The bytes are the canonical text of what they are read as. */
  predicate IsCanonical(d: Digester, raw: seq<Byte>) {
    ValueOf(d, raw).Some? && raw == Encode(Canon(ValueOf(d, raw).value))
  }

  /** Every upload has a canonical one with its address. */
  lemma CanonicalTwin(d: Digester, raw: seq<Byte>)
    requires d.Valid() && ValueOf(d, raw).Some?
    ensures var twin := Encode(Canon(ValueOf(d, raw).value));
            IsCanonical(d, twin) && AddressOf(d, twin) == AddressOf(d, raw)
  {
    var v := ValueOf(d, raw).value;
    ValueIsSteady(d, raw);
    NormalSteady(d.f, v);
    SteadyIsRead(d.f, Normal(v, RustKeyLe()));
    DecodeEncoded(Canon(v));
    ReadCanonical(v);
    NormalTwice(v);
  }

  /**
   An address has exactly one canonical byte string. So the address of an upload
   fixes its bytes among canonical uploads, if and only if it is canonical itself.
  */
  lemma CanonicalAddressFixesBytes(d: Digester, a: seq<Byte>)
    requires d.Valid() && ValueOf(d, a).Some?
    ensures IsCanonical(d, a) <==>
            forall b :: IsCanonical(d, b) && AddressOf(d, b) == AddressOf(d, a) ==> b == a
  {
    CanonicalTwin(d, a);
  }
}
