/** Reading members of JSON objects, as serde_json's Value::get and Python's dict.get do. */
module JsonLookup {
  import opened Wrappers
  import opened Json
  import opened Canonical

  /** The member of an object, of repeated ones the last; nothing for other values. */
  function Get(v: Json, key: string): Option<Json> {
    match v case Obj(ms) => LastMember(ms, key) case _ => None
  }

  function LastMember(ms: seq<Member>, key: string): Option<Json> {
    if ms == [] then None
    else if ms[|ms| - 1].key == key then Some(ms[|ms| - 1].value)
    else LastMember(ms[..|ms| - 1], key)
  }

  function AsBool(v: Option<Json>): Option<bool> {
    if v.Some? && v.value.Bool? then Some(v.value.b) else None
  }

  lemma LastMemberSnoc(ms: seq<Member>, m: Member, key: string)
    ensures LastMember(ms + [m], key) == if m.key == key then Some(m.value) else LastMember(ms, key)
  {
    assert (ms + [m])[..|ms|] == ms;
  }

  lemma {:induction false} LastMemberCons(m: Member, rest: seq<Member>, key: string)
    ensures LastMember([m] + rest, key) ==
            if LastMember(rest, key).Some? then LastMember(rest, key) else if m.key == key then Some(m.value) else None
    decreases |rest|
  {
    var ms := [m] + rest;
    if rest == [] {
      assert ms[..0] == [];
    } else {
      assert ms[..|ms| - 1] == [m] + rest[..|rest| - 1];
      LastMemberCons(m, rest[..|rest| - 1], key);
    }
  }

  lemma {:induction false} FoundMember(ms: seq<Member>, key: string)
    ensures LastMember(ms, key).Some? ==>
              exists i :: 0 <= i < |ms| && ms[i].key == key && ms[i].value == LastMember(ms, key).value
  {
    if ms != [] && ms[|ms| - 1].key != key {
      FoundMember(ms[..|ms| - 1], key);
    }
  }

  lemma {:induction false} OnlyMember(ms: seq<Member>, i: nat)
    requires DistinctKeys(ms) && i < |ms|
    ensures LastMember(ms, ms[i].key) == Some(ms[i].value)
  {
    if i < |ms| - 1 {
      OnlyMember(ms[..|ms| - 1], i);
    }
  }

  /** What an object holds under a key is well-formed too. */
  lemma GetWellFormed(v: Json, key: string)
    requires WellFormed(v)
    ensures Get(v, key).Some? ==> WellFormed(Get(v, key).value)
  {
    if v.Obj? {
      FoundMember(v.members, key);
    }
  }

  ghost predicate SameLookup(a: Option<Json>, b: Option<Json>) {
    match a case None => b.None? case Some(v) => b.Some? && SameValue(v, b.value)
  }

  lemma SameLookupOneWay(a: Json, b: Json, key: string)
    requires WellFormed(b) && SameValue(a, b) && Get(a, key).Some?
    ensures Get(b, key).Some? && SameValue(Get(a, key).value, Get(b, key).value)
  {
    FoundMember(a.members, key);
    var i :| 0 <= i < |a.members| && a.members[i].key == key && a.members[i].value == Get(a, key).value;
    assert HasSameMember(a.members[i], b.members);
    var j :| 0 <= j < |b.members| && a.members[i].key == b.members[j].key && SameValue(a.members[i].value, b.members[j].value);
    OnlyMember(b.members, j);
  }

  /** Values equal up to member order hold equal members. */
  lemma SameValueSameLookup(a: Json, b: Json, key: string)
    requires WellFormed(a) && WellFormed(b) && SameValue(a, b)
    ensures SameLookup(Get(a, key), Get(b, key))
  {
    CanonicalTextIdentifies(a, b);
    CanonicalTextIdentifies(b, a);
    if Get(a, key).Some? {
      SameLookupOneWay(a, b, key);
    } else if Get(b, key).Some? {
      SameLookupOneWay(b, a, key);
    }
  }
}
