/** The text operations the filters and the readiness gate use from Rust's standard library. */
module Ascii {
  import opened IndexLog
  import opened Sequences

  function Lower(c: char): char {
    if 'A' <= c <= 'Z' then (c as int + 32) as char else c
  }

  function Upper(c: char): char {
    if 'a' <= c <= 'z' then (c as int - 32) as char else c
  }

  /** to_ascii_lowercase */
  function ToLower(s: string): (r: string)
    ensures |r| == |s|
  {
    seq(|s|, i requires 0 <= i < |s| => Lower(s[i]))
  }

  /** to_ascii_uppercase */
  function ToUpper(s: string): (r: string)
    ensures |r| == |s|
  {
    seq(|s|, i requires 0 <= i < |s| => Upper(s[i]))
  }

  /** eq_ignore_ascii_case */
  predicate EqualIgnoringCase(a: string, b: string) { ToLower(a) == ToLower(b) }

  /** The same letter of either case, or the same character. */
  predicate SameLetter(a: char, b: char) {
    || a == b
    || ('A' <= a <= 'Z' && b as int == a as int + 32)
    || ('A' <= b <= 'Z' && a as int == b as int + 32)
  }

  /** Ignoring case is letter by letter, for the 26 letters and no other character. */
  lemma IgnoringCaseIsByLetter(a: string, b: string)
    ensures EqualIgnoringCase(a, b) <==> |a| == |b| && forall i :: 0 <= i < |a| ==> SameLetter(a[i], b[i])
  {
    if EqualIgnoringCase(a, b) {
      forall i | 0 <= i < |a| ensures SameLetter(a[i], b[i]) {
        assert ToLower(a)[i] == ToLower(b)[i];
      }
    }
  }

  lemma UpperKeepsCaseClass(s: string)
    ensures ToLower(ToUpper(s)) == ToLower(s)
  {
  }

  function TrimStart(s: string): string {
    if s != "" && IsSpace(s[0]) then TrimStart(s[1..]) else s
  }

  function TrimEnd(s: string): string {
    if s != "" && IsSpace(s[|s| - 1]) then TrimEnd(s[..|s| - 1]) else s
  }

  /** trim */
  function Trim(s: string): string { TrimEnd(TrimStart(s)) }

  lemma {:induction false} TrimStartSplit(s: string) returns (before: string)
    ensures s == before + TrimStart(s) && IsBlank(before)
    ensures TrimStart(s) != "" ==> !IsSpace(TrimStart(s)[0])
  {
    if s != "" && IsSpace(s[0]) {
      before := TrimStartSplit(s[1..]);
      before := [s[0]] + before;
    } else {
      before := "";
    }
  }

  lemma {:induction false} TrimEndSplit(s: string) returns (after: string)
    ensures s == TrimEnd(s) + after && IsBlank(after)
    ensures TrimEnd(s) != "" ==> !IsSpace(TrimEnd(s)[|TrimEnd(s)| - 1])
    ensures TrimEnd(s) != "" ==> TrimEnd(s)[0] == s[0]
  {
    if s != "" && IsSpace(s[|s| - 1]) {
      after := TrimEndSplit(s[..|s| - 1]);
      after := after + [s[|s| - 1]];
    } else {
      after := "";
    }
  }

  /** What trim takes away is white space, at both ends, and what stays begins and ends with none. */
  lemma TrimSplit(s: string) returns (before: string, after: string)
    ensures s == before + Trim(s) + after && IsBlank(before) && IsBlank(after)
    ensures Trim(s) != "" ==> !IsSpace(Trim(s)[0]) && !IsSpace(Trim(s)[|Trim(s)| - 1])
  {
    before := TrimStartSplit(s);
    after := TrimEndSplit(TrimStart(s));
    Assoc(before, Trim(s), after);
  }

  /** A text without white space at its ends is what is left when it is put between blanks. */
  lemma TrimOf(before: string, w: string, after: string)
    requires IsBlank(before) && IsBlank(after)
    requires w != "" && !IsSpace(w[0]) && !IsSpace(w[|w| - 1])
    ensures Trim(before + w + after) == w
  {
    TrimStartOf(before, w, after);
    TrimEndOf(w, after);
  }

  lemma {:induction false} TrimStartOf(before: string, w: string, after: string)
    requires IsBlank(before) && w != "" && !IsSpace(w[0])
    ensures TrimStart(before + w + after) == w + after
  {
    if before == "" {
      assert before + w + after == w + after;
    } else {
      TrimStartOf(before[1..], w, after);
      assert (before + w + after)[1..] == before[1..] + w + after;
    }
  }

  lemma {:induction false} TrimEndOf(w: string, after: string)
    requires IsBlank(after) && w != "" && !IsSpace(w[|w| - 1])
    ensures TrimEnd(w + after) == w
    decreases |after|
  {
    if after == "" {
      assert w + after == w;
    } else {
      var init := after[..|after| - 1];
      TrimEndOf(w, init);
      assert (w + after)[..|w + after| - 1] == w + init;
    }
  }

  /** contains */
  predicate Contains(s: string, w: string) {
    exists i :: 0 <= i <= |s| && w <= s[i..]
  }
}
