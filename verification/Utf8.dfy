/**
 UTF-8 (section 3 of RFC 3629) over Unicode scalar values, which is what a
 `char` is: the encoder that Rust strings are stored with, the decoder that
 rejects a file cut inside a character, and the two string orders that the Rust
 and Python canonical printers sort their keys by.
*/
module Utf8 {
  import opened Wrappers
  import opened Sequences

  type Byte = b: int | 0 <= b < 256

  function EncodeChar(c: char): (r: seq<Byte>)
    ensures 1 <= |r| <= 4
  {
    var n := c as int;
    if n < 0x80 then [n]
    else if n < 0x800 then [0xC0 + n / 64, 0x80 + n % 64]
    else if n < 0x10000 then [0xE0 + n / 4096, 0x80 + n / 64 % 64, 0x80 + n % 64]
    else [0xF0 + n / 262144, 0x80 + n / 4096 % 64, 0x80 + n / 64 % 64, 0x80 + n % 64]
  }

  function Encode(s: string): seq<Byte> {
    if s == "" then [] else EncodeChar(s[0]) + Encode(s[1..])
  }

  predicate IsContinuation(b: Byte) { 0x80 <= b < 0xC0 }

  function Payload(b: int): int { b - 0x80 }

  predicate IsScalar(n: int) { 0 <= n < 0xD800 || 0xE000 <= n < 0x11_0000 }

  /** The first character of a byte sequence, if it starts with a well-formed one. */
  function DecodeChar(bs: seq<Byte>): (r: Option<char>)
    requires bs != []
    ensures r.Some? ==> |EncodeChar(r.value)| <= |bs|
  {
    var b: int := bs[0];
    if b < 0x80 then Some(b as char)
    else if 0xC0 <= b < 0xE0 then
      if |bs| < 2 || !IsContinuation(bs[1]) then None
      else
        var n := (b - 0xC0) * 64 + Payload(bs[1]);
        if 0x80 <= n then Some(n as char) else None
    else if 0xE0 <= b < 0xF0 then
      if |bs| < 3 || !IsContinuation(bs[1]) || !IsContinuation(bs[2]) then None
      else
        var n := (b - 0xE0) * 4096 + Payload(bs[1]) * 64 + Payload(bs[2]);
        if 0x800 <= n && IsScalar(n) then Some(n as char) else None
    else if 0xF0 <= b < 0xF8 then
      if |bs| < 4 || !IsContinuation(bs[1]) || !IsContinuation(bs[2]) || !IsContinuation(bs[3]) then None
      else
        var n := (b - 0xF0) * 262144 + Payload(bs[1]) * 4096 + Payload(bs[2]) * 64 + Payload(bs[3]);
        if 0x10000 <= n && IsScalar(n) then Some(n as char) else None
    else None
  }

  function Prepend(s: string, rest: Option<string>): Option<string> {
    match rest case None => None case Some(t) => Some(s + t)
  }

  /** The text of a file, or nothing when its bytes are not valid UTF-8. */
  function Decode(bs: seq<Byte>): Option<string>
    decreases |bs|
  {
    if bs == [] then Some("")
    else
      match DecodeChar(bs)
      case None => None
      case Some(c) =>
        Prepend([c], Decode(bs[|EncodeChar(c)|..]))
  }

  /** The base-64 digits that the continuation bytes carry. */
  lemma Digits(n: nat)
    requires n < 0x11_0000
    ensures n < 0x800 ==> n / 64 < 32
    ensures n == n / 64 * 64 + n % 64
    ensures n < 0x10000 ==> n / 4096 < 16
    ensures n == n / 4096 * 4096 + n / 64 % 64 * 64 + n % 64
    ensures n / 262144 < 5
    ensures n == n / 262144 * 262144 + n / 4096 % 64 * 4096 + n / 64 % 64 * 64 + n % 64
  {
  }

  lemma DecodeCharEncoded(c: char, tail: seq<Byte>)
    ensures DecodeChar(EncodeChar(c) + tail) == Some(c)
  {
    Digits(c as int);
    var bs := EncodeChar(c) + tail;
    assert bs[..|EncodeChar(c)|] == EncodeChar(c);
  }

  lemma DecodeStep(c: char, tail: seq<Byte>)
    ensures Decode(EncodeChar(c) + tail) ==
            Prepend([c], Decode(tail))
  {
    DecodeCharEncoded(c, tail);
    assert (EncodeChar(c) + tail)[|EncodeChar(c)|..] == tail;
  }

  lemma PrependTwice(a: string, b: string, o: Option<string>)
    ensures Prepend(a, Prepend(b, o)) == Prepend(a + b, o)
    ensures Prepend("", o) == o
  {
    if o.Some? {
      assert a + (b + o.value) == (a + b) + o.value;
      assert "" + o.value == o.value;
    }
  }

  lemma {:induction false} DecodeEncodedPrefix(s: string, tail: seq<Byte>)
    ensures Decode(Encode(s) + tail) ==
            Prepend(s, Decode(tail))
  {
    if s == "" {
      assert Encode(s) + tail == tail;
      PrependTwice("", s, Decode(tail));
    } else {
      assert Encode(s) + tail == EncodeChar(s[0]) + (Encode(s[1..]) + tail);
      DecodeStep(s[0], Encode(s[1..]) + tail);
      DecodeEncodedPrefix(s[1..], tail);
      PrependTwice([s[0]], s[1..], Decode(tail));
      assert [s[0]] + s[1..] == s;
    }
  }

  lemma DecodeCharAppend(bs: seq<Byte>, more: seq<Byte>)
    requires bs != [] && DecodeChar(bs).Some?
    ensures DecodeChar(bs + more) == DecodeChar(bs)
  {
  }

  lemma DropWithin(bs: seq<Byte>, more: seq<Byte>, n: nat)
    requires n <= |bs|
    ensures (bs + more)[n..] == bs[n..] + more
  {
  }

  /** Decoding goes on where a valid text ends. */
  lemma {:induction false} DecodeAppend(bs: seq<Byte>, more: seq<Byte>)
    requires Decode(bs).Some?
    ensures Decode(bs + more) == Prepend(Decode(bs).value, Decode(more))
    decreases |bs|
  {
    if bs == [] {
      Unit(more);
      PrependTwice("", "", Decode(more));
    } else {
      var c := DecodeChar(bs).value;
      var n := |EncodeChar(c)|;
      DecodeCharAppend(bs, more);
      DecodeAppend(bs[n..], more);
      DropWithin(bs, more, n);
      PrependTwice([c], Decode(bs[n..]).value, Decode(more));
    }
  }

  lemma DecodeEncoded(s: string)
    ensures Decode(Encode(s)) == Some(s)
  {
    DecodeEncodedPrefix(s, []);
    assert Encode(s) + [] == Encode(s);
    assert s + "" == s;
  }

  lemma {:induction false} EncodeAppend(a: string, b: string)
    ensures Encode(a + b) == Encode(a) + Encode(b)
  {
    if a == "" {
      Unit(b);
      Unit(Encode(b));
    } else {
      EncodeAppend(a[1..], b);
      assert (a + b)[1..] == a[1..] + b && (a + b)[0] == a[0];
      Assoc(EncodeChar(a[0]), Encode(a[1..]), Encode(b));
    }
  }

  lemma PartialCharIsInvalid(c: char, k: nat)
    requires 0 < k < |EncodeChar(c)|
    ensures Decode(EncodeChar(c)[..k]) == None
  {
  }

  /** The number of whole characters in the first k bytes of the encoding of s. */
  function WholeChars(s: string, k: nat): (j: nat)
    requires k <= |Encode(s)|
    ensures j <= |s|
  {
    if s == "" || k < |EncodeChar(s[0])| then 0
    else 1 + WholeChars(s[1..], k - |EncodeChar(s[0])|)
  }

  /**
   Cutting an encoded text after k bytes leaves a readable text iff the cut
   falls between two characters, and then it is the text of the whole ones.
  */
  lemma {:induction false} DecodeCut(s: string, k: nat)
    requires k <= |Encode(s)|
    ensures var j := WholeChars(s, k);
            Decode(Encode(s)[..k]) == if k == |Encode(s[..j])| then Some(s[..j]) else None
  {
    var bs := Encode(s)[..k];
    if s == "" || k == 0 {
      assert bs == [];
      assert s[..0] == "";
    } else if k < |EncodeChar(s[0])| {
      assert bs == EncodeChar(s[0])[..k];
      assert s[..0] == "";
      PartialCharIsInvalid(s[0], k);
    } else {
      var c, n := s[0], |EncodeChar(s[0])|;
      DecodeCut(s[1..], k - n);
      var j := WholeChars(s[1..], k - n);
      assert bs == EncodeChar(c) + Encode(s[1..])[..k - n];
      DecodeStep(c, Encode(s[1..])[..k - n]);
      assert s[..j + 1] == [c] + s[1..][..j];
      assert s[..j + 1][1..] == s[1..][..j];
    }
  }

  // ---- string orders ----

  /** Lexicographic order of byte sequences: how Rust compares strings. */
  predicate BytesLe(a: seq<Byte>, b: seq<Byte>) {
    a == [] || (b != [] && (a[0] < b[0] || (a[0] == b[0] && BytesLe(a[1..], b[1..]))))
  }

  /** Lexicographic order of code points: how Python compares strings. */
  predicate StringLe(a: string, b: string) {
    a == "" || (b != "" && (a[0] < b[0] || (a[0] == b[0] && StringLe(a[1..], b[1..]))))
  }

  /** One is a prefix of the other, or has the smaller code point where they first differ. */
  ghost predicate InOrder(a: string, b: string) {
    exists k :: 0 <= k <= |a| && k <= |b| && a[..k] == b[..k] && (k == |a| || (k < |b| && a[k] < b[k]))
  }

  lemma {:induction false} StringLeIff(a: string, b: string)
    ensures StringLe(a, b) <==> InOrder(a, b)
  {
    if a == "" {
      assert a[..0] == b[..0];
    } else if b != "" && a[0] == b[0] {
      StringLeIff(a[1..], b[1..]);
      InOrderTail(a, b);
    } else if b != "" && a[0] < b[0] {
      assert a[..0] == b[..0];
    }
  }

  lemma InOrderTail(a: string, b: string)
    requires a != "" && b != "" && a[0] == b[0]
    ensures InOrder(a, b) <==> InOrder(a[1..], b[1..])
  {
    if InOrder(a, b) {
      var k :| 0 <= k <= |a| && k <= |b| && a[..k] == b[..k] && (k == |a| || (k < |b| && a[k] < b[k]));
      assert k > 0;
      assert a[1..][..k - 1] == a[..k][1..] && b[1..][..k - 1] == b[..k][1..];
    }
    if InOrder(a[1..], b[1..]) {
      var k :| 0 <= k < |a| && k < |b| && a[1..][..k] == b[1..][..k] && (k == |a| - 1 || (k < |b| - 1 && a[1..][k] < b[1..][k]));
      assert a[..k + 1] == [a[0]] + a[1..][..k] && b[..k + 1] == [b[0]] + b[1..][..k];
    }
  }

  lemma {:induction false} BytesLeCommonPrefix(p: seq<Byte>, x: seq<Byte>, y: seq<Byte>)
    ensures BytesLe(p + x, p + y) == BytesLe(x, y)
  {
    if p == [] {
      assert p + x == x && p + y == y;
    } else {
      BytesLeCommonPrefix(p[1..], x, y);
      assert (p + x)[1..] == p[1..] + x && (p + y)[1..] == p[1..] + y;
    }
  }

  /** The encodings of two different characters first differ inside both, in the order of their code points. */
  lemma EncodeCharDiffers(a: char, b: char) returns (i: nat)
    requires a < b
    ensures i < |EncodeChar(a)| && i < |EncodeChar(b)|
    ensures EncodeChar(a)[..i] == EncodeChar(b)[..i]
    ensures EncodeChar(a)[i] < EncodeChar(b)[i]
  {
    Digits(a as int);
    Digits(b as int);
    var x, y := EncodeChar(a), EncodeChar(b);
    i := if x[0] != y[0] then 0 else if x[1] != y[1] then 1 else if x[2] != y[2] then 2 else 3;
  }

  lemma BytesLeDecided(x: seq<Byte>, y: seq<Byte>, i: nat, u: seq<Byte>, w: seq<Byte>)
    requires i < |x| && i < |y| && x[..i] == y[..i] && x[i] < y[i]
    ensures BytesLe(x + u, y + w) && !BytesLe(y + w, x + u)
  {
    assert x + u == x[..i] + (x[i..] + u);
    assert y + w == x[..i] + (y[i..] + w);
    BytesLeCommonPrefix(x[..i], x[i..] + u, y[i..] + w);
    BytesLeCommonPrefix(x[..i], y[i..] + w, x[i..] + u);
  }

  lemma EncodeOrdersFirst(a: string, b: string)
    requires a != "" && b != "" && a[0] < b[0]
    ensures BytesLe(Encode(a), Encode(b)) && !BytesLe(Encode(b), Encode(a))
  {
    var i := EncodeCharDiffers(a[0], b[0]);
    BytesLeDecided(EncodeChar(a[0]), EncodeChar(b[0]), i, Encode(a[1..]), Encode(b[1..]));
  }

  /** UTF-8 keeps code-point order, as section 1 of RFC 3629 promises. */
  lemma {:induction false} EncodePreservesOrder(a: string, b: string)
    ensures BytesLe(Encode(a), Encode(b)) == StringLe(a, b)
  {
    if a == "" || b == "" {
    } else if a[0] == b[0] {
      EncodePreservesOrder(a[1..], b[1..]);
      BytesLeCommonPrefix(EncodeChar(a[0]), Encode(a[1..]), Encode(b[1..]));
    } else if a[0] < b[0] {
      EncodeOrdersFirst(a, b);
    } else {
      EncodeOrdersFirst(b, a);
    }
  }

  lemma {:induction false} StringLeTotal(a: string, b: string)
    ensures StringLe(a, b) || StringLe(b, a)
    ensures StringLe(a, b) && StringLe(b, a) ==> a == b
  {
    if a != "" && b != "" {
      StringLeTotal(a[1..], b[1..]);
      assert a == [a[0]] + a[1..] && b == [b[0]] + b[1..];
    }
  }

  lemma {:induction false} StringLeTransitive(a: string, b: string, c: string)
    requires StringLe(a, b) && StringLe(b, c)
    ensures StringLe(a, c)
  {
    if a != "" && a[0] == c[0] {
      StringLeTransitive(a[1..], b[1..], c[1..]);
    }
  }
}
