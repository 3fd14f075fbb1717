/** UTF-8 as in section 3 of RFC 3629: an encoder for Unicode scalar values and a
    decoder that, like Python's `errors="ignore"`, drops what it cannot decode. */
module Utf8 {
  type Byte = b: int | 0 <= b < 256

  datatype Decoded = Char(c: char, width: nat) | Invalid

  function EncodeChar(c: char): (r: seq<Byte>)
    ensures 1 <= |r| <= 4
  {
    var n := c as int;
    if n < 0x80 then [n]
    else if n < 0x800 then [0xC0 + n / 0x40, 0x80 + n % 0x40]
    else if n < 0x10000 then [0xE0 + n / 0x40 / 0x40, 0x80 + n / 0x40 % 0x40, 0x80 + n % 0x40]
    else [0xF0 + n / 0x40 / 0x40 / 0x40, 0x80 + n / 0x40 / 0x40 % 0x40, 0x80 + n / 0x40 % 0x40, 0x80 + n % 0x40]
  }

  function Encode(s: string): seq<Byte> {
    if s == [] then [] else EncodeChar(s[0]) + Encode(s[1..])
  }

  function Size(s: string): nat {
    |Encode(s)|
  }

  predicate IsContinuation(b: Byte) {
    0x80 <= b < 0xC0
  }

  /** The bits so far with the six of one more continuation byte. */
  function Append(bits: int, b: Byte): int
    requires IsContinuation(b)
  {
    bits * 0x40 + (b as int - 0x80)
  }

  /** The scalar value at the front of `b`. Overlong forms, surrogates and values past
      U+10FFFF are invalid. */
  function DecodeOne(b: seq<Byte>): Decoded
    requires b != []
  {
    var lead: int := b[0];
    if lead < 0x80 then Char(lead as char, 1)
    else if 0xC2 <= lead < 0xE0 && |b| >= 2 && IsContinuation(b[1]) then
      Char(Append(lead - 0xC0, b[1]) as char, 2)
    else if 0xE0 <= lead < 0xF0 && |b| >= 3 && IsContinuation(b[1]) && IsContinuation(b[2]) then
      var n := Append(Append(lead - 0xE0, b[1]), b[2]);
      if n < 0x800 || 0xD800 <= n < 0xE000 then Invalid else Char(n as char, 3)
    else if 0xF0 <= lead < 0xF5 && |b| >= 4
            && IsContinuation(b[1]) && IsContinuation(b[2]) && IsContinuation(b[3]) then
      var n := Append(Append(Append(lead - 0xF0, b[1]), b[2]), b[3]);
      if n < 0x10000 || n > 0x10FFFF then Invalid else Char(n as char, 4)
    else Invalid
  }

  /** Decoding with errors ignored. Dropping one byte at an error gives the same text as
      dropping the longest invalid run: the bytes left over are continuation bytes, and
      no character starts with one. */
  function DecodeIgnoringErrors(b: seq<Byte>): string
  {
    if b == [] then []
    else match DecodeOne(b)
      case Char(c, width) =>
        if width <= |b| && width > 0 then [c] + DecodeIgnoringErrors(b[width..]) else []
      case Invalid => DecodeIgnoringErrors(b[1..])
  }

  lemma DecodeOneOfEncoded(c: char, rest: seq<Byte>)
    ensures DecodeOne(EncodeChar(c) + rest) == Char(c, |EncodeChar(c)|)
  {
    var e := EncodeChar(c) + rest;
    assert forall i :: 0 <= i < |EncodeChar(c)| ==> e[i] == EncodeChar(c)[i];
  }

  /** Bytes that are all continuations decode to nothing. */
  lemma {:induction false} ContinuationsVanish(b: seq<Byte>)
    requires forall i :: 0 <= i < |b| ==> IsContinuation(b[i])
    ensures DecodeIgnoringErrors(b) == []
  {
    if b != [] {
      assert DecodeOne(b) == Invalid;
      ContinuationsVanish(b[1..]);
    }
  }

  /** A character cut short decodes to nothing. */
  lemma CutCharVanishes(c: char, k: nat)
    requires k < |EncodeChar(c)|
    ensures DecodeIgnoringErrors(EncodeChar(c)[..k]) == []
  {
    var b := EncodeChar(c)[..k];
    if k > 0 {
      assert b[0] == EncodeChar(c)[0];
      assert DecodeOne(b) == Invalid;
      ContinuationsVanish(b[1..]);
    }
  }

  lemma {:induction false} DecodeEncoded(s: string)
    ensures DecodeIgnoringErrors(Encode(s)) == s
  {
    if s != [] {
      DecodeOneOfEncoded(s[0], Encode(s[1..]));
      assert Encode(s)[|EncodeChar(s[0])|..] == Encode(s[1..]);
      DecodeEncoded(s[1..]);
    }
  }

  lemma EncodeInjective(s: string, t: string)
    requires Encode(s) == Encode(t)
    ensures s == t
  {
    DecodeEncoded(s);
    DecodeEncoded(t);
  }

  lemma {:induction false} EncodeConcat(s: string, t: string)
    ensures Encode(s + t) == Encode(s) + Encode(t)
  {
    if s == [] {
      assert s + t == t;
    } else {
      assert (s + t)[1..] == s[1..] + t;
      EncodeConcat(s[1..], t);
    }
  }

  lemma SizeConcat(s: string, t: string)
    ensures Size(s + t) == Size(s) + Size(t)
  {
    EncodeConcat(s, t);
  }

  lemma {:induction false} SizeBounds(s: string)
    ensures |s| <= Size(s) <= 4 * |s|
  {
    if s != [] {
      SizeBounds(s[1..]);
    }
  }

  lemma {:induction false} AsciiSize(s: string)
    requires forall c :: c in s ==> c as int < 0x80
    ensures Size(s) == |s|
  {
    if s != [] {
      assert s[0] in s;
      assert forall c :: c in s[1..] ==> c in s;
      AsciiSize(s[1..]);
    }
  }

  /** The text that survives a cut after `n` bytes: what `encode()[:n].decode("utf-8",
      errors="ignore")` yields. */
  function Clip(s: string, n: nat): string {
    if Size(s) <= n then s else DecodeIgnoringErrors(Encode(s)[..n])
  }

  /** The longest run of whole characters at the front of `s` that fits `n` bytes,
      found by adding characters one at a time. */
  function LongestFit(s: string, n: nat): string {
    if s == [] || |EncodeChar(s[0])| > n then []
    else [s[0]] + LongestFit(s[1..], n - |EncodeChar(s[0])|)
  }

  lemma {:induction false} ClipIsLongestFit(s: string, n: nat)
    ensures Clip(s, n) == LongestFit(s, n)
  {
    if s != [] {
      var e := EncodeChar(s[0]);
      if |e| > n {
        assert Encode(s)[..n] == e[..n];
        CutCharVanishes(s[0], n);
      } else {
        ClipIsLongestFit(s[1..], n - |e|);
        if Size(s) > n {
          var cut := Encode(s)[..n];
          assert cut == e + Encode(s[1..])[..n - |e|];
          DecodeOneOfEncoded(s[0], Encode(s[1..])[..n - |e|]);
          assert cut[|e|..] == Encode(s[1..])[..n - |e|];
        }
      }
    }
  }

  lemma {:induction false} LongestFitIsLongest(s: string, n: nat, p: string)
    ensures LongestFit(s, n) <= s && Size(LongestFit(s, n)) <= n
    ensures p <= s && Size(p) <= n ==> p <= LongestFit(s, n)
  {
    if s != [] && |EncodeChar(s[0])| <= n {
      var rest := LongestFit(s[1..], n - |EncodeChar(s[0])|);
      assert LongestFit(s, n)[1..] == rest;
      if p <= s && Size(p) <= n && p != [] {
        assert p[1..] <= s[1..];
        LongestFitIsLongest(s[1..], n - |EncodeChar(s[0])|, p[1..]);
        assert p == [p[0]] + p[1..];
      } else {
        LongestFitIsLongest(s[1..], n - |EncodeChar(s[0])|, []);
      }
    } else if p <= s && Size(p) <= n && p != [] {
      assert p[0] == s[0];
    }
  }

  /** Clipping keeps the longest prefix of whole characters that fits. */
  lemma ClipProperties(s: string, n: nat)
    ensures Clip(s, n) <= s && Size(Clip(s, n)) <= n
    ensures forall p :: p <= s && Size(p) <= n ==> p <= Clip(s, n)
  {
    ClipIsLongestFit(s, n);
    LongestFitIsLongest(s, n, []);
    forall p | p <= s && Size(p) <= n
      ensures p <= Clip(s, n)
    {
      LongestFitIsLongest(s, n, p);
    }
  }
}
