/**
 * Hexadecimal decoding of a webhook signature: `hexToBytes` fills a byte
 * array two hex digits at a time, and the signature header `sha256=<hex>`
 * is split on '=' to find the digits.
 */
module Hex {
  import opened Optional
  import opened Text

  /** An element of a `Uint8Array`. */
  newtype uint8 = x: int | 0 <= x < 256

  predicate IsHexDigit(c: char)
  {
    '0' <= c <= '9' || 'a' <= c <= 'f' || 'A' <= c <= 'F'
  }

  predicate IsHex(s: string)
  {
    forall i :: 0 <= i < |s| ==> IsHexDigit(s[i])
  }

  /** The base-16 value of one digit, either case. */
  function DigitValue(c: char): (v: nat)
    requires IsHexDigit(c)
    ensures v < 16
  {
    if '0' <= c <= '9' then c as int - '0' as int
    else if 'a' <= c <= 'f' then c as int - 'a' as int + 10
    else c as int - 'A' as int + 10
  }

  /** `Number.parseInt(c, 16)` on two hex digits. */
  function ParsePair(c: string): uint8
    requires |c| == 2 && IsHex(c)
  {
    (16 * DigitValue(c[0]) + DigitValue(c[1])) as uint8
  }

  /** What `hexToBytes` computes for an even-length hex text. */
  function Decode(hex: string): (r: seq<uint8>)
    requires IsHex(hex) && |hex| % 2 == 0
    ensures |r| == |hex| / 2
    decreases |hex|
  {
    if hex == [] then [] else [ParsePair(hex[..2])] + Decode(hex[2..])
  }

  /** Byte k is the base-16 value of digits 2k and 2k+1, so at most 0xff. */
  lemma {:induction false} DecodeAt(hex: string, k: nat)
    requires IsHex(hex) && |hex| % 2 == 0 && k < |hex| / 2
    ensures Decode(hex)[k] as int == 16 * DigitValue(hex[2 * k]) + DigitValue(hex[2 * k + 1])
    decreases |hex|
  {
    if k > 0 {
      DecodeAt(hex[2..], k - 1);
      assert hex[2..][2 * (k - 1)] == hex[2 * k];
      assert hex[2..][2 * (k - 1) + 1] == hex[2 * k + 1];
    }
  }

  /** `hexToBytes`: a new array with byte k read from digits 2k and 2k+1. */
  method HexToBytes(hex: string) returns (bytes: array<uint8>)
    requires IsHex(hex) && |hex| % 2 == 0
    ensures bytes.Length == |hex| / 2
    ensures bytes[..] == Decode(hex)
  {
    var len := |hex| / 2;
    bytes := new uint8[len];
    var index := 0;
    var i := 0;
    while i < |hex|
      invariant 0 <= i <= |hex| && i % 2 == 0
      invariant index == i / 2
      invariant bytes.Length == len
      invariant forall k :: 0 <= k < index ==> bytes[k] == Decode(hex)[k]
      decreases |hex| - i
    {
      var c := hex[i..i + 2];
      var b := ParsePair(c);
      DecodeAt(hex, index);
      bytes[index] := b;
      index := index + 1;
      i := i + 2;
    }
  }

  /** The lower-case digit for a value below 16. */
  function DigitChar(d: nat): (c: char)
    requires d < 16
    ensures IsHexDigit(c) && DigitValue(c) == d
  {
    if d < 10 then ('0' as int + d) as char else ('a' as int + d - 10) as char
  }

  /** Two lower-case hex digits per byte. */
  function Encode(bytes: seq<uint8>): (r: string)
    ensures |r| == 2 * |bytes| && IsHex(r)
  {
    if bytes == [] then []
    else [DigitChar(bytes[0] as int / 16), DigitChar(bytes[0] as int % 16)] + Encode(bytes[1..])
  }

  /** The empty text decodes to no bytes. */
  lemma DecodeEmpty()
    ensures Decode("") == []
  {
  }

  /** Decoding undoes encoding. */
  lemma {:induction false} DecodeEncode(bytes: seq<uint8>)
    ensures Decode(Encode(bytes)) == bytes
  {
    if bytes != [] {
      var e := Encode(bytes);
      var b := bytes[0] as int;
      assert e[..2] == [DigitChar(b / 16), DigitChar(b % 16)];
      assert ParsePair(e[..2]) as int == 16 * (b / 16) + b % 16 == b;
      assert e[2..] == Encode(bytes[1..]);
      DecodeEncode(bytes[1..]);
      assert Decode(e) == [ParsePair(e[..2])] + Decode(e[2..]);
    }
  }

  /** Decoding reads the first two digits, then the rest. */
  lemma DecodeFirst(hex: string)
    requires IsHex(hex) && |hex| % 2 == 0 && hex != []
    ensures IsHex(hex[2..]) && Decode(hex) == [ParsePair(hex[..2])] + Decode(hex[2..])
  {
  }

  /** Decoding distributes over concatenation of even-length texts. */
  lemma {:induction false} DecodeAppend(a: string, b: string)
    requires IsHex(a) && |a| % 2 == 0 && IsHex(b) && |b| % 2 == 0
    ensures IsHex(a + b) && Decode(a + b) == Decode(a) + Decode(b)
    decreases |a|
  {
    var ab := a + b;
    assert IsHex(ab) by {
      forall i | 0 <= i < |ab| ensures IsHexDigit(ab[i]) {
        if i < |a| { assert ab[i] == a[i]; } else { assert ab[i] == b[i - |a|]; }
      }
    }
    if a == [] {
      assert ab == b;
    } else {
      assert ab[2..] == a[2..] + b;
      assert ab[..2] == a[..2];
      DecodeFirst(a);
      DecodeFirst(ab);
      DecodeAppend(a[2..], b);
    }
  }

  /** Upper- and lower-case digits decode alike. */
  lemma {:induction false} DecodeIgnoresCase(hex: string)
    requires IsHex(hex) && |hex| % 2 == 0
    ensures IsHex(Lower(hex)) && Decode(Lower(hex)) == Decode(hex)
    decreases |hex|
  {
    var l := Lower(hex);
    assert forall i :: 0 <= i < |hex| ==> IsHexDigit(l[i]) && DigitValue(l[i]) == DigitValue(hex[i]);
    if hex != [] {
      assert l[2..] == Lower(hex[2..]);
      DecodeIgnoresCase(hex[2..]);
    }
  }

  /** `split`: the pieces between occurrences of `sep`. */
  function Split(s: string, sep: char): (parts: seq<string>)
    ensures |parts| >= 1
    ensures forall i :: 0 <= i < |parts| ==> sep !in parts[i]
    ensures |parts| > 1 <==> sep in s
    decreases |s|
  {
    if s == [] then [[]]
    else if s[0] == sep then [[]] + Split(s[1..], sep)
    else var rest := Split(s[1..], sep); [[s[0]] + rest[0]] + rest[1..]
  }

  /** The pieces joined back with `sep`. */
  function Join(parts: seq<string>, sep: char): string
    requires |parts| >= 1
  {
    if |parts| == 1 then parts[0] else parts[0] + [sep] + Join(parts[1..], sep)
  }

  /** Splitting loses nothing: joining the pieces gives back the text. */
  lemma {:induction false} JoinSplit(s: string, sep: char)
    ensures Join(Split(s, sep), sep) == s
    decreases |s|
  {
    if s != [] {
      var rest := Split(s[1..], sep);
      var parts := Split(s, sep);
      JoinSplit(s[1..], sep);
      assert Join(rest, sep) == s[1..];
      if s[0] == sep {
        assert parts == [[]] + rest && parts[1..] == rest;
        assert Join(parts, sep) == [] + [sep] + Join(rest, sep);
      } else if |rest| == 1 {
        assert parts == [[s[0]] + rest[0]];
        assert Join(parts, sep) == [s[0]] + Join(rest, sep);
      } else {
        assert parts[0] == [s[0]] + rest[0] && parts[1..] == rest[1..];
        assert Join(rest, sep) == rest[0] + [sep] + Join(rest[1..], sep);
        assert Join(parts, sep) == [s[0]] + Join(rest, sep);
      }
      assert s == [s[0]] + s[1..];
    }
  }

  /** Text without `sep` is one piece. */
  lemma {:induction false} SplitNoSep(s: string, sep: char)
    requires sep !in s
    ensures Split(s, sep) == [s]
    decreases |s|
  {
    if s != [] {
      SplitNoSep(s[1..], sep);
      assert [s[0]] + s[1..] == s;
    }
  }

  /** A text without `sep` before the first `sep` is the first piece. */
  lemma {:induction false} SplitAtFirst(a: string, sep: char, b: string)
    requires sep !in a
    ensures Split(a + [sep] + b, sep) == [a] + Split(b, sep)
    decreases |a|
  {
    var s := a + [sep] + b;
    if a == [] {
      assert s[0] == sep && s[1..] == b;
    } else {
      assert s[0] == a[0] && s[1..] == a[1..] + [sep] + b;
      SplitAtFirst(a[1..], sep, b);
      assert [a[0]] + a[1..] == a;
    }
  }

  /** `parts[1]` of the header split on '=': absent when the header has no '='. */
  function SignatureHex(header: string): (r: Option<string>)
    ensures r.Some? <==> '=' in header
    ensures r.Some? ==> '=' !in r.value
  {
    var parts := Split(header, '=');
    if |parts| > 1 then Some(parts[1]) else None
  }

  /** The signature digits of `sha256=<h>` are `h` when `h` holds no '='. */
  lemma SignatureOfHeader(h: string)
    requires '=' !in h
    ensures SignatureHex("sha256=" + h) == Some(h)
  {
    assert "sha256=" + h == "sha256" + ['='] + h;
    SplitAtFirst("sha256", '=', h);
    SplitNoSep(h, '=');
  }

  /** A header without '=' has no signature. */
  lemma NoSignatureWithoutSeparator(header: string)
    requires '=' !in header
    ensures SignatureHex(header) == None
  {
    SplitNoSep(header, '=');
  }
}
