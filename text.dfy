/**
 * ASCII text helpers behind `String.prototype.trim`, `toLowerCase` and the
 * `\s` character class, restricted to ASCII letters and whitespace.
 */
module Text {

  /** ASCII whitespace: tab, line feed, vertical tab, form feed, carriage return, space. */
  predicate IsSpace(c: char)
  {
    c == ' ' || c == '\t' || c == '\n' || c == '\r' || c == 11 as char || c == 12 as char
  }

  predicate AllSpace(s: string)
  {
    forall i :: 0 <= i < |s| ==> IsSpace(s[i])
  }

  /** ASCII lower-casing of one character. */
  function LowerChar(c: char): (r: char)
    ensures IsSpace(r) <==> IsSpace(c)
    ensures 'A' <= c <= 'Z' ==> 'a' <= r <= 'z'
    ensures !('A' <= c <= 'Z') ==> r == c
  {
    if 'A' <= c <= 'Z' then (c as int + 32) as char else c
  }

  /** `toLowerCase` on ASCII text. */
  function Lower(s: string): (r: string)
    ensures |r| == |s|
    ensures forall i :: 0 <= i < |s| ==> r[i] == LowerChar(s[i])
  {
    if s == [] then [] else [LowerChar(s[0])] + Lower(s[1..])
  }

  /** Removes the leading whitespace. */
  function TrimStart(s: string): (r: string)
    ensures |r| <= |s| && r == s[|s| - |r|..]
    ensures AllSpace(s[..|s| - |r|])
    ensures r == [] || !IsSpace(r[0])
  {
    if s != [] && IsSpace(s[0]) then TrimStart(s[1..]) else s
  }

  /** Removes the trailing whitespace. */
  function TrimEnd(s: string): (r: string)
    ensures |r| <= |s| && r == s[..|r|]
    ensures AllSpace(s[|r|..])
    ensures r == [] || !IsSpace(r[|r| - 1])
  {
    if s != [] && IsSpace(s[|s| - 1]) then TrimEnd(s[..|s| - 1]) else s
  }

  /** `r` is `s` with the whitespace-only texts `s[..i]` and `s[i + |r|..]` removed. */
  predicate Inner(s: string, i: int, r: string)
  {
    0 <= i <= |s| - |r| && r == s[i..i + |r|] && AllSpace(s[..i]) && AllSpace(s[i + |r|..])
  }

  /** `trim`: removes the whitespace at both ends. */
  function Trim(s: string): (r: string)
    ensures exists i :: Inner(s, i, r)
    ensures r == [] || (!IsSpace(r[0]) && !IsSpace(r[|r| - 1]))
  {
    TrimSlice(s);
    TrimEnd(TrimStart(s))
  }

  /** Where the trimmed text sits inside the original. */
  lemma TrimSlice(s: string)
    ensures Inner(s, |s| - |TrimStart(s)|, TrimEnd(TrimStart(s)))
  {
    var t := TrimStart(s);
    var i := |s| - |t|;
    var r := TrimEnd(t);
    assert AllSpace(s[..i]) && t == s[i..];
    assert AllSpace(t[|r|..]) && r == t[..|r|];
    SliceOfSuffix(s, i, |r|);
  }

  /** A prefix of a suffix is a middle slice, and what follows it is the rest of the suffix. */
  lemma SliceOfSuffix(s: string, i: int, n: int)
    requires 0 <= i <= |s| && 0 <= n <= |s| - i
    ensures s[i..][..n] == s[i..i + n]
    ensures s[i..][n..] == s[i + n..]
  {
  }

  lemma {:induction false} LowerIdempotent(s: string)
    ensures Lower(Lower(s)) == Lower(s)
  {
    if s != [] {
      LowerIdempotent(s[1..]);
    }
  }

  lemma {:induction false} LowerAppend(a: string, b: string)
    ensures Lower(a + b) == Lower(a) + Lower(b)
  {
    if a != [] {
      assert (a + b)[1..] == a[1..] + b;
      LowerAppend(a[1..], b);
    }
  }

  lemma {:induction false} TrimStartSpacePrefix(w: string, s: string)
    requires AllSpace(w)
    ensures TrimStart(w + s) == TrimStart(s)
  {
    if w != [] {
      assert (w + s)[0] == w[0] && (w + s)[1..] == w[1..] + s;
      TrimStartSpacePrefix(w[1..], s);
    } else {
      assert w + s == s;
    }
  }

  lemma {:induction false} TrimEndSpaceSuffix(s: string, w: string)
    requires AllSpace(w)
    ensures TrimEnd(s + w) == TrimEnd(s)
  {
    if w != [] {
      var w' := w[..|w| - 1];
      assert (s + w)[|s + w| - 1] == w[|w| - 1];
      assert (s + w)[..|s + w| - 1] == s + w';
      TrimEndSpaceSuffix(s, w');
    } else {
      assert s + w == s;
    }
  }

  /** Whitespace-only text (the empty text included) trims to the empty text. */
  lemma {:induction false} TrimAllSpace(s: string)
    requires AllSpace(s)
    ensures Trim(s) == []
  {
    if s != [] {
      TrimAllSpace(s[1..]);
    }
  }

  lemma {:induction false} TrimStartAppend(m: string, b: string)
    requires TrimStart(m) != []
    ensures TrimStart(m + b) == TrimStart(m) + b
  {
    assert (m + b)[0] == m[0];
    if IsSpace(m[0]) {
      assert (m + b)[1..] == m[1..] + b;
      TrimStartAppend(m[1..], b);
    }
  }

  /** Leading and trailing whitespace make no difference to the trimmed text. */
  lemma TrimIgnoresOuterSpace(a: string, m: string, b: string)
    requires AllSpace(a) && AllSpace(b)
    ensures Trim(a + m + b) == Trim(m)
  {
    assert a + m + b == a + (m + b);
    TrimStartSpacePrefix(a, m + b);
    var t := TrimStart(m);
    if t == [] {
      assert m == m[..|m|];
      TrimStartSpacePrefix(m, b);
      TrimAllSpace(b);
      assert TrimStart(b) == [] by {
        TrimStartSpacePrefix(b, []);
        assert b + [] == b;
      }
    } else {
      TrimStartAppend(m, b);
      TrimEndSpaceSuffix(t, b);
    }
  }

  lemma {:induction false} TrimStartLower(s: string)
    ensures TrimStart(Lower(s)) == Lower(TrimStart(s))
  {
    if s != [] {
      assert Lower(s)[1..] == Lower(s[1..]);
      TrimStartLower(s[1..]);
    }
  }

  lemma {:induction false} TrimEndLower(s: string)
    ensures TrimEnd(Lower(s)) == Lower(TrimEnd(s))
  {
    if s != [] {
      var s' := s[..|s| - 1];
      LowerAppend(s', [s[|s| - 1]]);
      assert s == s' + [s[|s| - 1]];
      assert Lower(s)[..|s| - 1] == Lower(s');
      TrimEndLower(s');
    }
  }

  /** Trimming and lower-casing commute. */
  lemma TrimLower(s: string)
    ensures Trim(Lower(s)) == Lower(Trim(s))
  {
    TrimStartLower(s);
    TrimEndLower(TrimStart(s));
  }
}
