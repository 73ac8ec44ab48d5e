/**
 * The word-based swear check: the message is trimmed, lower-cased and cut
 * into words at whitespace, and it holds a swear when some pattern accepts
 * some word. A pattern is any value `test` can apply to a word.
 */
module SwearPatterns {
  import opened Text

  predicate NoSpace(w: string)
  {
    forall i :: 0 <= i < |w| ==> !IsSpace(w[i])
  }

  /** The length of the leading run of non-whitespace characters. */
  function RunLength(s: string): (n: nat)
    ensures n <= |s|
    ensures NoSpace(s[..n])
    ensures n < |s| ==> IsSpace(s[n])
  {
    if s == [] || IsSpace(s[0]) then 0 else 1 + RunLength(s[1..])
  }

  /** `split(/\s+/)` with the empty pieces filtered out. */
  function Words(s: string): (ws: seq<string>)
    ensures forall i :: 0 <= i < |ws| ==> ws[i] != [] && NoSpace(ws[i])
    decreases |s|
  {
    if s == [] then []
    else if IsSpace(s[0]) then Words(s[1..])
    else var n := RunLength(s); [s[..n]] + Words(s[n..])
  }

  /** The words the message is searched in. */
  function Tokenise(message: string): (ws: seq<string>)
    ensures forall i :: 0 <= i < |ws| ==> ws[i] != [] && NoSpace(ws[i])
  {
    Words(Lower(Trim(message)))
  }

  /** The inner loop: whether some pattern accepts `word`. */
  function MatchesAny<P>(word: string, patterns: seq<P>, test: (P, string) -> bool): (r: bool)
    ensures r <==> exists j :: 0 <= j < |patterns| && test(patterns[j], word)
  {
    if patterns == [] then false
    else test(patterns[0], word) || MatchesAny(word, patterns[1..], test)
  }

  /** The outer loop: whether some pattern accepts some word. */
  function AnyWordMatches<P>(words: seq<string>, patterns: seq<P>, test: (P, string) -> bool): (r: bool)
    ensures r <==> exists w, j :: w in words && 0 <= j < |patterns| && test(patterns[j], w)
  {
    if words == [] then false
    else
      var first := MatchesAny(words[0], patterns, test);
      var later := AnyWordMatches(words[1..], patterns, test);
      assert first ==> exists w, j :: w in words && 0 <= j < |patterns| && test(patterns[j], w) by {
        if first {
          var j :| 0 <= j < |patterns| && test(patterns[j], words[0]);
          assert words[0] in words;
        }
      }
      assert later ==> exists w, j :: w in words && 0 <= j < |patterns| && test(patterns[j], w) by {
        if later {
          var w, j :| w in words[1..] && 0 <= j < |patterns| && test(patterns[j], w);
          assert w in words;
        }
      }
      assert (exists w, j :: w in words && 0 <= j < |patterns| && test(patterns[j], w)) ==> first || later by {
        if exists w, j :: w in words && 0 <= j < |patterns| && test(patterns[j], w) {
          var w, j :| w in words && 0 <= j < |patterns| && test(patterns[j], w);
          if w != words[0] {
            assert w in words[1..];
          }
        }
      }
      first || later
  }

  /** `hasSwear`: true exactly when some pattern accepts some word of the message. */
  function HasSwear<P>(message: string, patterns: seq<P>, test: (P, string) -> bool): (r: bool)
    ensures r <==> exists w, j :: w in Tokenise(message) && 0 <= j < |patterns| && test(patterns[j], w)
  {
    AnyWordMatches(Tokenise(message), patterns, test)
  }

  /** Whitespace-only text has no words. */
  lemma {:induction false} WordsOfBlank(s: string)
    requires AllSpace(s)
    ensures Words(s) == []
    decreases |s|
  {
    if s != [] {
      WordsOfBlank(s[1..]);
    }
  }

  /** A non-empty run without whitespace is one word. */
  lemma WordsOfWord(w: string)
    requires w != [] && NoSpace(w)
    ensures Words(w) == [w]
  {
    assert RunLength(w) == |w|;
    assert w[..|w|] == w && w[|w|..] == [];
  }

  lemma {:induction false} RunStopsAtSpace(a: string, c: char, b: string)
    requires IsSpace(c)
    ensures RunLength(a + [c] + b) == RunLength(a)
    decreases |a|
  {
    var s := a + [c] + b;
    if a == [] {
      assert s[0] == c;
    } else {
      assert s[0] == a[0] && s[1..] == a[1..] + [c] + b;
      RunStopsAtSpace(a[1..], c, b);
    }
  }

  /** A whitespace character separates words: the words on each side, in order. */
  lemma {:induction false} WordsSplitAtSpace(a: string, c: char, b: string)
    requires IsSpace(c)
    ensures Words(a + [c] + b) == Words(a) + Words(b)
    decreases |a|
  {
    var s := a + [c] + b;
    if a == [] {
      assert s[0] == c && s[1..] == b;
    } else if IsSpace(a[0]) {
      assert s[0] == a[0] && s[1..] == a[1..] + [c] + b;
      WordsSplitAtSpace(a[1..], c, b);
    } else {
      assert s[0] == a[0];
      var m := RunLength(a);
      RunStopsAtSpace(a, c, b);
      assert s[..m] == a[..m];
      assert s[m..] == a[m..] + [c] + b;
      WordsSplitAtSpace(a[m..], c, b);
    }
  }

  /** A message of whitespace only, the empty message included, holds no swear. */
  lemma BlankHasNoSwear<P>(message: string, patterns: seq<P>, test: (P, string) -> bool)
    requires AllSpace(message)
    ensures !HasSwear(message, patterns, test)
  {
    TrimAllSpace(message);
    assert Lower(Trim(message)) == [];
  }

  /** A message and its lower-cased form give the same answer. */
  lemma IgnoresCase<P>(message: string, patterns: seq<P>, test: (P, string) -> bool)
    ensures HasSwear(Lower(message), patterns, test) == HasSwear(message, patterns, test)
  {
    TrimLower(message);
    LowerIdempotent(Trim(message));
    assert Tokenise(Lower(message)) == Tokenise(message);
  }

  /** Leading and trailing whitespace do not change the answer. */
  lemma IgnoresOuterSpace<P>(a: string, message: string, b: string, patterns: seq<P>, test: (P, string) -> bool)
    requires AllSpace(a) && AllSpace(b)
    ensures HasSwear(a + message + b, patterns, test) == HasSwear(message, patterns, test)
  {
    TrimIgnoresOuterSpace(a, message, b);
    assert Tokenise(a + message + b) == Tokenise(message);
  }

  /** More patterns never turn a found swear into none. */
  lemma MorePatterns<P>(message: string, patterns: seq<P>, more: seq<P>, test: (P, string) -> bool)
    requires forall p :: p in patterns ==> p in more
    requires HasSwear(message, patterns, test)
    ensures HasSwear(message, more, test)
  {
    var w, j :| w in Tokenise(message) && 0 <= j < |patterns| && test(patterns[j], w);
    assert patterns[j] in more;
    var k :| 0 <= k < |more| && more[k] == patterns[j];
    assert test(more[k], w);
  }
}
