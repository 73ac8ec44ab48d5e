/**
 * The list-based swear check: the message is trimmed and lower-cased, and it
 * holds a swear when some listed swear occurs in it as a substring.
 */
module SwearWords {
  import opened Text

  /** Whether `needle` occurs in `hay` at position `i`. */
  predicate OccursAt(hay: string, needle: string, i: nat)
  {
    i + |needle| <= |hay| && hay[i..i + |needle|] == needle
  }

  /** `String.prototype.includes`. */
  function Includes(hay: string, needle: string): (r: bool)
    ensures r <==> exists i: nat :: OccursAt(hay, needle, i)
    decreases |hay|
  {
    if |needle| > |hay| then false
    else if hay[..|needle|] == needle then (assert OccursAt(hay, needle, 0); true)
    else
      var r := Includes(hay[1..], needle);
      assert forall i: nat :: OccursAt(hay[1..], needle, i) ==> OccursAt(hay, needle, i + 1);
      assert forall i: nat :: OccursAt(hay, needle, i) && i > 0 ==> OccursAt(hay[1..], needle, i - 1);
      r
  }

  /** The search loop: whether some listed swear occurs in `text`. */
  function AnyIncluded(text: string, swears: seq<string>): (r: bool)
    ensures r <==> exists j :: 0 <= j < |swears| && Includes(text, swears[j])
  {
    if swears == [] then false
    else Includes(text, swears[0]) || AnyIncluded(text, swears[1..])
  }

  /** `hasSwear`: true exactly when some listed swear is a substring of the trimmed, lower-cased message. */
  function HasSwear(message: string, swears: seq<string>): (r: bool)
    ensures r <==> exists s :: s in swears && Includes(Lower(Trim(message)), s)
  {
    var r := AnyIncluded(Lower(Trim(message)), swears);
    assert r ==> exists j :: 0 <= j < |swears| && Includes(Lower(Trim(message)), swears[j]);
    r
  }

  /** An empty list finds no swear. */
  lemma NoSwearsNoMatch(message: string)
    ensures !HasSwear(message, [])
  {
  }

  /** A list holding the empty text matches every message. */
  lemma EmptySwearMatchesAll(message: string, swears: seq<string>)
    requires "" in swears
    ensures HasSwear(message, swears)
  {
    assert OccursAt(Lower(Trim(message)), "", 0);
  }

  /** The order of the list does not matter: only which swears it holds. */
  lemma OrderIrrelevant(message: string, swears: seq<string>, others: seq<string>)
    requires forall s :: s in swears <==> s in others
    ensures HasSwear(message, swears) == HasSwear(message, others)
  {
  }

  /** A message and its lower-cased form give the same answer. */
  lemma IgnoresCase(message: string, swears: seq<string>)
    ensures HasSwear(Lower(message), swears) == HasSwear(message, swears)
  {
    TrimLower(message);
    LowerIdempotent(Trim(message));
    assert Lower(Trim(Lower(message))) == Lower(Trim(message));
  }

  /** Leading and trailing whitespace do not change the answer. */
  lemma IgnoresOuterSpace(a: string, message: string, b: string, swears: seq<string>)
    requires AllSpace(a) && AllSpace(b)
    ensures HasSwear(a + message + b, swears) == HasSwear(message, swears)
  {
    TrimIgnoresOuterSpace(a, message, b);
  }
}
