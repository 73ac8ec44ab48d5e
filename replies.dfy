/** The canned-reply collection: replies keyed by the text that triggers them. */
module Replies {
  import opened Optional

  /** The module-level `replies` collection, as an object. */
  class ReplyCollection<R> {
    var replies: map<string, R>

    /** The collection starts empty. */
    constructor ()
      ensures replies == map[]
    {
      replies := map[];
    }

    /** `addReply`: sets the reply for `text`, replacing an earlier one; other texts are untouched. */
    method AddReply(text: string, reply: R)
      modifies this
      ensures replies == old(replies)[text := reply]
      ensures forall other :: other != text ==> Get(replies, other) == Get(old(replies), other)
    {
      replies := replies[text := reply];
    }

    /** `getReply`: the reply for `text`, or absent when none was added. */
    method GetReply(text: string) returns (reply: Option<R>)
      ensures reply.Some? <==> text in replies
      ensures reply.Some? ==> reply.value == replies[text]
    {
      reply := Get(replies, text);
    }

    /** `hasReply`: whether a reply was added for `text`. */
    method HasReply(text: string) returns (has: bool)
      ensures has <==> text in replies
    {
      has := text in replies;
    }
  }

  /** The map a run of `addReply` calls leaves behind, starting from `replies`. */
  function AddAll<R>(replies: map<string, R>, added: seq<(string, R)>): (r: map<string, R>)
    ensures forall text :: text in r <==> text in replies || exists i :: 0 <= i < |added| && added[i].0 == text
  {
    if added == [] then replies
    else
      var last := added[|added| - 1];
      AddAll(replies, added[..|added| - 1])[last.0 := last.1]
  }

  /** `added[i]` is the last entry of the run that is for `text`. */
  predicate LastFor<R>(added: seq<(string, R)>, text: string, i: int)
  {
    0 <= i < |added| && added[i].0 == text && forall k :: i < k < |added| ==> added[k].0 != text
  }

  /** The reply most recently added for `text` in a run of calls, if any. */
  function LastAdded<R>(added: seq<(string, R)>, text: string): (r: Option<R>)
    ensures r.Some? <==> exists i :: 0 <= i < |added| && added[i].0 == text
    ensures r.Some? ==> exists i :: LastFor(added, text, i) && added[i].1 == r.value
  {
    if added == [] then None
    else
      var last := added[|added| - 1];
      var prefix := added[..|added| - 1];
      if last.0 == text then
        assert LastFor(added, text, |added| - 1);
        Some(last.1)
      else
        var r := LastAdded(prefix, text);
        assert r.Some? <==> exists i :: 0 <= i < |added| && added[i].0 == text by {
          if exists i :: 0 <= i < |added| && added[i].0 == text {
            var i :| 0 <= i < |added| && added[i].0 == text;
            assert prefix[i] == added[i];
          }
          if r.Some? {
            var i :| 0 <= i < |prefix| && prefix[i].0 == text;
            assert added[i] == prefix[i];
          }
        }
        assert r.Some? ==> exists i :: LastFor(added, text, i) && added[i].1 == r.value by {
          if r.Some? {
            var i :| LastFor(prefix, text, i) && prefix[i].1 == r.value;
            assert added[i] == prefix[i];
            assert LastFor(added, text, i);
          }
        }
        r
  }

  /**
   * After a run of `addReply` calls, a text has the reply added for it last,
   * or the reply it had before when it was not added.
   */
  lemma {:induction false} AddedTexts<R>(replies: map<string, R>, added: seq<(string, R)>, text: string)
    ensures Get(AddAll(replies, added), text) ==
            if LastAdded(added, text).Some? then LastAdded(added, text) else Get(replies, text)
  {
    if added != [] {
      AddedTexts(replies, added[..|added| - 1], text);
    }
  }
}
