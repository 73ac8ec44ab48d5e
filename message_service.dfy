/**
 * Per-guild conversation history: pending turns, a summary of everything
 * older, and an optional "mimic" style instruction. New turns accumulate
 * until the pending list reaches the limit (or a summary is forced); then an
 * external summariser condenses them, and on success the pending list is
 * cleared, the summary and mimic are replaced and the row is persisted. On
 * any failure no turn is lost.
 *
 * The pure part (SaveSummaryStep, View, AddAll) states what one call and a
 * run of calls do to a cache entry; the classes MessageTable (the durable
 * Message table) and MessageService (the service object with its cache and
 * mutex) are the state the program updates in place.
 */
module Conversation {
  import opened Optional
  import opened Mutexes

  type GuildId = string

  datatype Role = User | Assistant | System

  /** One turn of a conversation. */
  datatype Turn = Turn(role: Role, content: string)

  /** A cache entry: turns since the last summary, the summary, the mimic instruction. */
  datatype Entry = Entry(messages: seq<Turn>, summary: Option<string>, mimic: Option<string>)

  /** A row of the Message table, keyed by guild: `content` is never null, `mimic` may be. */
  datatype Row = Row(content: string, mimic: Option<string>)

  /**
   * What `getSummary` yields: nothing (no client configured, or a `null`
   * answer), a failure (the request or the JSON parsing threw), or the parsed
   * object with its possibly missing `content` and `mimic` fields.
   */
  datatype Reply = NoSummary | Failed | Summary(content: Option<string>, mimic: Option<string>)

  /** The answer the text-generation service gives for a list of turns. */
  type Summariser = seq<Turn> -> Reply

  /** JavaScript truthiness of a `string | null`: present and non-empty. */
  predicate Present(s: Option<string>)
  {
    s.Some? && s.value != ""
  }

  /** A reply that the service accepts as a summary. */
  predicate Succeeds(r: Reply)
  {
    r.Summary? && Present(r.content)
  }

  const PreviousSummary := "Previous summary: "
  const ContextSummary := "Previous conversation summary: "
  const MimicIntro := "Additional instruction: Also imitate the speech style of "
  const MimicOutro := ", while maintaining your Ernest Amano persona."

  /** The entry created on first access, from the stored row if one was found. */
  function NewEntry(row: Option<Row>): (e: Entry)
    ensures e.messages == []
    ensures e.summary.Some? <==> row.Some?
    ensures row.Some? ==> e.summary.value == row.value.content && e.mimic == row.value.mimic
    ensures row.None? ==> e.mimic.None?
  {
    match row
    case None => Entry([], None, None)
    case Some(r) => Entry([], Some(r.content), r.mimic)
  }

  /**
   * The entry `getMessageData` hands out for `g`: the cached one, or else a new
   * one loaded from the table (no row when the lookup throws).
   */
  function Resident(cache: map<GuildId, Entry>, rows: map<GuildId, Row>, g: GuildId, lookupFails: bool): (e: Entry)
    ensures g in cache ==> e == cache[g]
    ensures g !in cache ==> e.messages == [] && (e.summary.Some? <==> !lookupFails && g in rows)
    ensures g !in cache && !lookupFails && g in rows ==> e.summary == Some(rows[g].content) && e.mimic == rows[g].mimic
    ensures g !in cache && (lookupFails || g !in rows) ==> e.mimic.None?
  {
    if g in cache then cache[g]
    else NewEntry(if lookupFails then None else Get(rows, g))
  }

  /** Whether the combined pending turns are to be summarised. */
  predicate Due(combined: seq<Turn>, limit: int, force: bool)
  {
    |combined| > 0 && (|combined| >= limit || force)
  }

  /** The turns handed to the summariser: the previous summary first, when there is one. */
  function SummaryInput(e: Entry, combined: seq<Turn>): seq<Turn>
  {
    if Present(e.summary) then [Turn(System, PreviousSummary + e.summary.value)] + combined
    else combined
  }

  /** `getSummary`: no answer at all when no client is configured. */
  function GetSummary(configured: bool, summarise: Summariser, input: seq<Turn>): (r: Reply)
    ensures !configured ==> r.NoSummary?
    ensures configured ==> r == summarise(input)
  {
    if configured then summarise(input) else NoSummary
  }

  /**
   * The effect of one `saveSummary` call: the new entry, the input handed to
   * `getSummary` if it was called, and the row upserted into the table if one was.
   */
  datatype Outcome = Outcome(entry: Entry, request: Option<seq<Turn>>, upsert: Option<Row>)

  function SaveSummaryStep(e: Entry, turns: seq<Turn>, limit: int, force: bool,
                           configured: bool, summarise: Summariser): (out: Outcome)
    ensures out.request.Some? <==> Due(e.messages + turns, limit, force)
    ensures out.upsert.Some? ==> out.request.Some? && out.entry.messages == [] && out.upsert.value.content != ""
                                 && out.entry.summary == Some(out.upsert.value.content)
                                 && out.entry.mimic == out.upsert.value.mimic
    ensures out.upsert.None? ==> out.entry == e.(messages := e.messages + turns)
  {
    var combined := e.messages + turns;
    if !Due(combined, limit, force) then Outcome(e.(messages := combined), None, None)
    else
      var input := SummaryInput(e, combined);
      var reply := GetSummary(configured, summarise, input);
      if Succeeds(reply) then
        Outcome(Entry([], reply.content, reply.mimic), Some(input), Some(Row(reply.content.value, reply.mimic)))
      else
        Outcome(e.(messages := combined), Some(input), None)
  }

  /** `getMessagesUtil`: the summary turn, the mimic turn, then the pending turns. */
  function View(e: Entry): (v: seq<Turn>)
    ensures |v| >= |e.messages| && v[|v| - |e.messages|..] == e.messages
    ensures |v| == |e.messages| <==> !Present(e.summary) && !Present(e.mimic)
  {
    (if Present(e.summary) then [Turn(System, ContextSummary + e.summary.value)] else [])
    + (if Present(e.mimic) then [Turn(System, MimicIntro + e.mimic.value + MimicOutro)] else [])
    + e.messages
  }

  /** The entry after `addMessages` is called with each batch in turn. */
  function AddAll(e: Entry, batches: seq<seq<Turn>>, limit: int, configured: bool, summarise: Summariser): Entry
    decreases |batches|
  {
    if batches == [] then e
    else AddAll(SaveSummaryStep(e, batches[0], limit, false, configured, summarise).entry,
                batches[1..], limit, configured, summarise)
  }

  /** All turns of all batches, in order. */
  function Flatten(batches: seq<seq<Turn>>): seq<Turn>
  {
    if batches == [] then [] else batches[0] + Flatten(batches[1..])
  }

  /**
   * `getSummary` is called exactly when the combined turns are non-empty and
   * reach the limit (or summarising is forced), with the previous summary as a
   * leading system turn when there is one and the combined turns after it.
   * Otherwise the turns are only appended.
   */
  lemma SummariserCalledOnlyWhenDue(e: Entry, turns: seq<Turn>, limit: int, force: bool,
                                    configured: bool, summarise: Summariser)
    ensures var combined := e.messages + turns;
            var out := SaveSummaryStep(e, turns, limit, force, configured, summarise);
            && (out.request.Some? <==> |combined| > 0 && (|combined| >= limit || force))
            && (out.request.Some? && Present(e.summary) ==>
                  out.request.value == [Turn(System, PreviousSummary + e.summary.value)] + combined)
            && (out.request.Some? && !Present(e.summary) ==> out.request.value == combined)
            && (out.request.None? ==> out.entry == e.(messages := combined) && out.upsert.None?)
  {
  }

  /** Forcing a summary with nothing pending leaves the entry as it was. */
  lemma ForceWithNothingPending(e: Entry, limit: int, force: bool, configured: bool, summarise: Summariser)
    requires e.messages == []
    ensures var out := SaveSummaryStep(e, [], limit, force, configured, summarise);
            out.entry == e && out.request.None? && out.upsert.None?
  {
    assert e.messages + [] == e.messages;
  }

  /** With no summariser configured the turns are only appended and nothing is stored. */
  lemma UnconfiguredAccumulates(e: Entry, turns: seq<Turn>, limit: int, force: bool, summarise: Summariser)
    ensures var out := SaveSummaryStep(e, turns, limit, force, false, summarise);
            out.entry == e.(messages := e.messages + turns) && out.upsert.None?
  {
  }

  /**
   * A summary with non-empty content clears the pending turns, replaces the
   * summary, overwrites the mimic (absent included) and upserts the same
   * content and mimic.
   */
  lemma SuccessReplaces(e: Entry, turns: seq<Turn>, limit: int, force: bool, summarise: Summariser,
                        content: string, mimic: Option<string>)
    requires Due(e.messages + turns, limit, force)
    requires summarise(SummaryInput(e, e.messages + turns)) == Summary(Some(content), mimic)
    requires content != ""
    ensures var out := SaveSummaryStep(e, turns, limit, force, true, summarise);
            out.entry == Entry([], Some(content), mimic) && out.upsert == Some(Row(content, mimic))
  {
  }

  /**
   * A failed request, or a summary without content, keeps every turn and
   * leaves the summary and mimic as they were; nothing is stored.
   */
  lemma FailureKeepsTurns(e: Entry, turns: seq<Turn>, limit: int, force: bool, summarise: Summariser)
    requires !Succeeds(summarise(SummaryInput(e, e.messages + turns)))
    ensures var out := SaveSummaryStep(e, turns, limit, force, true, summarise);
            out.entry == e.(messages := e.messages + turns) && out.upsert.None?
  {
  }

  /**
   * All or nothing: a call either appends the turns and changes nothing else,
   * or it summarised, in which case the pending list is empty, the summary is
   * non-empty and exactly the new summary and mimic are stored.
   */
  lemma AllOrNothing(e: Entry, turns: seq<Turn>, limit: int, force: bool,
                     configured: bool, summarise: Summariser)
    ensures var out := SaveSummaryStep(e, turns, limit, force, configured, summarise);
            || (out.entry == e.(messages := e.messages + turns) && out.upsert.None?)
            || (&& out.entry.messages == []
                && Present(out.entry.summary)
                && out.request.Some? && Succeeds(GetSummary(configured, summarise, out.request.value))
                && out.upsert == Some(Row(out.entry.summary.value, out.entry.mimic)))
  {
  }

  /** With a summariser that always succeeds, the pending list stays below the limit. */
  lemma PendingBelowLimit(e: Entry, turns: seq<Turn>, limit: int, summarise: Summariser)
    requires limit >= 1
    requires forall input :: Succeeds(summarise(input))
    ensures |SaveSummaryStep(e, turns, limit, false, true, summarise).entry.messages| < limit
  {
    var combined := e.messages + turns;
    if Due(combined, limit, false) {
      assert Succeeds(summarise(SummaryInput(e, combined)));
    }
  }

  /** The same over any run of `addMessages` calls. */
  lemma {:induction false} PendingStaysBelowLimit(e: Entry, batches: seq<seq<Turn>>, limit: int,
                                                  summarise: Summariser)
    requires limit >= 1 && |e.messages| < limit
    requires forall input :: Succeeds(summarise(input))
    ensures |AddAll(e, batches, limit, true, summarise).messages| < limit
    decreases |batches|
  {
    if batches != [] {
      PendingBelowLimit(e, batches[0], limit, summarise);
      PendingStaysBelowLimit(SaveSummaryStep(e, batches[0], limit, false, true, summarise).entry,
                             batches[1..], limit, summarise);
    }
  }

  /**
   * When no summary is ever produced (no client, or every request fails), a
   * run of `addMessages` keeps every turn in call order and leaves the
   * summary and mimic untouched.
   */
  lemma {:induction false} NoTurnLost(e: Entry, batches: seq<seq<Turn>>, limit: int,
                                      configured: bool, summarise: Summariser)
    requires !configured || forall input :: !Succeeds(summarise(input))
    ensures AddAll(e, batches, limit, configured, summarise) == e.(messages := e.messages + Flatten(batches))
    decreases |batches|
  {
    if batches != [] {
      var e' := SaveSummaryStep(e, batches[0], limit, false, configured, summarise).entry;
      if configured {
        assert !Succeeds(summarise(SummaryInput(e, e.messages + batches[0])));
      }
      assert e' == e.(messages := e.messages + batches[0]);
      NoTurnLost(e', batches[1..], limit, configured, summarise);
      assert e.messages + batches[0] + Flatten(batches[1..]) == e.messages + Flatten(batches);
    }
  }

  /**
   * A run of `addMessages` calls that stays below the limit only appends,
   * whatever the summariser would answer.
   */
  lemma {:induction false} BelowLimitAccumulates(e: Entry, batches: seq<seq<Turn>>, limit: int,
                                                 configured: bool, summarise: Summariser)
    requires |e.messages| + |Flatten(batches)| < limit
    ensures AddAll(e, batches, limit, configured, summarise) == e.(messages := e.messages + Flatten(batches))
    decreases |batches|
  {
    if batches != [] {
      var e' := SaveSummaryStep(e, batches[0], limit, false, configured, summarise).entry;
      assert |e.messages + batches[0]| < limit;
      assert e' == e.(messages := e.messages + batches[0]);
      assert |e'.messages| + |Flatten(batches[1..])| == |e.messages| + |Flatten(batches)|;
      BelowLimitAccumulates(e', batches[1..], limit, configured, summarise);
      assert e.messages + batches[0] + Flatten(batches[1..]) == e.messages + Flatten(batches);
    }
  }

  /** Below the limit, the view after a run is the view before it followed by the new turns. */
  lemma BelowLimitView(e: Entry, batches: seq<seq<Turn>>, limit: int, configured: bool, summarise: Summariser)
    requires |e.messages| + |Flatten(batches)| < limit
    ensures View(AddAll(e, batches, limit, configured, summarise)) == View(e) + Flatten(batches)
  {
    BelowLimitAccumulates(e, batches, limit, configured, summarise);
    ViewAppend(e, Flatten(batches));
  }

  /** Appending pending turns appends them to the view. */
  lemma ViewAppend(e: Entry, turns: seq<Turn>)
    ensures View(e.(messages := e.messages + turns)) == View(e) + turns
  {
  }

  /**
   * The view is a fresh sequence: zero, one or two leading system turns (the
   * summary's before the mimic's, each only when present), then every pending
   * turn in order.
   */
  lemma ViewShape(e: Entry)
    ensures var v := View(e);
            var extra := (if Present(e.summary) then 1 else 0) + (if Present(e.mimic) then 1 else 0);
            && |v| == extra + |e.messages|
            && v[extra..] == e.messages
            && (forall i :: 0 <= i < extra ==> v[i].role == System)
            && (Present(e.summary) ==> v[0] == Turn(System, ContextSummary + e.summary.value))
            && (Present(e.mimic) ==> v[extra - 1] == Turn(System, MimicIntro + e.mimic.value + MimicOutro))
  {
  }

  /**
   * With a limit of 2: "hi" from the user is only stored; "hello" from the
   * assistant reaches the limit, both turns go to the summariser, and on
   * success the view holds just the summary turn.
   */
  lemma LimitOfTwo(summarise: Summariser, content: string)
    requires content != ""
    requires summarise([Turn(User, "hi"), Turn(Assistant, "hello")]) == Summary(Some(content), None)
    ensures var e0 := NewEntry(None);
            var out1 := SaveSummaryStep(e0, [Turn(User, "hi")], 2, false, true, summarise);
            var out2 := SaveSummaryStep(out1.entry, [Turn(Assistant, "hello")], 2, false, true, summarise);
            && out1.request.None? && out1.entry.messages == [Turn(User, "hi")]
            && out2.request == Some([Turn(User, "hi"), Turn(Assistant, "hello")])
            && View(out2.entry) == [Turn(System, ContextSummary + content)]
  {
    var e0 := NewEntry(None);
    assert e0.messages + [Turn(User, "hi")] == [Turn(User, "hi")];
    assert [Turn(User, "hi")] + [Turn(Assistant, "hello")] == [Turn(User, "hi"), Turn(Assistant, "hello")];
  }

  /** The Message table: at most one row per guild. */
  class MessageTable {
    var rows: map<GuildId, Row>

    constructor (rows: map<GuildId, Row>)
      ensures this.rows == rows
    {
      this.rows := rows;
    }

    /** `findOne` by guild: the row if there is one; `fails` says whether the query throws. */
    method FindOne(g: GuildId, fails: bool) returns (row: Option<Row>, threw: bool)
      ensures threw == fails
      ensures threw ==> row.None?
      ensures !threw ==> (row.Some? <==> g in rows) && (row.Some? ==> row.value == rows[g])
    {
      threw := fails;
      if fails || g !in rows {
        row := None;
      } else {
        row := Some(rows[g]);
      }
    }

    /** `upsert`: inserts or replaces the guild's row unless the statement fails. */
    method Upsert(g: GuildId, row: Row, fails: bool) returns (threw: bool)
      modifies this
      ensures threw == fails
      ensures rows == if fails then old(rows) else old(rows)[g := row]
    {
      threw := fails;
      if !fails {
        rows := rows[g := row];
      }
    }
  }

  class MessageService {
    const table: MessageTable
    /** Whether a text-generation client was supplied. */
    const configured: bool
    const maxMessageLimit: int
    const mutex: Mutex
    var cache: map<GuildId, Entry>

    /** Between calls nobody holds or waits for the service's mutex. */
    ghost predicate Valid()
      reads this, mutex
    {
      mutex.Valid() && !mutex.locked
    }

    constructor (table: MessageTable, configured: bool, maxMessageLimit: int)
      ensures Valid() && fresh(mutex)
      ensures this.table == table && this.configured == configured && this.maxMessageLimit == maxMessageLimit
      ensures cache == map[]
    {
      this.table := table;
      this.configured := configured;
      this.maxMessageLimit := maxMessageLimit;
      cache := map[];
      mutex := new Mutex();
    }

    /**
     * The guild's entry, created on first access from the stored row (or
     * empty when there is none or the lookup throws) and reused afterwards
     * without reloading.
     */
    method GetMessageData(g: GuildId, lookupFails: bool) returns (e: Entry)
      modifies this
      ensures e == Resident(old(cache), table.rows, g, lookupFails)
      ensures cache == old(cache)[g := e]
      ensures g !in old(cache) ==> e.messages == []
      ensures g in old(cache) ==> cache == old(cache)
    {
      if g !in cache {
        var row, threw := table.FindOne(g, lookupFails);
        cache := cache[g := NewEntry(row)];
      }
      e := cache[g];
    }

    /** The guild's history as the text-generation service should see it, without taking the lock. */
    method GetMessages(g: GuildId, lookupFails: bool) returns (view: seq<Turn>)
      modifies this
      ensures cache == old(cache)[g := Resident(old(cache), table.rows, g, lookupFails)]
      ensures view == View(cache[g])
    {
      var e := GetMessageData(g, lookupFails);
      view := View(e);
    }

    /** Appends the turns and summarises when due; runs with the mutex held. */
    method SaveSummary(g: GuildId, turns: seq<Turn>, force: bool, summarise: Summariser,
                       lookupFails: bool, upsertFails: bool)
      requires mutex.locked
      modifies this, table
      ensures var out := SaveSummaryStep(Resident(old(cache), old(table.rows), g, lookupFails),
                                         turns, maxMessageLimit, force, configured, summarise);
              && cache == old(cache)[g := out.entry]
              && table.rows == if out.upsert.Some? && !upsertFails
                               then old(table.rows)[g := out.upsert.value] else old(table.rows)
    {
      var e := GetMessageData(g, lookupFails);
      ghost var out := SaveSummaryStep(e, turns, maxMessageLimit, force, configured, summarise);
      var combined := e.messages + turns;
      if |combined| > 0 && (|combined| >= maxMessageLimit || force) {
        var input := if Present(e.summary) then [Turn(System, PreviousSummary + e.summary.value)] + combined
                     else combined;
        var reply := GetSummary(configured, summarise, input);
        if reply.NoSummary? {
          cache := cache[g := e.(messages := combined)];
        } else if reply.Failed? || !Present(reply.content) {
          cache := cache[g := e.(messages := combined)];
        } else {
          cache := cache[g := Entry([], reply.content, reply.mimic)];
          var threw := table.Upsert(g, Row(reply.content.value, reply.mimic), upsertFails);
        }
      } else {
        cache := cache[g := e.(messages := combined)];
      }
    }

    /**
     * Takes the mutex, saves the turns (summarising when due) and releases
     * the mutex again, so the mutex is free afterwards.
     */
    method AddMessages(caller: WaiterId, g: GuildId, turns: seq<Turn>, summarise: Summariser,
                       lookupFails: bool, upsertFails: bool)
      requires Valid()
      modifies this, table, mutex
      ensures Valid() && mutex.State() == old(mutex.State())
      ensures var out := SaveSummaryStep(Resident(old(cache), old(table.rows), g, lookupFails),
                                         turns, maxMessageLimit, false, configured, summarise);
              && cache == old(cache)[g := out.entry]
              && table.rows == if out.upsert.Some? && !upsertFails
                               then old(table.rows)[g := out.upsert.value] else old(table.rows)
    {
      var granted := mutex.Lock(caller);
      assert granted && mutex.locked;
      SaveSummary(g, turns, false, summarise, lookupFails, upsertFails);
      var next := mutex.Release();
    }
  }
}
