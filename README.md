# Conversation memory, FIFO mutex and text helpers of the Amano chat bot

This Dafny project models the core of a Discord bot that answers in character
and keeps short-term memory per guild.

- **Message service** (`Conversation`, message_service.dfy). For each guild it
  caches the pending turns, a summary of older turns, and an optional "mimic"
  style instruction. `addMessages` takes the service's mutex and appends the
  new turns. When the combined list is non-empty and reaches
  `maxMessageLimit` (or a summary is forced), it asks the text-generation
  service for `{content, mimic}`. On success the pending turns are cleared,
  the summary and mimic are replaced, and the row is upserted into the
  Message table. On any failure every turn is kept. `getMessages` returns a
  fresh view: the summary turn, then the mimic turn, then the pending turns.
  The pure functions `SaveSummaryStep`, `View` and `AddAll` state what one
  call and a run of calls do to an entry. The classes `MessageTable` and
  `MessageService` hold the state the program updates in place.
- **Mutex** (`Mutexes`, mutex.dfy). A `locked` flag and a FIFO queue of
  waiters, each waiter identified by an id. The class `Mutex` updates both
  fields in place. The pure step functions and `Run` describe whole call
  sequences; over these the FIFO order and mutual exclusion are proved.
- **Hex decoding and the signature header** (`Hex`, hex.dfy). `hexToBytes`
  is a loop that fills a byte array; it is proved against a recursive
  decoder. The split of `sha256=<hex>` on `'='` is a pure function.
- **Swear checks** (`SwearPatterns`, swear_patterns.dfy, and `SwearWords`,
  swear_words.dfy). The first tokenises the message and applies patterns to
  each word. The second searches the message for listed swears as
  substrings. The pattern list, the test a pattern applies and the swear list
  are parameters.
- **Registries** (`Services`, services.dfy, and `Replies`, replies.dfy). The
  dependency-injection container and the canned-reply collection, each a map
  field updated in place.
- Shared helpers: `Optional` (absent-or-present values, map lookup) and
  `Text` (ASCII whitespace, lower-casing, `trim`).

The text-generation service is an oracle `Summariser = seq<Turn> -> Reply`,
where `Reply = NoSummary | Failed | Summary(content, mimic)`. `NoSummary` is
the `null` answer. `Failed` stands for a failed request or unparsable JSON.
The `configured` flag says whether a client was supplied. Whether the table's
`findOne` or `upsert` throws is a boolean parameter of each call.

The model follows the code in these points:
- A successful summary overwrites the mimic with the returned value, even
  when that value is absent. It does not keep the previous mimic
  (src/services/messageService.js:273).
- Summarising also needs the combined list to be non-empty, so forcing with
  nothing pending changes nothing (src/services/messageService.js:253).
- "Present" means JavaScript truthiness: an empty summary or mimic string
  counts as absent, both in the view and in the summariser input.
- The code has no flush-all-on-shutdown routine and no cache capacity of its
  own beyond the LRU library's option; see "Left out".

## Model

| member | source | states |
|---|---|---|
| `Conversation.NewEntry` | src/services/messageService.js:176-192 | A new entry has no pending turns. It has a summary exactly when a row was found, and then takes the row's content and mimic; without a row the mimic is absent too. |
| `Conversation.Resident` | src/services/messageService.js:174-201 | A cached guild gets its cached entry. Otherwise the entry is new, with the stored row's summary and mimic when the lookup succeeds and finds a row, and with none when it throws or finds nothing. |
| `Conversation.GetSummary` | src/services/messageService.js:109-112 | Without a configured client the answer is always the `null` reply; with one it is the service's answer for the given turns. |
| `Conversation.SaveSummaryStep` | src/services/messageService.js:248-290 | The summariser is asked exactly when the combined turns are due. A row is upserted only after a request, and then the pending turns are empty and the entry's summary and mimic are the upserted content (non-empty) and mimic. When nothing is upserted, the new turns are only appended to the entry. |
| `Conversation.View` | src/services/messageService.js:212-234 | The view ends with all pending turns in order, and it adds a leading turn exactly when a summary or a mimic is present. |
| `Conversation.SummariserCalledOnlyWhenDue` | src/services/messageService.js:251-258 | `getSummary` is called exactly when the combined turns are non-empty and reach the limit or summarising is forced. Its input is the "Previous summary: " system turn followed by the combined turns when a summary is present, and the combined turns alone otherwise. When it is not called, the turns are only appended and nothing is stored. |
| `Conversation.ForceWithNothingPending` | src/services/messageService.js:251-253 | Forcing with no pending and no new turns leaves the entry unchanged and calls nothing. |
| `Conversation.UnconfiguredAccumulates` | src/services/messageService.js:258-263 | With no client configured, the turns are appended, summary and mimic stay, and nothing is stored. |
| `Conversation.SuccessReplaces` | src/services/messageService.js:266-277 | A reply with non-empty content clears the pending turns, sets the summary to the content and the mimic to the returned mimic (absent included), and upserts the same content and mimic. |
| `Conversation.FailureKeepsTurns` | src/services/messageService.js:266-285 | A failed request, or a reply without content, keeps all combined turns, leaves summary and mimic unchanged, and stores nothing. |
| `Conversation.AllOrNothing` | src/services/messageService.js:253-289 | Every call either only appends the turns, or summarises successfully: then the pending list is empty, the summary is non-empty, and exactly the new summary and mimic are upserted. |
| `Conversation.PendingBelowLimit` | src/services/messageService.js:253-288 | With a limit of at least 1 and a summariser that always succeeds, one call leaves fewer pending turns than the limit. |
| `Conversation.PendingStaysBelowLimit` | src/services/messageService.js:248-290 | The same bound holds after any run of `addMessages` calls. |
| `Conversation.NoTurnLost` | src/services/messageService.js:281-288 | When no summary is ever produced (no client, or every request fails), a run of calls keeps every turn in call order and leaves summary and mimic untouched. |
| `Conversation.BelowLimitAccumulates` | src/services/messageService.js:251-253 | A run of `addMessages` calls whose pending and new turns stay below the limit only appends them, in call order, whatever the summariser would answer. |
| `Conversation.BelowLimitView` | src/services/messageService.js:212-253 | For such a run, the view afterwards is the view before followed by all the new turns. |
| `Conversation.ViewAppend` | src/services/messageService.js:212-234 | Appending pending turns to an entry appends the same turns to its view. |
| `Conversation.ViewShape` | src/services/messageService.js:212-234 | The view is the summary turn (if present), then the mimic turn (if present), then all pending turns in order. Its length is the pending count plus the number of those turns. |
| `Conversation.LimitOfTwo` | src/services/messageService.js:248-290 | With limit 2, a first turn is only stored. A second turn sends both turns to the summariser, and on success the view holds just the summary turn. |
| `Conversation.MessageTable.FindOne` | src/services/messageService.js:184-192 | The lookup yields the guild's row if there is one, and no row when the query throws. |
| `Conversation.MessageTable.Upsert` | src/services/messageService.js:275-280 | The upsert inserts or replaces the guild's row. When it throws, the table is unchanged. |
| `Conversation.MessageService.constructor` | src/services/messageService.js:58-64 | A new service has an empty cache and a free mutex of its own. |
| `Conversation.MessageService.GetMessageData` | src/services/messageService.js:174-202 | The entry is created once, on first access, with no pending turns and the stored summary and mimic (absent when there is no row or the lookup throws). Later accesses return it unchanged, without reloading. |
| `Conversation.MessageService.GetMessages` | src/services/messageService.js:212-234 | Returns the view of the guild's entry; the only state change is creating the entry on first access. |
| `Conversation.MessageService.SaveSummary` | src/services/messageService.js:248-290 | Runs with the mutex held. It replaces only this guild's cache entry, by the outcome of `SaveSummaryStep`, and upserts the row exactly when a summary succeeded and the upsert does not throw. |
| `Conversation.MessageService.AddMessages` | src/services/messageService.js:87-98 | Takes the mutex, which is granted at once because it is free between calls. Then it performs `SaveSummary` without forcing and releases the mutex, leaving it free with nobody waiting. |
| `Mutexes.Mutex.constructor` | src/util/mutex.js:26-29 | A new mutex is unlocked with an empty queue. |
| `Mutexes.Mutex.Lock` | src/util/mutex.js:47-56 | On a free mutex, the caller is granted at once, `locked` becomes true and the queue is unchanged. On a locked mutex, the caller is appended to the queue and `locked` stays true. |
| `Mutexes.Mutex.Release` | src/util/mutex.js:65-72 | With waiters, the head waiter is removed and handed the lock, and `locked` stays true. Without waiters, the mutex becomes free; on a free mutex this changes nothing. |
| `Mutexes.StepKeepsInv` | src/util/mutex.js:47-72 | Every call keeps the invariant that a non-empty queue implies `locked`. |
| `Mutexes.RunKeepsInv` | src/util/mutex.js:47-72 | The invariant holds after any sequence of calls. |
| `Mutexes.StepAccounting` | src/util/mutex.js:49-53 | One call: the earlier waiters followed by the new caller are the caller let in followed by the new waiters. |
| `Mutexes.QueueAccounting` | src/util/mutex.js:47-72 | Over any call sequence, the waiters at the start followed by the `lock` callers equal the callers let in (in order) followed by the remaining queue. |
| `Mutexes.Fifo` | src/util/mutex.js:49-68 | From a fresh mutex, callers are let in exactly in the order they called `lock`, and the rest wait in that order; nobody is skipped. |
| `Mutexes.HoldAccounting` | src/util/mutex.js:47-72 | Callers let in minus holds ended changes in step with the `locked` flag. |
| `Mutexes.MutualExclusion` | src/util/mutex.js:47-72 | From a fresh mutex, callers let in minus holds ended is 1 when locked and 0 when free, so at most one caller holds the lock. |
| `Hex.DigitValue` | app_listener/src/util/util.js:14 | A hex digit of either case has a value below 16. |
| `Hex.Decode` | app_listener/src/util/util.js:8-9 | An even-length hex text decodes to half as many bytes. |
| `Hex.DecodeAt` | app_listener/src/util/util.js:12-16 | Byte k is 16 times the value of digit 2k plus the value of digit 2k+1, so it is at most 0xff. |
| `Hex.HexToBytes` | app_listener/src/util/util.js:7-20 | The loop fills a new array of length `hex.length / 2` with exactly the decoded bytes. |
| `Hex.DecodeEmpty` | app_listener/src/util/util.js:8-19 | The empty text decodes to no bytes. |
| `Hex.DecodeEncode` | app_listener/src/util/util.js:7-20 | Decoding the two-digit hex encoding of any byte sequence gives that sequence back. |
| `Hex.DecodeAppend` | app_listener/src/util/util.js:7-20 | Decoding distributes over the concatenation of even-length hex texts. |
| `Hex.DecodeIgnoresCase` | app_listener/src/util/util.js:14 | Upper- and lower-case digits decode identically. |
| `Hex.Split` | app_listener/src/util/util.js:23 | Splitting on a separator gives at least one piece, and no piece contains the separator. There is more than one piece exactly when the text contains the separator. |
| `Hex.JoinSplit` | app_listener/src/util/util.js:23 | Joining the pieces with the separator gives back the header. |
| `Hex.SplitAtFirst` | app_listener/src/util/util.js:23 | The text before the first separator is the first piece. |
| `Hex.SignatureOfHeader` | app_listener/src/util/util.js:23-24 | For `sha256=` followed by `h` with no `'='` in `h`, the extracted signature is `h`. |
| `Hex.NoSignatureWithoutSeparator` | app_listener/src/util/util.js:23-24 | A header without `'='` has no second piece, so the signature is absent. |
| `Hex.SignatureHex` | app_listener/src/util/util.js:23-24 | `parts[1]` of the header exists exactly when the header contains `'='`, and it contains no `'='` itself. |
| `Text.Lower` | src/util/util.js:32 | Lower-casing keeps the length and maps each ASCII capital to its small letter. |
| `Text.Trim` | src/util/util.js:31 | The result is a contiguous slice of the text, and only whitespace lies before and after it. When it is non-empty, it neither starts nor ends with whitespace. |
| `Text.TrimIgnoresOuterSpace` | src/util/util.js:31 | Trimming ignores leading and trailing whitespace. |
| `Text.TrimLower` | src/util/util.js:31-32 | Trimming and lower-casing commute. |
| `SwearPatterns.Words` | src/util/util.js:30-36 | Every word is non-empty and contains no whitespace. |
| `SwearPatterns.Tokenise` | src/util/util.js:30-36 | The words of the trimmed, lower-cased message are non-empty and contain no whitespace. |
| `SwearPatterns.WordsOfBlank` | src/util/util.js:33-36 | Whitespace-only text has no words. |
| `SwearPatterns.WordsOfWord` | src/util/util.js:33-36 | A non-empty run without whitespace is a single word. |
| `SwearPatterns.WordsSplitAtSpace` | src/util/util.js:33-36 | A whitespace character separates the words: the words of `a + [c] + b` are those of `a` followed by those of `b`. |
| `SwearPatterns.MatchesAny` | src/util/util.js:39-44 | The inner loop is true iff some pattern accepts the word. |
| `SwearPatterns.AnyWordMatches` | src/util/util.js:38-47 | The nested loop is true iff some pattern accepts some word. |
| `SwearPatterns.HasSwear` | src/util/util.js:28-48 | `hasSwear` is true iff some pattern accepts some word of the trimmed, lower-cased message. |
| `SwearPatterns.BlankHasNoSwear` | src/util/util.js:30-47 | An empty or whitespace-only message gives false. |
| `SwearPatterns.IgnoresCase` | src/util/util.js:32 | A message and its lower-cased form give the same answer. |
| `SwearPatterns.IgnoresOuterSpace` | src/util/util.js:31-33 | Leading and trailing whitespace do not change the answer. |
| `SwearPatterns.MorePatterns` | src/util/util.js:39-43 | A list holding all the patterns of another finds every swear the other finds. |
| `SwearWords.Includes` | src/util/message/util.js:9 | `includes` is true iff the needle occurs at some position of the text. |
| `SwearWords.AnyIncluded` | src/util/message/util.js:8-12 | The loop is true iff some listed swear occurs in the text. |
| `SwearWords.HasSwear` | src/util/message/util.js:6-15 | `hasSwear` is true iff some listed swear is a substring of the trimmed, lower-cased message. |
| `SwearWords.NoSwearsNoMatch` | src/util/message/util.js:8-14 | An empty swear list gives false for every message. |
| `SwearWords.EmptySwearMatchesAll` | src/util/message/util.js:9 | A list containing the empty text gives true for every message. |
| `SwearWords.OrderIrrelevant` | src/util/message/util.js:8-14 | Two lists holding the same swears, in any order, give the same answer. |
| `SwearWords.IgnoresCase` | src/util/message/util.js:7 | A message and its lower-cased form give the same answer. |
| `SwearWords.IgnoresOuterSpace` | src/util/message/util.js:7 | Leading and trailing whitespace do not change the answer. |
| `Optional.Get` | src/services/serviceContainer.js:45-47 | Map lookup gives the stored value when the key is present, and absent (`undefined`) otherwise. |
| `Services.ServiceContainer.constructor` | src/services/serviceContainer.js:20-22 | A new container resolves every name to absent. |
| `Services.ServiceContainer.Register` | src/services/serviceContainer.js:33-35 | Registering sets the instance for the name, replacing an earlier one, and leaves every other name as it was. |
| `Services.ServiceContainer.Resolve` | src/services/serviceContainer.js:45-47 | Resolve gives the registered instance, or absent when none is registered. |
| `Services.ResolveAfterRegister` | src/services/serviceContainer.js:33-47 | Resolving a name right after registering `x` under it gives `x`; other names resolve as before. |
| `Replies.ReplyCollection.constructor` | src/util/replies.js:3 | The collection starts empty. |
| `Replies.ReplyCollection.AddReply` | src/util/replies.js:5-7 | `addReply` sets the reply for the text, overwriting an earlier one, and leaves other texts unchanged. |
| `Replies.ReplyCollection.GetReply` | src/util/replies.js:9-11 | `getReply` gives the stored reply, or absent for a text never added. |
| `Replies.ReplyCollection.HasReply` | src/util/replies.js:13-15 | `hasReply` is true iff the text has a reply. |
| `Replies.AddAll` | src/util/replies.js:5-7 | After a run of `addReply` calls, a text has a reply exactly when it had one before or the run added it. |
| `Replies.LastAdded` | src/util/replies.js:5-7 | A run of `addReply` calls has a last reply for a text exactly when it added that text. That reply was added for the text at a position after which the text is never added again. |
| `Replies.AddedTexts` | src/util/replies.js:5-15 | After a run of `addReply` calls, a text's reply is the one added for it last, or its earlier reply when the text was not added. Starting from empty, `hasReply` is true exactly for the texts added. |

## Left out

- The request to the text-generation service, its prompt text and the `JSON.parse` of its answer (src/services/messageService.js:114-162). Together they are the oracle `Summariser`. A non-string `content` field is not distinguished from a missing one.
- The LRU cache library (src/services/messageService.js:61). The cache is an unbounded map, so its 500-entry bound and its eviction order are not modelled. The library is not part of this model.
- Promises and task interleaving. The service is modelled one call at a time: its mutex is free between calls, and `AddMessages` is granted the lock at once. Waiting callers and the lock-free reads of `getMessages` that may run during a summary are not modelled. The mutex alone is modelled with waiting callers, over waiter ids.
- Conversation.MessageService.AddMessages: does not model the rethrow path, because `saveSummary` catches every error of `getSummary` and of the upsert, and `getMessageData` catches the lookup error, so no error reaches it.
- Cache entries are values in a map, not shared objects. `getMessageData` hands out a reference that `saveSummary` mutates; only the cache holds it, so the difference is not observable in a one-call-at-a-time model.
- A flush of every guild on shutdown. No such routine exists in the code, and src/index.js:39-47 only destroys the client. The `force` flag of `saveSummary` is modelled.
- Logging (`console.error`).
- Conversation.MessageService.GetMessages: builds the view with the pure function `View` instead of pushing turns into an array one by one.
- The HMAC verification through `crypto.subtle`, `runCommand`, the web apps, routers and middleware.
- `hexToBytes` on odd-length or non-hex text. `parseInt` prefix parsing and the coercion of NaN to 0 are not modelled, so the decoder requires valid even-length hex.
- Unicode case mapping, JavaScript's full `\s` class and non-ASCII whitespace. Lower-casing and whitespace are ASCII only. The regular expressions of the swear patterns and the contents of the swear lists are parameters.
- Randomness: `getRandomInt`, `getRandomElement`, `shouldSendMessage`, `getRandomQuote`, the reply-chance roll, and the AI reply, dice and coin commands.
- The ORM wrappers for guilds, users and channels; model definitions, database configuration, loaders and configuration files; the Discord command and event handlers; news scraping, meme fetching and the README generator.
