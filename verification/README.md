# A verified model of the paste server

This project models the parts of a self-hosted paste server whose correctness does not
show from reading one function, and proves what they promise. It covers the syntax
highlighter the pages use (Prism), the storage protocol of pastes under concurrent requests
on SQLite, PostgreSQL and Redis, the per-address rate limiter, the browser's end-to-end
encryption envelope, and the parsers and int64 arithmetic of the configuration.

`dafny verify dfyconfig.toml` checks everything.

## How the model is laid out

**Tokenizer** (`Pieces`, `Grammars`, `TokenLists`, `TokenizerSpec`, `Tokenizer`, `TokenizerMeaning`,
`TokenizerProps`, `TokenizerGreedy`, `TokenizerReach`, `Html`, `HtmlTags`). `TokenLists` is the doubly linked list
with its two sentinels on the heap; a ghost sequence of nodes says what `prev` and `next` must be.
`Tokenizer` is
`matchGrammar` on that list: loops, in-place splices, the recursive re-match and its growing
`reach`. It is proved equal to `TokenizerSpec`, which says the same on sequences of pieces and
carries the invariants: the text is kept, positions are exact, two strings are never neighbours,
the re-match leaves everything up to its Token alone, and all of it terminates.
`TokenizerMeaning` says what a right token list is without mentioning the algorithm: where its Tokens
come from, field by field and at every depth, and what its strings can no longer hold.
`TokenizerProps`, `TokenizerGreedy` and `TokenizerReach` prove that of the result, of every pass, and
of the re-match.
`Html` is `encode` and `stringify`, with an independent reader that drops tags and undoes escapes;
`HtmlTags` is a reader of the tags. The regular-expression engine is an oracle per pattern: given a
text and a start index it returns any in-range substring from there on, and a lookbehind group no
longer than that.

**Pastes on SQL** (`Bytes`, `Ttl`, `SqlMachine`, `SqlInvariant`, `SqlSafety`, `SqlTheorems`,
`SqlServing`, `SqlDeleting`, `SqlRuns`, `SqlEarlyDelete`, `SqlStorage`, `SqlAlone`, `Faults`). One step of `SqlMachine` is one
SQL statement, one clock reading, one cleanup tick, or time passing; handlers are small programs
over these steps, in any number, in any interleaving. A state also remembers who inserted each row
and what became of it. `SqlTheorems` holds for every state any run reaches, `SqlServing` follows one
request among all others to its end, `SqlDeleting` a DELETE to its answer, and `SqlEarlyDelete` shows
what a DELETE that comes too early can do. `SqlStorage` is the code as objects with a mutable table
and a semaphore count; `SqlAlone` ties its contracts to the machine by running one thread of the
machine undisturbed.

**Pastes on Redis** (`RedisMachine`, `RedisSafety`, `RedisServing`, `RedisDeleting`, `RedisRuns`,
`RedisEarlyDelete`, `RedisEarlyFetch`, `RedisStorage`). The same for hashes, where one step is one command or one
MULTI/EXEC and Save is two of them; `RedisEarlyFetch` is about a read that comes too early. Again
with the code as an object.

**Rate limiter** (`LimiterSpec`, `Limiter`). A token bucket per address over real time, the map
of entries, and the cleanup loop.

**Envelope** (`Base64`, `Envelope`). `btoa` and `atob` as in section 4 of RFC 4648, the chunked
conversion, the byte buffer and the decoder.

**Configuration** (`Strings`, `Lists`, `Numbers`, `ExpiryList`, `Quantities`, `Ttl`).

## What the environment is assumed to do

- The clock does not go back. A failed statement has no effect.
- The slug generator does not return to an id whose paste is gone. Two requests may draw the
  same id while it is in use or not yet stored.
- A request is `known` when a 201 had returned its id before it came in. Statements that need this
  say of which requests; all others may name any id at any time. On Redis the statements about an
  id assume it of that id's own DELETEs, and of nothing else unless they say so.
- AES-GCM opens what it sealed (the decryption of section 7 of NIST SP 800-38D undoes the
  encryption), key derivation is a function, and the text codec returns the plaintexts it is
  asked to round-trip.

## Where the code does less than its comments say

- `resolveTTL` bounds the TTL only while the requested seconds fit int64 nanoseconds. From
  9223372037 s on the product wraps; half of the wrapped values are negative and the paste is
  stored without expiry although a maximum is set. `Ttl.ResolvedWithinMax` is the exact
  condition, `Ttl.HugeTtlNeverExpires` the smallest input.
- The protected flag does not guard a paste against a DELETE that came in before a 201 had returned
  the id: it can pass its check and take the live paste. On SQL it can whenever the id was not
  published (`SqlEarlyDelete.PublicationIsExact`); on Redis when it was not published and either no
  Save had passed its gate or one with a protected paste was still between its two transactions
  (`RedisEarlyDelete.PublicationIsExact`), and there it can also leave a published paste without
  its content (`RedisEarlyDelete.EarlyDeleteLosesContent`).
- On Redis a burn paste can reach two readers. A read that came in before the 201 can fall between
  the two transactions of Save: it finds no flags, gets the content, and burns nothing; a reader of
  the published id then gets the paste too (`RedisEarlyFetch.EarlyFetchSharesBurn`).
  `RedisEarlyFetch.PublicationIsExact` says which reads can.
- The tokenizer's `length > text.length` guard fires on the empty text for every grammar that has
  a pattern; on other texts it never fires when matches are not empty
  (`TokenizerProps.BailOutOnlyWhenEmpty`).
- An expiry label that starts with a quote character survives parsing but not a second one
  (`ExpiryList.PrintParse` says exactly which lists come back).

## Model

| member | source | states |
|---|---|---|
| `Grammars.MatchPattern` | web/static/js/prism.js:3 | a match lies in range at or after the start index, and is the substring there, also after the lookbehind is cut off |
| `Grammars.MatchMeans` | web/static/js/prism.js:3 | a match is the engine's, without exactly its first group when the pattern has a lookbehind |
| `TokenLists.TokenList.AddAfter` | web/static/js/prism.js:3 | inserts one node after a given one; the list stays well linked, the pieces gain exactly that one, all other nodes stay |
| `TokenLists.TokenList.RemoveRange` | web/static/js/prism.js:3 | unlinks exactly `n` nodes after a given one, fixes `length`, and keeps the links of the rest |
| `TokenLists.TokenList.constructor` | web/static/js/prism.js:3 | an empty list is two sentinels linked to each other |
| `TokenizerSpec.LookGreedy` | web/static/js/prism.js:3 | a greedy hit is a match of the whole text from the cursor on; the nodes it covers are strings or Tokens whose text encloses the match |
| `TokenizerSpec.LookInside` | web/static/js/prism.js:3 | a non-greedy hit lies within the one string node it was matched in |
| `TokenizerSpec.SpliceKeeps` | web/static/js/prism.js:3 | replacing the covered nodes by before, Token, after keeps the source text, the exactness of lengths and the separation of strings |
| `TokenizerProps.NewTokenWraps` | web/static/js/prism.js:3 | a new Token has the key and alias of its pattern and the length of the match; its content is the match, or a tokenization of it by the inner grammar: pieces that are the match, all justified, nothing of the last pattern left over |
| `TokenizerSpec.Step` | web/static/js/prism.js:3 | one turn of the node loop keeps the invariant and makes progress, and leaves the list before the cursor alone |
| `TokenizerProps.EarlierPatternsRunAgain` | web/static/js/prism.js:3 | a hit that covered several pieces is followed by one pass of each earlier pattern in turn from the new Token to at least the end of what was covered, and hands their reach out; unless they bailed out, every string behind the Token within that reach is done with for the last of them |
| `TokenizerSpec.RunPatterns` | web/static/js/prism.js:3 | running patterns from a node keeps the text and every node before it, and terminates |
| `TokenizerSpec.TokenizeSpec` | web/static/js/prism.js:3 | concatenating the source of the result gives the text, nested content concatenates to what its Token matched, recorded lengths are exact |
| `Tokenizer.SkipNodes` | web/static/js/prism.js:3 | the walk to the node containing the match stops at the specified node and position and never at the tail |
| `Tokenizer.CoverNodes` | web/static/js/prism.js:3 | the covering loop swallows exactly the specified nodes and returns their text |
| `Tokenizer.FindGreedy` | web/static/js/prism.js:3 | the greedy branch on the heap finds what the specification finds |
| `Tokenizer.SpliceNodes` | web/static/js/prism.js:3 | the in-place splice produces the specified pieces and returns the node of the new Token |
| `Tokenizer.RunRematch` | web/static/js/prism.js:3 | the nested call on the heap and its reach agree with the specification; no node up to the new Token changes |
| `Tokenizer.MatchNodes` | web/static/js/prism.js:3 | the node loop of one pattern on the heap has the specified outcome |
| `Tokenizer.MatchPatterns` | web/static/js/prism.js:3 | matchGrammar on the heap has the specified outcome, stops at its cause, and keeps the nodes before its start |
| `Tokenizer.Tokenize` | web/static/js/prism.js:3 | the list algorithm returns what the specification says, nested grammars included |
| `TokenizerProps.TokensJustified` | web/static/js/prism.js:3 | every Token stands where some pattern of the grammar matches exactly its text, with that pattern's key and alias, and content that is the match or, recursively, a justified tokenization of it |
| `TokenizerProps.PieceCovers` | web/static/js/prism.js:3 | each piece stands for the text at its own position |
| `TokenizerProps.PassIsComplete` | web/static/js/prism.js:3 | after a pass of any pattern, from whatever piece and with whatever reach, each string from there on that starts within the final reach is done with: for a greedy pattern it was searched from its own start or that of an earlier one and the next match begins behind it; for any other it has no match or ends where the first match begins in a stretch of the text that starts with it |
| `TokenizerProps.NothingLeftOver` | web/static/js/prism.js:3 | the same of the whole result for the last pattern |
| `TokenizerProps.PatternsInTurn` | web/static/js/prism.js:3 | running the patterns is one pass of each in turn, up to the first that bails out |
| `TokenizerProps.TokenizeMeans` | web/static/js/prism.js:3 | tokenizing yields a tokenization: the text, justified Tokens, nothing left for the last pattern |
| `TokenizerGreedy.OnlyGroupsHide` | web/static/js/prism.js:3 | with an engine that finds leftmost matches, a match searched from the start of such a string begins inside it only if the string lies wholly in the lookbehind group of an earlier match; without lookbehind never |
| `TokenizerReach.PassStaysInside` | web/static/js/prism.js:3 | a pass of a pattern that is not greedy changes nothing that starts at or behind its reach |
| `TokenizerReach.PatternsStayInside` | web/static/js/prism.js:3 | nor do several in turn, and they hand out no further reach |
| `TokenizerProps.BailOutOnlyWhenEmpty` | web/static/js/prism.js:3 | without empty matches the length guard fires exactly on the empty text with a non-empty grammar |
| `Html.Render` | web/static/js/prism.js:3 | stringify with its string accumulator computes the recursive definition |
| `Html.RenderAll` | web/static/js/prism.js:3 | the same for arrays |
| `Html.UnescapeEscape` | web/static/js/prism.js:3 | undoing the two escapes gives the text back with spaces for no-break spaces |
| `Html.HighlightKeepsText` | web/static/js/prism.js:3 | dropping the tags and undoing the escapes in the highlighted HTML gives the text back, for type and alias names without angle brackets |
| `HtmlTags.HighlightTags` | web/static/js/prism.js:3 | the tags of the highlighted HTML are one span per Token, with its type and aliases as classes, around exactly the spans of its content |
| `HtmlTags.HighlightClasses` | web/static/js/prism.js:3 | read by splitting class attributes at spaces, the tags are one span per Token with exactly the classes "token", its type and its aliases, when no name holds a space |
| `Bytes.DecryptEncrypt` | internal/crypto.go:42-89 | Decrypt undoes Encrypt through the nonce framing |
| `Bytes.DecryptMeans` | internal/crypto.go:65-89 | the first twelve bytes are the nonce under which the rest opens, and nothing shorter decrypts |
| `Ttl.SecondsExact` | internal/routes.go:223-232 | the nanosecond product is exact if and only if the count is at most 9223372036 |
| `Ttl.ResolvedWithinMax` | internal/config.go:307-318 | under a positive maximum the resolved TTL is in (0, max] exactly when the low 64 bits of the product leave the sign clear, which holds up to 9223372036 s; a request within the maximum is honoured |
| `Ttl.ResolvedExactly` | internal/config.go:307-318 | without a maximum the TTL is the request, exactly up to 9223372036 s and modulo 2^64 above; with a positive one it is the maximum for a request of zero or of more |
| `Ttl.HugeTtlNeverExpires` | internal/config.go:307-318 | one second above the limit a one-hour maximum is bypassed |
| `Ttl.LivePeriod` | internal/storage.go:318-323 | despite truncation to whole seconds a row is live up to TTL - 1 s and expired from TTL on; on PostgreSQL it is live exactly up to TTL |
| `Ttl.SweptIsExpired` | internal/storage.go:568-571 | what the cleanup deletes, reads already refuse |
| `SqlSafety.NextKeeps` | internal/storage.go:318-442 | every statement, tick and arrival keeps the invariant of the protocol |
| `SqlSafety.RunsKeep` | internal/storage.go:318-442 | so does every run |
| `SqlTheorems.BurnAtMostOnce` | internal/routes.go:411-427 | no interleaving of readers, deleters, savers and cleanups hands a burn paste to two fetches, by either path |
| `SqlTheorems.Conservation` | internal/storage.go:318-442 | inserted rows are the disjoint union of present, burned, deleted and reaped; present rows are as inserted, a burned one went unchanged to one reader, a reaped one had expired |
| `SqlTheorems.RemovalCauses` | internal/routes.go:382-405 | a live row leaves only to the reader it burns for or by a DELETE; a DELETE of a published id never takes a protected one; rows never change in place |
| `SqlTheorems.UploadsAccounted` | internal/routes.go:174-273 | the semaphore equals the number of handlers inside and never exceeds its capacity, at most three Saves are tried, 201 means exactly one new row as asked for, anything else none |
| `SqlTheorems.ReadsReturnWhatWasPosted` | internal/routes.go:158-209 | whatever interleaves, a successful read yields the first MaxPasteSize bytes posted under the id, with or without server-side encryption |
| `SqlTheorems.NeverServedLate` | internal/storage.go:373-404 | no paste is served on a clock reading at or after its deadline |
| `SqlTheorems.LiveUntilDeadline` | internal/storage.go:373-404 | unless burned or deleted, a paste is in the TTL map until one second before its deadline |
| `SqlServing.FetchAnswers` | internal/routes.go:411-427 | a fetch of an inserted paste that has ended, whatever ran beside it, answers with the paste as inserted, or that is gone or expired; its answer rests on a clock reading between its own arrival and now, before the deadline if it serves |
| `SqlServing.ServedUntilDeadline` | internal/storage.go:373-404 | unless deleted or burned for another reader, a paste is served to every fetch that ends by one second before its deadline, and always without a TTL |
| `SqlServing.RequestEnds` | internal/routes.go:154-427 | every request ends, whatever fails and whatever the others do: a fetch within eight steps of its own, a DELETE within four, a POST within ten |
| `SqlServing.PostEnds` | internal/routes.go:174-273 | so every POST is answered after at most three INSERTs, and has given its slot back |
| `SqlDeleting.DeleteAnswers` | internal/routes.go:382-405 | a DELETE that came in after the 201, among any other requests, is refused only with the feature on and the paste protected, fails only if one of its own statements did, and otherwise the row is gone |
| `SqlDeleting.UnprotectedIsDeleted` | internal/routes.go:382-405 | so an unprotected paste is gone after such a DELETE |
| `SqlTheorems.StoredTtlWithinMax` | internal/routes.go:223-232 | in every run a stored TTL is in (0, max] exactly under that arithmetic condition, and is the one asked for when that is within the maximum |
| `SqlTheorems.StoredTtlIsAsked` | internal/routes.go:223-232 | in every run, with or without a maximum, a stored TTL is the requested seconds, none, or the maximum, as the configuration says, up to the int64 limit |
| `SqlTheorems.SweepLeaves` | internal/storage.go:568-571 | a cleanup leaves exactly the rows whose stamp is not strictly past |
| `SqlTheorems.AnswersAreTheView` | internal/storage.go:340-442 | each storage call answers as the TTL map did at one of its own steps |
| `SqlTheorems.StepRefinesTtlMap` | internal/storage.go:340-442 | lazy DELETEs and cleanup ticks do not show in the TTL map; inserts, burns, DELETEs and time do exactly what they say |
| `SqlEarlyDelete.EarlyDeleteTakesProtected` | internal/routes.go:382-405 | from every reachable state with a free slot, on both SQL backends, a DELETE of an id nobody has inserted can be followed by steps in which it takes the live paste of any accepted protected POST |
| `SqlEarlyDelete.PublicationIsExact` | internal/routes.go:382-405 | such steps exist if and only if no 201 had returned the id when the DELETE came in |
| `SqlStorage.Storage.Save` | internal/storage.go:318-338 | inserts with the computed expiry when the id is free, otherwise reports the conflict and changes nothing |
| `SqlStorage.Storage.PeekMeta` | internal/storage.go:340-371 | the live row without its content; an expired one is removed on SQLite |
| `SqlStorage.Storage.Get` | internal/storage.go:373-404 | the live row; an expired one is removed on SQLite |
| `SqlStorage.Storage.Delete` | internal/storage.go:406-409 | afterwards the id is free, and every other row is there exactly as before |
| `SqlStorage.Storage.GetAndDelete` | internal/storage.go:412-442 | returns and removes the live row; leaves an expired one |
| `SqlStorage.Storage.Cleanup` | internal/storage.go:568-571 | a row goes exactly when its stamp is strictly past, and no read at this time or later can tell the table from the one before |
| `SqlStorage.App.FetchPaste` | internal/routes.go:411-427 | with each of its calls reading its own clock and failing or not: when it errs, what it answers (the paste live at the last reading that matters) and what it leaves; no live row goes but a burn paste it answers with |
| `SqlStorage.App.HandleDelete` | internal/routes.go:382-405 | 403 exactly for a live protected paste under the feature, 500 exactly on a failed statement, otherwise the row is gone |
| `SqlStorage.App.HandleCreatePaste` | internal/routes.go:158-191 | the status of every early exit, the slot given back on every path, and the table as specified |
| `SqlStorage.App.Upload` | internal/routes.go:197-273 | the retry loop over drawn ids has the specified status, id and table |
| `SqlStorage.TryingMeans` | internal/routes.go:254-273 | the first draw that is free or fails decides: 201 and exactly one new row, or 500 and none |
| `SqlStorage.RefusalMeans` | internal/routes.go:154-273 | when each status but 201 is answered, and that the table is then as before |
| `SqlStorage.SuccessMeans` | internal/routes.go:197-273 | a POST that is let in and sealed ends in 201 with one new row, under the first free id drawn, with the content, flags and expiry that were asked for, unless a draw fails first or all ids are taken |
| `SqlAlone.FetchAlone` | internal/routes.go:411-427 | the state machine, left alone, does what FetchPaste does, at whatever times its calls run and whichever of them fail |
| `SqlAlone.TakeOnOldReading` | internal/storage.go:412-442 | a take on SQLite answers by the clock reading made before its statement, however late that runs, on PostgreSQL by the statement's own |
| `SqlAlone.LazyDeleteMayFail` | internal/storage.go:340-404 | a failing lazy DELETE is ignored: the request goes on as if it had not, and the expired row stays |
| `SqlAlone.TriesAlone` | internal/routes.go:254-273 | its retry loop does what the loop of Upload does |
| `SqlAlone.PostAlone` | internal/routes.go:154-273 | its POST does what HandleCreatePaste does, down to the slot |
| `SqlAlone.DeleteAlone` | internal/routes.go:382-405 | and its DELETE what HandleDelete does |
| `RedisSafety.HashesComeFromOneSave` | internal/storage.go:931-963 | for an id whose own DELETEs came in after its 201: content, flags and expiry of its hash come from one Save call, even when Saves race; once published it has all of them |
| `RedisSafety.OneSaveWins` | internal/storage.go:931-963 | two Saves of such an id never both succeed |
| `RedisSafety.ReadersSeeWholePastes` | internal/storage.go:966-1016 | a command of a read or DELETE that came in after the 201 finds a whole paste or nothing, never a content-only hash, whatever all other requests do |
| `RedisSafety.SaveIsOneInsert` | internal/storage.go:931-963 | whatever request runs, what there is to see of the id changes as if Save were one atomic insert at its second transaction |
| `RedisSafety.BurnAtMostOnce` | internal/storage.go:1022-1070 | no burn paste reaches two readers that got it with its flags or came in after the 201, and the one gets it as saved |
| `RedisEarlyFetch.EarlyFetchSharesBurn` | internal/storage.go:931-963 | from every reachable state a fetch of an id nobody has saved can be followed by steps after which it holds the content of any given burn paste and a reader of the published id holds the paste |
| `RedisEarlyFetch.PublicationIsExact` | internal/routes.go:411-427 | when every earlier fetch and DELETE of the id came in after its 201, a newly arriving fetch can end up sharing a burn paste if and only if the id is not published and no Save, or one of a burn paste, has passed its gate |
| `RedisServing.FetchAnswers` | internal/routes.go:411-427 | a fetch that came in after the 201, among any other requests, once ended answers with the paste as saved, or somebody else took that, or it expired in the last second of its TTL or later |
| `RedisServing.ServedUntilDeadline` | internal/storage.go:991-1016 | unless taken by somebody else, a published paste is served to every such fetch that ends by a second before its TTL is over, and always without a TTL |
| `RedisServing.NeverServedLate` | internal/storage.go:931-963 | once the TTL of a paste, counted from the second transaction and as a second at least, is over, no fetch is answered with it, however early that came in |
| `RedisServing.RequestEnds` | internal/routes.go:254-427 | a fetch ends within three steps of its own, a Save and a DELETE within two, whatever fails and whatever the others do |
| `RedisServing.TimeOnlyExpires` | internal/storage.go:931-963 | time takes a paste from view in the last second of its TTL, or after a second when that is shorter, and does nothing else |
| `RedisSafety.ReadsReturnWhatWasSaved` | internal/storage.go:991-1016 | a read that came in after the 201 and finds a paste answers with content and flags as the winning Save was given them; one that guessed the id gets the same content, at worst without flags |
| `RedisSafety.ReadsOpenToTheBody` | internal/routes.go:430-435 | so with server-side encryption it decrypts to the body that was sealed |
| `RedisSafety.ProtectedStays` | internal/routes.go:382-405 | a DELETE past its guard meets a protected paste only when that is gone or expired |
| `RedisDeleting.DeleteAnswers` | internal/routes.go:382-405 | a DELETE that came in after the 201, among any other requests, is refused only with the feature on and the paste protected, fails only if one of its own commands did, and otherwise the key is gone |
| `RedisDeleting.UnprotectedIsDeleted` | internal/routes.go:382-405 | so an unprotected paste is gone after such a DELETE |
| `RedisEarlyDelete.EarlyDeleteLosesContent` | internal/storage.go:931-963 | from every reachable state a DELETE of an id nobody has saved can be followed by steps that leave any given paste published without its content |
| `RedisEarlyDelete.DeleteBetweenLosesContent` | internal/storage.go:931-963 | and so can one that comes in while a Save is between its transactions |
| `RedisEarlyDelete.EarlyDeleteTakesPaste` | internal/routes.go:382-405 | the same for taking any live published paste, protected or not |
| `RedisEarlyDelete.PublicationIsExact` | internal/routes.go:382-405 | for every id, a newly arriving DELETE can take a live protected paste if and only if the id is not published, and no Save has passed its gate yet or one with a protected paste waits there for its second transaction |
| `RedisStorage.Storage.Save` | internal/storage.go:931-963 | conflict exactly when the id has live content, the content gate and then the other fields and the expiry, and what is left when either transaction fails |
| `RedisMachine.DeadlineMeans` | internal/storage.go:958-960 | the expiry is the TTL cut to whole seconds and never less than one, none without a TTL |
| `RedisStorage.Storage.PeekMeta` | internal/storage.go:966-987 | there is an answer exactly when the key is there, not expired and has flags, and then it is those flags |
| `RedisStorage.Storage.Get` | internal/storage.go:991-1016 | the live content, with missing flags read as false |
| `RedisStorage.Storage.Delete` | internal/storage.go:1018-1020 | afterwards the key is absent, and every other key is there exactly as before |
| `RedisStorage.Storage.GetAndDelete` | internal/storage.go:1022-1070 | returns the live paste and removes the key |
| `RedisStorage.Storage.FetchPaste` | internal/routes.go:411-427 | when a fetch errs, what it answers and what it leaves, on any hashes, partial ones included, whichever of its calls fail |
| `RedisStorage.FetchMeans` | internal/routes.go:411-427 | on hashes as Save leaves them a fetch that does not fail answers with the live paste, removes a burn paste it answers with and leaves every other live key alone; one that fails leaves everything |
| `RedisStorage.SavedIsWhole` | internal/storage.go:931-963 | a Save of a free id leaves the whole paste, expiring with its TTL cut to whole seconds and never less than one, and changes no other key |
| `RedisStorage.SaveAlone` | internal/storage.go:931-963 | the state machine, left alone, saves as Save does, id taken or not and whichever transaction fails |
| `RedisStorage.FetchAlone` | internal/routes.go:411-427 | and fetches as FetchPaste does, at whatever times its calls run and whichever of them fail |
| `LimiterSpec.SameAnswers` | internal/middleware.go:150-180 | from like states, evicting and not evicting give the same answers on every schedule when a bucket refills within the idle time |
| `LimiterSpec.EvictionUnobservable` | main.go:49-56 | with the server's own parameters eviction changes no answer on any schedule |
| `LimiterSpec.SlowRefillShows` | internal/middleware.go:162-180 | with a slower refill a concrete schedule gets one answer that depends on the eviction |
| `LimiterSpec.UnobservableIffRefills` | internal/middleware.go:150-180 | eviction is unobservable on every schedule if and only if burst <= rate * ttl |
| `LimiterSpec.FreshBurst` | main.go:49-56 | an address without an entry gets exactly as many requests through at once as there are upload slots |
| `Limiter.IpRateLimiter.Allow` | internal/middleware.go:241-250 | get and Allow on the map of entries answer and change it as specified |
| `Limiter.IpRateLimiter.Cleanup` | internal/middleware.go:162-180 | the loop deletes exactly the entries last seen before the cutoff |
| `Limiter.SpentWasGained` | internal/middleware.go:150-180 | requests let through are paid for by the level at the start and what was refilled since |
| `Limiter.RateBound` | internal/middleware.go:241-250 | in any window of any schedule, evictions included, one address gets at most as many requests through as there are upload slots, and half as many, at least one, for every second |
| `Limiter.IdleEntry` | internal/middleware.go:162-180 | an unused entry stays as it is exactly until a tick more than ttl after its last use |
| `Limiter.IdleGone` | internal/middleware.go:162-180 | with a ticker of ttl/2 it is gone within 1.5 ttl |
| `Limiter.BusyStays` | internal/middleware.go:150-180 | an entry used at gaps of at most ttl is never evicted |
| `Base64.SextetsAreNumeral` | web/static/js/custom.js:107-114 | the four digits of a group are the base-64 numeral of its 24 bits |
| `Base64.AtobUndoesBtoa` | web/static/js/custom.js:107-114 | decoding undoes encoding on every byte string, in all padding cases |
| `Base64.BtoaIsPadded` | web/static/js/custom.js:107-114 | the text has four characters for every three bytes, begun ones too, and as many `=` as the last three lack |
| `Base64.AtobAccepts` | web/static/js/custom.js:190-190 | digits without padding decode, three bytes for every four, exactly unless one digit is left alone |
| `Base64.StrayRefused` | web/static/js/custom.js:190-190 | a character that is no digit, white space or `=` is refused wherever it stands |
| `Base64.DigitIsListed` | web/static/js/custom.js:107-114 | the alphabet is that of Table 1 of RFC 4648 |
| `Base64.SpacesIgnored` | web/static/js/custom.js:190-190 | white space anywhere in the text does not change what is decoded |
| `Envelope.Uint8ToBase64` | web/static/js/custom.js:107-114 | converting in chunks of 8192 equals converting the whole array, for every length, within the argument limit of each call |
| `Envelope.Assemble` | web/static/js/custom.js:166-173 | the three writes tile the buffer: it holds salt, nonce and ciphertext and nothing else |
| `Envelope.AesEncrypt` | web/static/js/custom.js:156-177 | produces the specified envelope |
| `Envelope.AesDecrypt` | web/static/js/custom.js:185-209 | returns the specified plaintext, or null on every failure |
| `Envelope.FramingIsExact` | web/static/js/custom.js:185-209 | under any password the decoder asks for exactly the salt, nonce and ciphertext that were framed, whatever white space surrounds them |
| `Envelope.DecryptUndoesEncrypt` | web/static/js/custom.js:156-209 | decrypting an envelope with its password gives the plaintext back |
| `Envelope.OnlyEnvelopesOpen` | web/static/js/custom.js:185-209 | what opens is, between white space, the prefix and Base64 text whose first 16 bytes are the salt, whose next 12 are the nonce, and whose rest opens under them |
| `Strings.SplitJoin` | internal/config.go:159-159 | splitting undoes joining for pieces without the separator |
| `Strings.TrimDrops` | internal/config.go:148-153 | trimming takes off exactly what was put around a bare text |
| `Numbers.ParseShow` | internal/config.go:178-178 | parsing a printed number gives it back below 2^63 and clamps with an error from there on |
| `Numbers.ParseSigned` | internal/config.go:178-178 | with a sign the same, down to -2^63 |
| `Numbers.ParsedIsPlain` | internal/config.go:178-178 | only a sign and digits ever parse |
| `Lists.FlatMapPicks` | internal/config.go:159-187 | a skipping loop keeps the order and drops only what gives nothing |
| `ExpiryList.ParseExpiryTimes` | internal/config.go:147-193 | the loop computes the specified list |
| `ExpiryList.ParseEntry` | internal/config.go:170-186 | and its body the option of one entry, or nothing when malformed |
| `ExpiryList.KeptInOrder` | internal/config.go:159-187 | for arbitrary input the list holds in order exactly what the well-formed pieces say; labels are non-empty, bare and free of colons and commas, values non-negative int64 |
| `ExpiryList.OptionRoundTrip` | internal/config.go:170-186 | a printed option comes back if and only if its label stands on its own |
| `ExpiryList.EntrySpaced` | internal/config.go:170-186 | white space around the colon of an entry does not matter |
| `ExpiryList.PrintParse` | internal/config.go:147-193 | parsing a printed list gives it back if and only if every label is non-empty, bare, without comma or colon, does not start with a quote, and every value is a non-negative int64 |
| `ExpiryList.DecimalIsSeconds` | internal/config.go:178-182 | decimal counts are accepted exactly below 2^63 |
| `Quantities.ParseSize` | internal/config.go:259-277 | the loop over the suffixes computes the first-suffix definition |
| `Quantities.SizeExact` | internal/config.go:259-277 | a printed size in any letter case and spacing parses to its byte count if and only if that fits an int64 |
| `Quantities.NoCapture` | internal/config.go:280-304 | no suffix of a duration is captured by another branch |
| `Quantities.DurationExact` | internal/config.go:280-304 | the same for durations in nanoseconds |
| `Quantities.NoDigitsIsZero` | internal/config.go:259-304 | a setting without a digit counts as nothing |

## Left out

- Regular expressions, the language grammars, hooks, plugins and the DOM part of Prism: a pattern
  is an oracle, a grammar a finite tree. `rest` grammars and grammars that contain themselves are not
  part of this model; the `cause` string "name,index" is a pair, and patterns have different ones.
- TokenizerProps.NothingLeftOver: is about the last pattern only; a later pattern may cut a string in
  which an earlier one found nothing, and an oracle may then find something.
- TokenizerReach.PassStaysInside: is about patterns that are not greedy; a greedy one is only asked from
  strings within its reach, and its match may lie behind that.
- Token attributes other than type, alias, content and length.
- Handlers under concurrency are steps of a state machine on values, not methods on a shared heap;
  SqlStorage and RedisStorage have the methods, one call at a time.
- SqlStorage.Storage.Get: a clock reading is a parameter, and a call fails as a whole or not at all
  (parameters of the handlers); the ignored failure of the lazy DELETE is in the machine only.
- RedisSafety.BurnAtMostOnce: leaves out a reader that came in before the 201 and got the content
  without flags, because the code lets it share the paste; RedisEarlyFetch says exactly when.
- RedisServing.FetchAnswers: leaves out a fetch that came in before the 201, and one whose Get or
  GetAndDelete fails.
- The time a Redis read reports as its expiry, PostgreSQL's rounding of timestamps to microseconds,
  and the transport of ids and flags through HTTP.
- SqlMachine.CreateStep: an encryption failure is a nonce of the wrong length; random bytes are inputs.
- Drivers, PRAGMAs, vacuum, checkpoints, migrations, statistics and connection set-up: only the
  effect of each statement on rows and hashes is modelled.
- LimiterSpec.EvictionUnobservable: the bucket is over reals, without the floating point of
  rate.Limiter, and get and Allow are one step.
- Overflow of the expiry time itself, and of clock values: times are unbounded integers.
- Text is a sequence of Unicode characters; lone surrogates, invalid UTF-8 and case mappings outside
  ASCII are not modelled. None of the characters with unusual case mappings is a digit or part of a
  unit.
- Path prefixes, CIDR and client-address parsing, templates, headers, logging, the zombie reaper and
  the front end around the envelope would only add easy members.
