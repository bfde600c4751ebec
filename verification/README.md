# Customer-support chatbot core in Dafny

This project models the decision logic of a Next.js customer-support chatbot:

- **Sentiment classifier.** A keyword-scoring classifier labels the recent conversation as positive, neutral, negative or frustrated.
- **Rate limiter.** A fixed-window limiter with its periodic sweep.
- **Text helpers.** `truncate`, the e-mail check and the order-number extractor.
- **System-prompt composer.** It builds the prompt from a base text, a sentiment addendum and an optional e-mail block.
- **Knowledge-base search.** This covers the semantic path and the keyword fallback.
- **Database operations.** Tickets, orders, conversations and the dashboard window.
- **Chat endpoint.** Message normalisation, the sentiment and prompt for a turn, and the shaping of the four tools' results.

The model is functional. Each piece of state is an explicit value that goes into and comes out of a pure function:

- the rate-limit map;
- the tables;
- the embedded knowledge base.

Inputs from outside the code are passed in as arguments:

- the clock;
- the embedding service's answer;
- the cosine similarity.

The JavaScript built-ins the code relies on are restated once in `JsBuiltins` and shared by every module: ASCII case mapping, `includes`, `split`, `slice`, `filter` and the stable `sort`.

Modules, one per source file:

- `JsBuiltins`: the JavaScript string and array operations.
- `Sentiment`, `RateLimit` and `TextUtils`: lib/utils.ts.
- `Prompts`: lib/ai/prompts.ts.
- `KnowledgeBase`: lib/ai/knowledge-base.ts.
- `Queries`: lib/db/queries.ts, with row shapes from lib/db/schema.ts.
- `ChatRoute`: app/api/chat/route.ts.

The model follows the code, including where it behaves surprisingly:

- **The caps test runs on lower-cased text.** The test means to catch a shouted word: more than three characters, all capitals. But the code lower-cases every message before the test, so only words with no cased letter in them can trigger it: digits, punctuation, emoji, or letters of a caseless script such as Chinese (`!!!!`, `12345`, two emoji, `你好你好`). `Sentiment.CapsTestSeesOnlyCaselessWords` states this, with case mapping restricted to ASCII; `Sentiment.CaselessWordIsShouted` shows the Chinese case.
- **Lengths are UTF-16 code units.** `length` and `slice` count code units, so an emoji counts as two. The caps test and `truncate` are modelled on the UTF-16 encoding (`JsBuiltins.Utf16`).
- **Rate-limit scenario.** With two requests per 1000 ms, the first three requests report `remaining` as 1, 0 and 0, not as "0, 0" (`RateLimit.TwoPerSecondScenario`).
- **The knowledge-base arrays can alias.** When initialisation fails, `embeddedKnowledgeBase` becomes the very array `KNOWLEDGE_BASE`. Entries added afterwards then also reach the keyword fallback. `KnowledgeBase.KbState` records this with an `aliased` flag.

## Model

| member | source | states |
|---|---|---|
| JsBuiltins.ToLower | lib/utils.ts:18 | lower-casing maps each character on its own, leaves no ASCII capital and changes only ASCII capitals |
| JsBuiltins.ToUpper | lib/utils.ts:64 | upper-casing maps each character on its own and leaves no ASCII lower-case letter |
| JsBuiltins.CountChar | lib/utils.ts:62 | the number of `!` matches is at most the length and is zero exactly when the character is absent |
| JsBuiltins.ContainsIff | lib/utils.ts:74 | `includes` holds exactly when the keyword occurs at some index of the text |
| JsBuiltins.Split | lib/utils.ts:63 | `split(' ')` gives at least one piece, no piece holds a space, and every character of a piece comes from the text |
| JsBuiltins.JoinSplit | lib/ai/knowledge-base.ts:143 | joining the pieces of `split` back with the separator restores the text |
| JsBuiltins.SplitJoin | lib/ai/knowledge-base.ts:143 | splitting a join of separator-free pieces gives back the pieces |
| JsBuiltins.SplitAllSeparators | lib/ai/knowledge-base.ts:143 | a text made only of spaces splits into one more empty piece than it has spaces |
| JsBuiltins.SlicePrefix | lib/utils.ts:119 | `slice(0, end)` is a prefix; with a negative end it drops that many elements from the back |
| JsBuiltins.SliceLast | app/api/chat/route.ts:42 | `slice(-count)` keeps the last min(count, n) elements and nothing else; a count of 0 (`-0` is `0`) keeps everything |
| JsBuiltins.Filter | lib/ai/knowledge-base.ts:155 | `filter` keeps exactly the elements satisfying the predicate, in order, as a sub-multiset |
| JsBuiltins.FilterAll | lib/ai/knowledge-base.ts:155 | a filter every element passes returns its input |
| JsBuiltins.FilterNoneOrAll | lib/db/queries.ts:196-205 | a filter keeps nothing exactly when no element passes it, and everything when all do |
| JsBuiltins.FilterNarrower | lib/db/queries.ts:208-216 | a stricter filter keeps no more elements than a looser one |
| JsBuiltins.InsertKeepsDescending | lib/ai/knowledge-base.ts:156 | inserting into a non-increasing ranking keeps it non-increasing |
| JsBuiltins.SortDescending | lib/ai/knowledge-base.ts:135 | the sort permutes its input into non-increasing key order |
| JsBuiltins.SortKeepsElements | lib/ai/knowledge-base.ts:156 | the sort neither adds nor drops elements |
| JsBuiltins.SortEqualKeysIdentity | lib/ai/knowledge-base.ts:156 | when all keys are equal the sort returns its input unchanged |
| JsBuiltins.SortIsStable | lib/ai/knowledge-base.ts:156 | the sort is stable: the elements sharing any one key come out in the order they went in |
| JsBuiltins.InsertStable | lib/ai/knowledge-base.ts:156 | insertion puts the new element in front of the elements with its key and keeps the others in order |
| JsBuiltins.PrefixOutranksRest | lib/ai/knowledge-base.ts:157 | after sorting, the kept prefix outranks every element cut off |
| JsBuiltins.EncodeChar | lib/utils.ts:64 | a character is one code unit, itself, unless it lies outside the Basic Multilingual Plane, when it is a surrogate pair |
| JsBuiltins.Utf16 | lib/utils.ts:64 | a text has between one and two code units per character |
| JsBuiltins.Utf16Append | lib/utils.ts:119 | encoding distributes over concatenation |
| JsBuiltins.Utf16OfBmpText | lib/utils.ts:64 | without astral characters each character is its own code unit |
| JsBuiltins.BmpLength | lib/utils.ts:118 | without astral characters `length` is the character count |
| JsBuiltins.BmpPrefix | lib/utils.ts:119 | without astral characters the first k code units encode the first k characters |
| JsBuiltins.AstralLengthensText | lib/utils.ts:118 | one astral character makes `length` exceed the character count |
| Sentiment.UserTexts | lib/utils.ts:16-18 | the scored texts are empty exactly when no message is from the user with non-empty content |
| Sentiment.Hits | lib/utils.ts:73-81 | each keyword adds at most one hit per message |
| Sentiment.HitsZeroIffNoKeyword | lib/utils.ts:73-81 | a text scores no hit exactly when it contains none of the keywords |
| Sentiment.Decide | lib/utils.ts:90-93 | the fixed decision order: frustrated ≥ 2 wins, then negative > positive, then positive > negative, and a tie is neutral (each direction of each case) |
| Sentiment.AnalyzeSentiment | lib/utils.ts:10-94 | neutral with no counted message; each label holds exactly when its score condition over the counted messages holds |
| Sentiment.HitsAtLeastTwo | lib/utils.ts:79-81 | two different keywords found in one message add two hits |
| Sentiment.ScoreAtLeastHits | lib/utils.ts:72-82 | a message's hits all count toward the total score |
| Sentiment.CountedMessageIsScored | lib/utils.ts:16-18 | every user message with content is scored in lower case |
| Sentiment.LastCountedMessageIsRecent | lib/utils.ts:61 | the boost looks at the last user message with content |
| Sentiment.TwoFrustratedKeywordsWin | lib/utils.ts:79-90 | two frustrated keywords in one user message give `frustrated`, whatever the other scores |
| Sentiment.LowerKeepsExclamations | lib/utils.ts:18-62 | lower-casing keeps the `!` count |
| Sentiment.ExclamationsInLastUserMessageWin | lib/utils.ts:61-90 | two `!` in the last user message give `frustrated` |
| Sentiment.CapsTestSeesOnlyCaselessWords | lib/utils.ts:18-64 | on lower-cased text the caps test fires exactly for a word longer than 3 UTF-16 code units with no (ASCII) cased letter |
| Sentiment.CaselessWordIsShouted | lib/utils.ts:18-64 | four Chinese characters, which have no case, pass the caps test after lower-casing |
| Sentiment.ThanksScoresTwice | lib/utils.ts:23-74 | "thanks" matches both "thank" and "thanks" |
| Sentiment.KeywordSurvivesLowering | lib/utils.ts:18-74 | a lower-case keyword in a text is found after lower-casing |
| Sentiment.RefundComplaintIsFrustrated | lib/utils.ts:52-90 | "This is unacceptable, I want a refund, cancel my order!" is frustrated |
| Sentiment.ShoutInLastUserMessageWins | lib/utils.ts:61-90 | a word passing the caps test in the last user message gives `frustrated`, whatever came before |
| Sentiment.EmojiPairIsShouted | lib/utils.ts:63-64 | two emoji form a word of four code units that upper-casing leaves unchanged |
| Sentiment.TwoEmojiAreShouted | lib/utils.ts:61-90 | the message "ok" followed by two emoji is frustrated |
| RateLimit.CheckRateLimit | lib/utils.ts:214-236 | new or expired (now > resetAt) window: count 1, resetAt now+windowMs, allowed with max-1; full window: denied with 0 and unchanged; else count+1, remaining max-count; other keys untouched |
| RateLimit.Sweep | lib/utils.ts:239-246 | the sweep keeps exactly the windows with now ≤ resetAt, unchanged |
| RateLimit.SweepExpired | lib/utils.ts:241-245 | the deleting loop over all entries reaches exactly the sweep's result |
| RateLimit.LiveWindowBound | lib/utils.ts:230-235 | inside a running window, no more requests are allowed than the room left |
| RateLimit.AtMostMaxRequestsPerWindow | lib/utils.ts:222-235 | for maxRequests ≥ 1, at most maxRequests requests are allowed per window |
| RateLimit.CheckKeepsWellFormed | lib/utils.ts:222-235 | every count stays in 1..maxRequests and the reported remaining stays in 0..maxRequests-1 |
| RateLimit.SweepKeepsWellFormed | lib/utils.ts:239-246 | the sweep keeps stored counts in range |
| RateLimit.TwoPerSecondScenario | lib/utils.ts:214-236 | at 2 per 1000 ms, three requests give remaining 1, 0, then denied; after expiry, a new window with remaining 1 |
| RateLimit.DefaultLimitIsTenPerMinute | lib/utils.ts:214-236 | with the default arguments (10 requests per 60000 ms) at most 10 requests are allowed in a fresh window, and the first reports 9 remaining |
| TextUtils.Truncate | lib/utils.ts:117-120 | on UTF-16 code units: a text that fits is unchanged; otherwise the result ends in "..."; for maxLength ≥ 3 it has length maxLength and keeps the first maxLength-3 code units; below 3 the negative slice end counts from the back and the result is longer than maxLength |
| TextUtils.TruncateIdempotent | lib/utils.ts:117-120 | for maxLength ≥ 3, truncating twice equals truncating once (on code units) |
| TextUtils.TruncateBmpText | lib/utils.ts:117-120 | on text without astral characters a text of at most maxLength characters is kept and a longer one becomes its first maxLength-3 characters plus "..." |
| TextUtils.TruncateCountsCodeUnits | lib/utils.ts:117-120 | three emoji (six code units) truncated to 5 keep one emoji followed by "..." |
| TextUtils.EmailCheckMatchesRegex | lib/utils.ts:128-131 | the structural check (no whitespace, one `@`, non-empty local part, a dot with text on both sides after the `@`) accepts exactly what the regular expression matches |
| TextUtils.ValidEmailMatchesRegex | lib/utils.ts:129 | every accepted address has a match of the regular expression |
| TextUtils.RegexMatchIsValidEmail | lib/utils.ts:129 | every match of the regular expression passes the structural check |
| TextUtils.FirstMatch | lib/utils.ts:204 | `match` reports the leftmost position where the pattern matches, or none when it matches nowhere |
| TextUtils.ExtractOrderId | lib/utils.ts:195-209 | `#digits` wins if it matches anywhere, then `ORDER[- ]digits`, then an 8+ digit word; the capture is all digits with length ≥ 4; null exactly when no pattern matches |
| Prompts.GetSystemPrompt | lib/ai/prompts.ts:10-88 | the prompt starts with the full base text |
| Prompts.ComposeOrder | lib/ai/prompts.ts:88-96 | order is base text, sentiment addendum, then the e-mail block if any |
| Prompts.MissingSentimentIsNeutral | lib/ai/prompts.ts:8 | a missing sentiment behaves as neutral |
| Prompts.ConversationIdIgnored | lib/ai/prompts.ts:7-8 | the conversation id does not affect the prompt |
| Prompts.NeutralWithoutEmailIsBase | lib/ai/prompts.ts:67-94 | neutral with no e-mail is the base text alone |
| Prompts.AdditionsDistinct | lib/ai/prompts.ts:67-86 | neutral adds nothing; the other three addenda are non-empty and pairwise distinct |
| Prompts.EmailBlockIsSuffix | lib/ai/prompts.ts:90-94 | with a non-empty e-mail, the prompt is the e-mail-less prompt plus the block, and contains the e-mail verbatim |
| Prompts.PromptDeterminesSentiment | lib/ai/prompts.ts:67-88 | for the same e-mail, equal prompts mean equal (defaulted) sentiments |
| Prompts.PromptDeterminesEmail | lib/ai/prompts.ts:90-94 | for the same sentiment, equal prompts with e-mail blocks mean equal e-mails |
| KnowledgeBase.KeywordPoints | lib/ai/knowledge-base.ts:146-150 | a keyword found in the lower-cased title gives 2 and one found in the lower-cased content gives 1: the title decides whether the points are ≥ 2, the content whether they are odd; 3 for both, 0 for neither |
| KnowledgeBase.KeywordScore | lib/ai/knowledge-base.ts:148-152 | the fallback score is at most 3 per keyword |
| KnowledgeBase.KeywordRanking | lib/ai/knowledge-base.ts:143-156 | the ranking holds every base entry with positive score, with its score, and nothing else, in non-increasing score order |
| KnowledgeBase.KeywordSearch | lib/ai/knowledge-base.ts:143-157 | fallback results are a prefix of the ranking with exactly min(topK, ranking size) entries (for a negative topK, that many fewer than the ranking); positive scores, non-increasing, entries from the base with their scores |
| KnowledgeBase.SearchSpace | lib/ai/knowledge-base.ts:121-124 | with a category, exactly the entries of that category; without one, all entries |
| KnowledgeBase.SemanticRanking | lib/ai/knowledge-base.ts:127-135 | every entry of the search space with its similarity score (0 without an embedding), nothing else, most similar first |
| KnowledgeBase.SemanticSearch | lib/ai/knowledge-base.ts:121-136 | semantic results are a prefix of the similarity ranking of the search space, with min(topK, space size) entries; non-increasing, category respected, entries without an embedding score 0, entries copied unchanged |
| KnowledgeBase.FallbackBase | lib/ai/knowledge-base.ts:95-99 | the keyword base is the static base, or the embedded base when a failed initialisation made them one array |
| KnowledgeBase.WithEmbeddings | lib/ai/knowledge-base.ts:89-92 | the initialised base is the static base with the i-th embedding attached to the i-th entry |
| KnowledgeBase.InitializeKnowledgeBase | lib/ai/knowledge-base.ts:76-100 | a non-empty embedded base is left alone; on failure it becomes the static array itself; on success a copy of the static entries with their embeddings; afterwards it is non-empty |
| KnowledgeBase.SearchKnowledgeBase | lib/ai/knowledge-base.ts:113-158 | with a query embedding, the semantic path over the embedded entries; without one, the keyword fallback over `KNOWLEDGE_BASE` as it stands, whatever the category |
| KnowledgeBase.Search | lib/ai/knowledge-base.ts:103-111 | `searchKnowledgeBase` initialises exactly as `initializeKnowledgeBase` does, then searches the resulting state |
| KnowledgeBase.AddKnowledgeEntry | lib/ai/knowledge-base.ts:162-182 | the new entry, with its embedding, is appended to the embedded base; when the arrays alias, the keyword base grows by the same entry, otherwise it stays the static base; a failed embedding call stores nothing |
| KnowledgeBase.KeywordSearchKeepsBest | lib/ai/knowledge-base.ts:155-157 | a scoring entry is left out only when topK results are returned, each scoring at least as high |
| KnowledgeBase.SemanticSearchKeepsBest | lib/ai/knowledge-base.ts:127-136 | an entry of the search space is left out only when topK results are returned, each at least as similar |
| KnowledgeBase.KeywordSearchComplete | lib/ai/knowledge-base.ts:155-157 | with topK at least the base size, every scoring entry is returned |
| KnowledgeBase.EmptyKeywordsAddThree | lib/ai/knowledge-base.ts:143-150 | each empty keyword adds 3 to every entry |
| KnowledgeBase.SpacesOnlyQueryKeepsDeclaredOrder | lib/ai/knowledge-base.ts:143-157 | a query of spaces gives every entry 3 per keyword and returns the first topK entries in declared order |
| KnowledgeBase.StaticEntriesHaveNoEmbedding | lib/ai/knowledge-base.ts:14-63 | every entry of the static knowledge base is declared without an embedding |
| KnowledgeBase.FallbackNeverReturnsAddedEntries | lib/ai/knowledge-base.ts:142-157 | when the arrays do not alias, an entry added through `addKnowledgeEntry` is never among the keyword results, whatever category is asked for |
| KnowledgeBase.AliasedFallbackReturnsAddedEntries | lib/ai/knowledge-base.ts:95-99 | after a failed initialisation an added entry that scores and fits in topK is returned by the keyword fallback |
| KnowledgeBase.FailedInitialisationAliases | lib/ai/knowledge-base.ts:95-99 | the first initialisation with the service down makes the embedded base the static array |
| KnowledgeBase.InitializeOnce | lib/ai/knowledge-base.ts:77-79 | a second initialisation changes nothing |
| KnowledgeBase.AddBeforeInitialisationSkipsIt | lib/ai/knowledge-base.ts:109-111 | an entry added before the first search makes the base non-empty, so initialisation is skipped and the base holds only that entry |
| TextUtils.FirstMatchIsLeftmost | lib/utils.ts:195-209 | scanning from the start finds the leftmost match of a pattern, and finds none exactly when the pattern matches nowhere |
| Queries.NewestFirst | lib/db/queries.ts:30-37 | a listing holds the matching rows newest first, exactly `limit` of them or all when there are fewer |
| Queries.NewestFirstKeepsNewest | lib/db/queries.ts:35-36 | a matching row is left out only when the listing is full of rows at least as new |
| Queries.GetTicketsByEmail | lib/db/queries.ts:30-37 | only that e-mail's tickets, newest first, at most `limit` |
| Queries.GetOrdersByEmail | lib/db/queries.ts:77-84 | only that e-mail's orders, newest first, at most `limit` |
| Queries.OrdersByEmailKeepsNewest | lib/db/queries.ts:77-84 | an order missing from the listing is no newer than any listed one |
| Queries.TicketsByEmailKeepsNewest | lib/db/queries.ts:30-37 | a ticket missing from the listing is no newer than any listed one |
| Queries.DefaultListingShowsEveryTicket | lib/db/queries.ts:30-37 | with the default limit of 10, a customer with at most 10 tickets sees all of them |
| Queries.CreateTicket | lib/db/queries.ts:10-28 | the row stores the given fields, status "open", the next serial id, and is appended |
| Queries.CreateTicketKeepsWellFormed | lib/db/schema.ts:25-26 | ticket ids stay unique and below the next serial value |
| Queries.CreatedTicketIsListed | lib/db/queries.ts:10-37 | a ticket newer than all others heads its customer's listing |
| Queries.StatusPatch | lib/db/queries.ts:40-50 | status and updatedAt (the first clock read) always; resolvedAt (a second clock read) exactly for resolved/closed; resolution exactly then and when a non-empty one is given |
| Queries.ApplyPatch | lib/db/queries.ts:52-56 | the update sets the patched columns and leaves every other column as it was |
| Queries.UpdateTicketStatus | lib/db/queries.ts:39-59 | only rows with the id change; the result is absent exactly when no row has the id |
| Queries.ReopeningKeepsResolution | lib/db/queries.ts:45-50 | moving to a non-final status keeps resolvedAt and resolution |
| Queries.UpdateKeepsWellFormed | lib/db/queries.ts:52-56 | the update keeps ticket ids unique |
| Queries.GetOrderStatus | lib/db/queries.ts:62-75 | an order is returned only if both its id and its e-mail match; none exactly when no row matches both |
| Queries.OrderHiddenFromOtherEmails | lib/db/queries.ts:66-71 | a right id with another e-mail returns nothing |
| Queries.OrderFoundByOwner | lib/db/queries.ts:62-75 | the owner's id and e-mail return that order |
| Queries.CreateConversation | lib/db/queries.ts:87-100 | a new conversation is "active", has no sentiment, takes its createdAt and updatedAt from two separate clock reads, and is appended; a duplicate id fails |
| Queries.CreatedConversationIsFound | lib/db/queries.ts:87-100 | the created conversation is found by its id |
| Queries.UpdateConversationSentiment | lib/db/queries.ts:102-113 | only rows with the id change, and only their sentiment and updatedAt |
| Queries.LatestSentimentWins | lib/db/queries.ts:102-113 | two updates leave the second sentiment and time |
| Queries.Since | lib/db/queries.ts:192-193 | the window is 1, 7 or 30 days before now |
| Queries.TicketsSince | lib/db/queries.ts:202-205 | the count is zero exactly when every ticket is older than the window start, and all tickets when none is |
| Queries.ResolvedSince | lib/db/queries.ts:208-216 | the resolved count is at most the window count and zero exactly when no ticket in the window is resolved |
| Queries.ConversationsSince | lib/db/queries.ts:196-199 | the count is zero exactly when every conversation is older than the window start, and all conversations when none is |
| Queries.ResolutionRate | lib/db/queries.ts:228-230 | 0 with no tickets, otherwise resolved/total×100, within 0..100 |
| Queries.GetDashboardStats | lib/db/queries.ts:191-233 | the three counts are those of the conversations, tickets and resolved tickets created at or after the window start for the range; resolved ≤ total; rate 0 with no tickets and within 0..100 |
| Queries.DefaultDashboardCoversLastWeek | lib/db/queries.ts:191-200 | the default range counts conversations and tickets of the last seven days |
| Queries.WeekCountsAtLeastDay | lib/db/queries.ts:192-205 | the week window counts at least as many tickets and conversations as the day window |
| ChatRoute.TextOfIsFilterMapJoin | app/api/chat/route.ts:28-31 | message text is the in-order join of the text parts' text |
| ChatRoute.TextOfAppend | app/api/chat/route.ts:28-31 | text extraction distributes over part concatenation |
| ChatRoute.NonTextPartsVanish | app/api/chat/route.ts:29 | non-text parts contribute nothing |
| ChatRoute.NormalizeMessages | app/api/chat/route.ts:25-39 | same count and order; parts become joined text; content messages pass through |
| ChatRoute.NormalizeAppend | app/api/chat/route.ts:25 | normalisation works message by message |
| ChatRoute.NormalizeKeepsContentMessages | app/api/chat/route.ts:37-38 | content-form messages come out unchanged |
| ChatRoute.PrepareTurn | app/api/chat/route.ts:42-50 | sentiment from the last three normalised messages; prompt starts with the base text |
| ChatRoute.OnlyLastThreeMessagesCount | app/api/chat/route.ts:42-43 | earlier messages change neither sentiment nor prompt |
| ChatRoute.ShortConversationsAreClassifiedWhole | app/api/chat/route.ts:42-43 | with ≤ 3 messages the whole conversation is classified |
| ChatRoute.ShapeSearchResults | app/api/chat/route.ts:75-81 | one hit per result, same order, with title, content and score copied |
| ChatRoute.SearchTool | app/api/chat/route.ts:73-82 | initialises the knowledge base if needed, then reports one hit per result of the knowledge-base search with the default 3, field by field and in order: at most 3, most relevant first, positive relevance in the fallback |
| ChatRoute.ResponseTimeFollowsPriority | app/api/chat/route.ts:108 | urgent "1 hour", high "4 hours", otherwise "24 hours"; higher priority is never promised a slower response |
| ChatRoute.CreateTicketTool | app/api/chat/route.ts:95-111 | stores the ticket with the request's fields, createdAt from the route's clock and updatedAt from the database's, and reports its id, the promised time and the fixed message |
| ChatRoute.TicketToolIdsDistinct | app/api/chat/route.ts:96-107 | successive tickets get different ids |
| ChatRoute.OrderStatusTool | app/api/chat/route.ts:121-140 | not found with the guidance message exactly when no order matches both id and e-mail; otherwise that order's fields |
| ChatRoute.OrderToolHidesOtherCustomersOrders | app/api/chat/route.ts:122-129 | a right id with another e-mail gives "not found" |
| ChatRoute.OrderToolReportsOwnOrder | app/api/chat/route.ts:131-139 | the owner gets the order's details |
| ChatRoute.TransferToAgent | app/api/chat/route.ts:150-157 | always transferred, with the fixed message; wait "2 minutes" for high urgency, otherwise "5 minutes" |
| ChatRoute.TransferDependsOnlyOnUrgency | app/api/chat/route.ts:150-157 | the reason never matters; different urgencies give different reports |

## Left out

- **User interface.** The React chat page and components do rendering only.
- **Model streaming and orchestration.** `streamText`, the gateway model, the stream callbacks, the abort signal and the streamed response belong to a foreign SDK.
- **Input schema validation** (`zod`). The tool arguments arrive already validated, with the enumerations as datatypes.
- **Embeddings and cosine similarity.** These are floating point behind an external API. The similarity is an abstract function returning `real`. Each embedding call becomes an argument: an optional list of embeddings for `initializeKnowledgeBase`, an optional query embedding for the search, an optional embedding for `addKnowledgeEntry`, each `None` when the call fails. The id that `addKnowledgeEntry` builds from `Date.now()` is an argument too. An `embeddings` answer shorter than the static base leaves the remaining entries without an embedding, where the code would attach `undefined`.
- **Time, randomness and locale.** Each `Date.now`/`new Date()` read and each database `defaultNow()` becomes an argument of its own, in milliseconds; the model does not assume the reads are ordered. The `setInterval` schedule is left out; only the sweep's body is modelled. `generateConversationId`, `formatDate`, `formatCurrency`, `cn`, `sleep`, `safeJsonParse` and `calculateResponseTime` are outside the core.
- **Display colours.** `getPriorityColor` and `getStatusColor` only pick display classes.
- **Untouched queries.** `saveMessage`, `getConversationMessages`, `saveFeedback`, `saveAnalytics` and `getAnalyticsByMetric` do plain inserts and selects that the chat route does not use.
- **Average rating.** The dashboard's average rating is a SQL `avg` over feedback.
- **Stub routes.** The ticket and analytics API routes return constants.
- **Database execution.** Drizzle/Postgres execution and the connection setup are left out. The `serial` ticket id is modelled as a counter stored with the table.
- **Non-ASCII text.** Case mapping (`toLowerCase`/`toUpperCase`) and `\w` cover ASCII only. `\s` is the ECMAScript whitespace set. `length` and `slice` are modelled on UTF-16 code units where the model uses them on text (the caps test and `truncate`). Elsewhere strings are sequences of Unicode scalar values, and a lone surrogate cannot be written.
- Queries.NewestFirst: rows with equal `createdAt` keep insertion order. SQL leaves that order unspecified.
- Queries.GetTicketsByEmail: the `limit` is a `nat`, because Postgres rejects a negative LIMIT.
- Queries.GetDashboardStats: the rate is an exact real, not a floating-point percentage; see Queries.ResolutionRate for the empty window and the string counts.
- KnowledgeBase.InitializeKnowledgeBase: each call, and each `searchKnowledgeBase` and `addKnowledgeEntry`, is modelled as one atomic step. Two interleavings of the async code are not represented. First, two searches started before initialisation finishes both see an empty base (lib/ai/knowledge-base.ts:109-111) and both run the embedding call (lines 84-87). Second, an entry pushed by `addKnowledgeEntry` (line 176) while an initialisation is awaiting its embeddings is lost when line 89 or line 98 replaces the array.
- Queries.CreateConversation: a duplicate id is reported as a `DuplicateId` value rather than a thrown database error.
- KnowledgeBase.SemanticSearch: scores are exact reals, and a `NaN` similarity, for example from a zero vector, is not represented.
- ChatRoute.SearchTool: relies on the knowledge-base search above, so the same abstractions apply.
- Queries.ResolutionRate: the model takes the counts as numbers. The Postgres driver returns `count(*)` as a string, so `"0"` is truthy, and with no tickets in the window the code divides by zero and reports `NaN` rather than 0. The model states the evident intent, 0.
- ChatRoute.NormalizeMessages: messages are either parts or a string content. A message whose `content` is not a string passes through unchanged, then makes `toLowerCase` throw in the sentiment analysis, and the route answers 500. That path is not modelled.
