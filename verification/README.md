# mountainKing: a verified model

mountainKing is a GraphQL gateway: it renders SQL templates, batches and caches queries, limits
request rates and guards its data sources. This project models the parts of it whose correctness
is hardest to see by reading, and proves what they promise. `dafny verify dfyconfig.toml` checks
everything.

| module | models |
|---|---|
| `Text` | `strings.Join`, `Split`, `ReplaceAll`, `HasPrefix`, `ToUpper`, `EqualFold`, `%d`, identifiers |
| `Reals` | the arithmetic that both rate limiters share |
| `Sanitizer` | the seven-state SQL scanner, as a loop and as the function `Lex` it computes |
| `Pieces` | what the scanner makes of each piece of a statement, and that every text is made of pieces |
| `Literals` | `safeString`, `quote`, `safeInList`, `safeLike`, and readers for what they print |
| `LiteralReading` | what a SQL reader finds in a statement around printed literals |
| `Wrapping` | `safeIdentifier`, `wrapWithPagination`, `wrapWithCount` |
| `PageLiterals` | the literals that the database finds in page and count statements |
| `PageReading` | reading page and count statements back |
| `Paging` | over-fetching, cutting and walking pages |
| `DataLoading` | the per-request DataLoader as a protocol, and its locked sections as a class |
| `TokenBucket` | the Redis script, key expiry and the distributed limiter |
| `LocalLimiter` | the in-process limiter with its cleanup sweep |
| `Fallback` | degrading to the local limiter and recovering through a probe |
| `MemoryCaching`, `CacheHits` | the LRU memory cache with its byte accounting, and when a read hits |
| `CacheLoading` | `GetOrLoad` with single flights under interleaved callers |
| `Normalizing`, `QueryLayout` | `NormalizeQuery`, and the layout it makes no difference of |
| `QueryText` | what normalization makes of single characters, words, strings and comments |
| `CircuitBreaking` | the circuit breaker |
| `Reloading` | template reload with error isolation and cache clearing |
| `Filters`, `Statements` | the read and mutation WHERE builders and the statements around them |
| `Reading` | recognizing names, order items and numbers in printed SQL |
| `StatementReading`, `MutationReading` | reading built queries, counts and mutations back |

## How it is modelled

Code that computes is a function; code that works by steps is a method or a class whose contract
equates it with a function, and the theorems are about those functions. Concurrent code is a state
machine: an event is one section under a lock, one atomic access or one call into a library; a run
is any list of enabled events, and a theorem about runs holds for every interleaving. The classes
`DataLoader`, `FallbackRateLimiter` and `CacheLayer` show that the source's sections are those events.

Assumptions about what is not shown here:

- Text is a sequence of characters. In the scanner and the escape functions a character stands for
  a byte; `NormalizeQuery` is modelled for ASCII; the direction of an ORDER BY is in Unicode.
- Time is a parameter. Buckets use exact real numbers; Go's `int` wraps at 64 bits where `first + 1`
  is computed and is exact elsewhere.
- golang-lru is a list in order of use that runs the callback for every entry it removes, evicts or
  purges. singleflight is a map from a key to its running flight. `rate.Limiter` is a token bucket
  that a refused call leaves alone. One run of the Redis script is one step; a key is gone at its
  deadline, at once if its time to live is zero. `once.Do` is one step.
- Encoding may fail; what was encoded decodes to the same value, and no encoding is the empty marker.
  A corrupt cache entry is one that does not decode and is not the marker; only events outside the
  layer make one.
- A callback of a stopped timer may still run once if the timer had fired before it was stopped.
- The configured file of a template name is its first; hashes are whatever loading reports.
- The script divides by its refill rate only below `max_tokens`, which cannot happen when the rate
  is zero; `ResetSeconds` says so with a guard.
- Where WHERE builders compare values, a value is nothing, an opaque scalar or a JSON array.

## What the proofs turned up

Each of these is a theorem about the code as it is.

- The scanner's verdict and output around a quoted value are independent of the value even directly
  next to another quote: a doubled quote leaves it where closing and opening again would
  (`SubstitutionIsIndependent`). What a SQL reader makes of the statement is not: it finds the
  literals before the value, the value, and those after it exactly when neither neighbour is a quote
  (`ValueIsReadBack`); otherwise neighbours become one literal, as in `'a''b'` (`ValueBehindALiteral`).
  Sanitizing and wrapping change none of this (`DatabaseReadsTheTemplate`, `DatabaseReadsTheValue`).
- With a window below one second the Redis key expires at once: in every run in time order every
  request of at most a full bucket is granted (`ShortWindowLimitsNothing`). Expiry is unobservable
  exactly from one second on (`ForgettingIsUnobservable`).
- A blank behind a string literal, which GraphQL does not need, changes the normalized query
  (`StringBeforeAName`); behind or before a spread it does not (`SpreadsStandAlone`). Two queries
  share a normalized text exactly if their tokens agree up to the case of keywords (`SameTextIff`),
  so names that differ in nothing else, such as the enum values `ON` and `on`, share a cache key
  (`KeywordCaseIsLost`).
- A late Redis failure between the probe's switch back and its reset of the once leaves the gateway
  degraded (`WindowLosesTheProbe`), and no other schedule does (`RecoveryIsCovered`). It stays so once
  no request is left inside the Redis call (`LostForever`): one still in flight that fails after the
  reset would start a new probe.
- The circuit breaker's defaults, two successes to close and one probe to earn them, lock a client
  that is the only one to record results out after its first successful probe (`DefaultsLockOut`).
  A success recorded by anyone else closes the breaker (`OutsideSuccessesClose`), as the health check
  of the ClickHouse adapter does (internal/adapter/clickhouse/adapter.go:519-521); StarRocks records
  the results of admitted writes only (internal/adapter/starrocks/adapter.go:259-282).
- Walking pages loses rows exactly when the page size exceeds a positive row limit that the result
  exceeds too (`PageWalkIsExact`). Without `first`, a row limit of zero leaves one row
  and one of -1 none (`PageWithoutFirst`); lower ones, which nothing rejects, make the LIMIT negative
  (`LimitWithoutFirst`), as `first + 1` does at the largest `int` (`OverfetchFits`).
- Outside its precondition the mutation builder states other filters than it was given, without an
  error: unknown operators vanish and a non-list becomes a one-item list (`MutationWhereMeans`).
  An update or delete says the same as its request exactly if there is none of these
  (`UpdateReadsBack`, `DeleteReadsBack`).
- Comments that do not match the code, which the model follows: internal/template/pagination.go:15
  (LIMIT and OFFSET as `?` parameters; the code writes the numbers into the text),
  internal/cache/normalize.go:96 (the list of punctuation; the code also splits at `,`, `[`, `]`, `|`
  and `&`) and internal/graphql/dataloader/dataloader.go:106 (a timer is started or reset; one that
  runs is left alone).

## Model

| member | source | states |
|---|---|---|
| Sanitizer.ScanOne | internal/template/sanitizer.go:44-180 | one turn of the state switch on string indices is the scanner's step on the remaining text, whose effect on each piece of text `PieceBetween` states |
| Sanitizer.Sanitize | internal/template/sanitizer.go:33-213 | the scanning loop accepts, rejects and rewrites exactly as the specification scan does, which `StatementVerdict` and `EveryTextIsAStatement` determine for every text |
| Sanitizer.Compose | internal/template/sanitizer.go:41-181 | a text that ends in the normal state and the text after it are scanned as if each stood alone, unless the boundary splits a comment opener |
| Sanitizer.CommentEmitsBlank | internal/template/sanitizer.go:149-167 | the first character emitted after an open comment is a newline or a blank |
| Sanitizer.StepSurvives | internal/template/sanitizer.go:44-180 | what a step emits, read again before the rest of the output, makes the same step |
| Sanitizer.Rescan | internal/template/sanitizer.go:33-213 | scanning any scan's output reproduces it, every character in the same lexical role |
| Sanitizer.SanitizeIsFixpoint | internal/template/sanitizer.go:26-213 | sanitizing twice is sanitizing once, and no character changes between literal, hint and plain text |
| Sanitizer.OutputIsPlain | internal/template/sanitizer.go:26-32 | outside literals and hints the output has no semicolon, no delimiter and no comment opener |
| Sanitizer.AcceptedIsSafe | internal/template/sanitizer.go:26-32 | accepted output has no top-level semicolon, no comment and no open literal or hint |
| Sanitizer.FixedIffClean | internal/template/sanitizer.go:183-212 | a text is left alone by the scan and ends in the normal state exactly when sanitizing returns it unchanged |
| Pieces.PieceBetween | internal/template/sanitizer.go:44-180 | between any texts, the first ending in the normal state: hints, literals, delimited names and other characters are copied in their roles, a block comment becomes a blank, a line comment its line end |
| Pieces.StatementVerdict | internal/template/sanitizer.go:33-213 | a row of such pieces becomes just that, and is refused only for a semicolon among the pieces or a literal, name, hint or block comment that is never closed |
| Pieces.EveryTextIsAStatement | internal/template/sanitizer.go:41-212 | every text is such a row with one of these ends, so that its verdict and output are known from the text alone |
| Pieces.AcceptedIff | internal/template/sanitizer.go:182-212 | accepted with this output if and only if the text is a row of pieces that become it, with nothing or a line comment behind them |
| Pieces.RefusedIff | internal/template/sanitizer.go:80-84 | refused as several statements if and only if a semicolon stands in the normal state |
| Literals.SafeStringIsEscape | internal/template/funcmap.go:46-58 | the three replacements in their order escape character by character, so none escapes another's output |
| Literals.SafeLikeIsEscape | internal/template/funcmap.go:190-202 | the same for the LIKE replacements |
| Literals.SafeInList | internal/template/funcmap.go:156-188 | fails exactly on the empty list; otherwise the quoted items in order, separated by commas |
| Literals.QuoteIsOneLiteral | internal/template/funcmap.go:60-68 | for every value the scanner reads the quoted text as one closed literal and leaves it alone |
| Literals.SubstitutionIsIndependent | internal/template/funcmap.go:46-68 | between any texts, the first ending in the normal state, acceptance does not depend on the quoted value, which is copied unchanged and read as literal throughout |
| Literals.ListSubstitutionIsIndependent | internal/template/funcmap.go:151-188 | the same for a whole IN list |
| Literals.QuoteRoundTrip | internal/template/funcmap.go:46-68 | read from its opening quote, the literal denotes the value less NUL bytes and ends where it was printed, if and only if no quote follows |
| Literals.InListRoundTrip | internal/template/funcmap.go:151-188 | reading an IN list back gives the listed values in order, less NUL bytes |
| LiteralReading.ReadApart | internal/template/sanitizer.go:91-115 | texts without quotes on both sides of their boundary have the literals of the one and then those of the other |
| LiteralReading.ReadMerged | internal/template/sanitizer.go:102-106 | with quotes on both sides, the last literal of the one and the first of the other become one, with a quote between their values |
| LiteralReading.ReadAround | internal/template/funcmap.go:46-68 | exactly which literals a reader finds in a statement around printed ones, next to quotes or not |
| LiteralReading.ValueIsReadBack | internal/template/funcmap.go:46-68 | the literals of a statement around a quoted value are those before, the value less NUL bytes, and those after, if and only if neither neighbour is a quote |
| LiteralReading.ListIsReadBack | internal/template/funcmap.go:151-188 | the same for all values of an IN list |
| LiteralReading.TwoQuotedValues | internal/template/funcmap.go:60-68 | two quoted values in a row are one literal, for all values |
| LiteralReading.ValueBehindALiteral | internal/template/funcmap.go:60-68 | the shortest such statement, in which the second value is read nowhere |
| Literals.LikeEscapeMatchesItself | internal/template/funcmap.go:190-202 | an escaped pattern matches a text if and only if it is the original text |
| Literals.QuotedLikeMatchesExactly | internal/template/funcmap.go:60-68 | a quoted escaped pattern denotes one that matches exactly the given text |
| Wrapping.SafeIdentifier | internal/template/funcmap.go:123-149 | accepts exactly one or two segments of 1 to 64 word characters and backticks each |
| PageReading.IdentifierIff | internal/template/funcmap.go:123-149 | dot-free parts joined by dots are an identifier if and only if there are one or two, each of 1 to 64 letters, digits and underscores |
| Wrapping.IdentifierIsFixed | internal/template/funcmap.go:123-149 | a printed identifier is left alone by the scanner, its names inside backticks |
| Wrapping.SelectFields | internal/template/pagination.go:40-55 | the select list is built if and only if every field is an identifier |
| Wrapping.OrderRows | internal/template/pagination.go:57-76 | the ORDER BY clause is built if and only if every field is an identifier, descending for DESC in any case that Unicode folds to it |
| Wrapping.WrapWithPagination | internal/template/pagination.go:19-86 | succeeds exactly on valid field and order lists, with the over-fetch limit in Go's wrapping arithmetic and in the words that `PageReadsBack` reads back |
| Wrapping.SpliceIsFixed | internal/template/pagination.go:80-83 | a sanitized statement between parentheses keeps its reading, and the closing one is read in the normal state |
| Wrapping.PaginationIsFixpoint | internal/template/pagination.go:80-83 | for every sanitized statement, accepted lists and all integers the page statement is a sanitizer fixpoint made of independently read pieces |
| Wrapping.CountIsFixpoint | internal/template/pagination.go:88-91 | the same for the count statement |
| Wrapping.RenderedThenWrapped | internal/template/renderer.go:100-106 | whatever the renderer lets through can be wrapped either way without changing its reading |
| PageReading.PageReadsBack | internal/template/pagination.go:19-86 | read back, a page statement names the requested fields and order, one row more than the page or the row limit as its LIMIT, and the requested offset |
| PageReading.DescendingIff | internal/template/pagination.go:69-72 | exactly which directions are descending |
| PageReading.CountReadsBack | internal/template/pagination.go:88-91 | a count statement counts the rows of the whole template |
| PageLiterals.SanitizingKeepsLiterals | internal/template/sanitizer.go:33-213 | a reader of the output finds exactly the literals that a reader of the input finds, from every state outside literals |
| PageLiterals.DatabaseReadsTheTemplate | internal/template/pagination.go:80-91 | the page and the count statement around a sanitized template have exactly the literals of the rendered text |
| PageLiterals.DatabaseReadsTheValue | internal/template/funcmap.go:46-68 | in both statements a quoted value is found among the template's literals as it is, less NUL bytes, if and only if no quote of the template touches it |
| Paging.TruncateAndConnect | internal/graphql/resolver/template.resolvers.go:63-85 | the truncation steps and page flags as one function of the fetched rows |
| Paging.OverfetchFits | internal/template/pagination.go:28-32 | the limit is one more than the page size exactly below the largest int, where it turns negative |
| Paging.PageIsSlice | internal/graphql/resolver/template_helpers.go:53-81 | a page is the asked slice of the result, and there is a next page if and only if rows remain |
| Paging.PageWithoutFirst | internal/graphql/resolver/template.resolvers.go:70-82 | without a page size, at any offset, the result is cut at the row limit, a limit of zero leaving one row and one of -1 none |
| Paging.LimitWithoutFirst | internal/template/pagination.go:28-32 | without a page size the LIMIT is negative if and only if the row limit is below -1 or the largest int |
| Paging.PageWalkIsExact | internal/graphql/resolver/template_helpers.go:65-66 | walking all pages yields the whole result in order if and only if the row limit does not cut them short |
| DataLoading.StepInv | internal/graphql/dataloader/dataloader.go:86-199 | every locked section, stale timer callbacks included, keeps timers, queues, batches and answers in order |
| DataLoading.NoRequestStranded | internal/graphql/dataloader/dataloader.go:86-199 | in every interleaving timers and queues name the same sources, queues are nonempty and below the batch size, and each timer's callback is still to come |
| DataLoading.ExactlyOnePlace | internal/graphql/dataloader/dataloader.go:95-165 | every submitted request is in exactly one of its queue, one taken batch, or the answered ones |
| DataLoading.DeliveryIsExact | internal/graphql/dataloader/dataloader.go:160-165 | a delivery answers a request for the first time, before later ones of its batch, with the execution of its own query |
| DataLoading.LoadWaitsOrFills | internal/graphql/dataloader/dataloader.go:89-109 | an accepted load waits behind the others of its source on the timer of the first, and exactly a full batch is taken at once |
| DataLoading.FlushTakesTheQueue | internal/graphql/dataloader/dataloader.go:111-182 | a cancelled caller, a timer and closing take the whole queue as one batch and leave other sources alone |
| DataLoading.ClosedTakesNothing | internal/graphql/dataloader/dataloader.go:89-94 | after closing no request is ever accepted |
| DataLoading.BatchesFit | internal/graphql/dataloader/dataloader.go:97-105 | no batch of any run is larger than the batch size |
| DataLoading.AnswersStay | internal/graphql/dataloader/dataloader.go:87-163 | answers are never replaced or withdrawn, so a channel of capacity one never blocks its sender |
| DataLoading.Progress | internal/graphql/dataloader/dataloader.go:169-182 | while a request is unanswered some timer or batch can take a step |
| DataLoading.InternalStepDecreases | internal/graphql/dataloader/dataloader.go:158-182 | each timer or delivery step uses up one unit of the remaining work |
| DataLoading.FlushAddsNoWork | internal/graphql/dataloader/dataloader.go:115-156 | cancelling and closing never add work |
| DataLoading.LoaderDrains | internal/graphql/dataloader/dataloader.go:86-199 | with no new loads, but cancels and closes anywhere, timers and batches take boundedly many steps, and they only stop with every request answered |
| DataLoading.DataLoader.SubmitLoad | internal/graphql/dataloader/dataloader.go:89-109 | a request is queued and flushed at once if it fills the batch, otherwise a timer runs for its source; a closed loader takes nothing |
| DataLoading.DataLoader.FlushOnCancel | internal/graphql/dataloader/dataloader.go:118-125 | a cancelled caller hands the whole queue of its source to a batch, and stops its timer only if that queue was not empty |
| DataLoading.DataLoader.OnTimer | internal/graphql/dataloader/dataloader.go:173-181 | a callback takes the queue of its source and unregisters whatever timer that source has then, its own or a later one |
| DataLoading.DataLoader.ExecuteNext | internal/graphql/dataloader/dataloader.go:160-165 | one turn of executeBatch answers the first request of a batch with the execution of its own query |
| DataLoading.DataLoader.Shutdown | internal/graphql/dataloader/dataloader.go:139-156 | in any order of sources every queue becomes a batch, every timer is stopped, and nothing is accepted from then on |
| DataLoading.DataLoader.StartTimer | internal/graphql/dataloader/dataloader.go:169-182 | ensureTimer registers one timer per source |
| DataLoading.DataLoader.HaltTimer | internal/graphql/dataloader/dataloader.go:186-191 | stopTimer unregisters the timer and prevents its callback only if it had not fired |
| DataLoading.DataLoader.TakePending | internal/graphql/dataloader/dataloader.go:195-199 | takePending hands over the whole queue of one source and no other |
| TokenBucket.SpendBound | internal/ratelimit/distributed.go:44-54 | a call keeps the content within bounds, never gains more than the refill, and deducts nothing when denied |
| TokenBucket.GrantBound | internal/ratelimit/distributed.go:27-65 | over any run, clock readings going backward included, grants plus what is left are at most the content plus the refill for the bucket's own advance |
| TokenBucket.GrantsStayInBudget | internal/ratelimit/distributed.go:27-65 | grants between any two points are at most one full bucket plus that refill |
| TokenBucket.ResetIsExact | internal/ratelimit/distributed.go:59-62 | the bucket is full after a wait if and only if the wait is at least the reported reset time |
| TokenBucket.RemainingIsExact | internal/ratelimit/distributed.go:50-64 | the remaining count in an answer is the largest request that would be granted at the same instant |
| TokenBucket.GrantTakesWhatItAsks | internal/ratelimit/distributed.go:44-55 | a request is granted if and only if the refilled bucket holds enough, and takes what it asks for; a refused one takes nothing |
| TokenBucket.RemainingCountsDown | internal/ratelimit/distributed.go:51-64 | at one instant the remaining count falls by exactly what is granted, from the limit for a new key |
| TokenBucket.AvailableIff | internal/ratelimit/distributed.go:44-55 | left alone, a bucket can grant a request from exactly the moment at which the refill has made up for what is missing |
| TokenBucket.LimiterServes | internal/ratelimit/distributed.go:27-106 | in every run on one key, whatever the clock reads, a request is granted as long as it and the grants before it stay within the limit |
| TokenBucket.SameSecond | internal/ratelimit/distributed.go:44-97 | within one second of the clock nothing is refilled |
| TokenBucket.EntryLivesTwoWindows | internal/ratelimit/distributed.go:57-98 | a stored bucket lives for two windows in whole seconds |
| TokenBucket.Redis.RunScript | internal/ratelimit/distributed.go:27-65 | the script's assignments answer and store exactly what the bucket functions say, and touch no other key |
| TokenBucket.Redis.Allow | internal/ratelimit/distributed.go:95-133 | the limiter as a whole: clock truncated to seconds, a window's worth of tokens, forgotten after twice the whole seconds of the window; the verdict passes on the limit and one window from the second clock reading |
| TokenBucket.ExpiredMeansFull | internal/ratelimit/distributed.go:98-106 | with a window of at least a second a bucket is full again by the time Redis forgets it |
| TokenBucket.ShortWindowForgets | internal/ratelimit/distributed.go:98-106 | with a shorter window a second full request at the same instant is granted |
| TokenBucket.ShortWindowLimitsNothing | internal/ratelimit/distributed.go:98-106 | with a shorter window, in every run in time order, a request is granted if and only if it asks for no more than a full bucket |
| TokenBucket.BudgetFrom | internal/ratelimit/distributed.go:27-106 | from any point of a run in time order on, keys expiring or not, grants are at most the content there plus what the rate yields over the clock's advance |
| TokenBucket.LimiterBudget | internal/ratelimit/distributed.go:27-106 | a whole run on one key is granted at most one full bucket plus that yield, for windows of at least a second |
| TokenBucket.ForgettingIsUnobservable | internal/ratelimit/distributed.go:88-106 | for every run in time order the answers are those of a store that never forgets, exactly when the window is at least one second |
| LocalLimiter.KeyedRateLimiter.AllowRequest | internal/ratelimit/local.go:59-103 | one call takes from the bucket of its key, makes a full one for a new key below the bound, and refuses a new key at the bound |
| LocalLimiter.KeyedRateLimiter.Cleanup | internal/ratelimit/local.go:120-127 | one sweep removes exactly the entries idle for more than two windows, in any order |
| LocalLimiter.GrantBound | internal/ratelimit/local.go:83-93 | over any run in time order a bucket grants at most its content plus the refill for the time that passes |
| LocalLimiter.KeyBudget | internal/ratelimit/local.go:59-130 | in every run of the limiter, sweeps, refusals and other keys included, one key is granted at most a full bucket plus the refill for the time that passes |
| LocalLimiter.KeyIsServed | internal/ratelimit/local.go:59-130 | after every run, a call for a key that a full table does not refuse is granted as long as it and the grants before it stay within the limit |
| LocalLimiter.AvailableIff | internal/ratelimit/local.go:83-93 | a bucket can grant a request from exactly the moment at which the refill has made up for what is missing |
| LocalLimiter.TrackedIffRecent | internal/ratelimit/local.go:108-130 | after every run, a sweep leaves exactly the keys that were served in the last two windows |
| LocalLimiter.RemainingIsExact | internal/ratelimit/local.go:85-102 | the remaining count in an answer is the largest request that would be granted at the same instant |
| LocalLimiter.IdleMeansFull | internal/ratelimit/local.go:110-127 | after two idle windows a bucket is full |
| LocalLimiter.SweepIsUnobservable | internal/ratelimit/local.go:59-130 | with sweeps anywhere in a run, working with a current or an outdated tick, the answers are those of buckets never dropped, if and only if no new key meets a full table |
| LocalLimiter.FullTableRefuses | internal/ratelimit/local.go:66-81 | the table never outgrows its bound, and a refused key leaves no trace |
| Fallback.AtMostOneProbe | internal/ratelimit/fallback.go:88-132 | in every interleaving at most one probe lives, and the once is spent exactly while one does |
| Fallback.RouteFollowsTheRun | internal/ratelimit/fallback.go:64-132 | in every run a request goes to the local limiter if and only if the last failure came after the last successful ping, and a failure launches a probe if and only if none was started since the last reset |
| Fallback.RequestsAreAccounted | internal/ratelimit/fallback.go:64-79 | requests inside Redis and on their way to start a probe are those that came less those that went on |
| Fallback.ProbesAreAccounted | internal/ratelimit/fallback.go:92-132 | so are waiting probes and those that have switched back |
| Fallback.CoverStep | internal/ratelimit/fallback.go:64-132 | the only step that leaves degraded mode without a coming probe is a start that meets a switched but not reset probe |
| Fallback.RecoveryIsCovered | internal/ratelimit/fallback.go:64-132 | a run always has a probe, or a request about to start one, while degraded, if and only if it has no such start |
| Fallback.WindowLosesTheProbe | internal/ratelimit/fallback.go:122-129 | the window is reachable: a run ends degraded with no probe and nobody to start one |
| Fallback.LostMeansWindow | internal/ratelimit/fallback.go:122-129 | every run that ends so went through the window |
| Fallback.LostForever | internal/ratelimit/fallback.go:64-67 | such a state is final: every later request stays local |
| Fallback.FallbackRateLimiter.BeginAllow | internal/ratelimit/fallback.go:64-67 | a request goes to the local limiter exactly when the flag is up |
| Fallback.FallbackRateLimiter.PrimaryReturned | internal/ratelimit/fallback.go:69-78 | a Redis failure raises the flag before the probe is started and sends the request to the local limiter |
| Fallback.FallbackRateLimiter.StartRecoveryProbe | internal/ratelimit/fallback.go:92-100 | the first use of the once since it was replaced launches a probe, every other does nothing |
| Fallback.FallbackRateLimiter.ProbeTick | internal/ratelimit/fallback.go:110-123 | a failed ping keeps waiting, a successful one clears the flag first |
| Fallback.FallbackRateLimiter.ProbeReset | internal/ratelimit/fallback.go:125-129 | the once is reset afterwards, in a step of its own |
| Fallback.FallbackRateLimiter.ProbeSeesStop | internal/ratelimit/fallback.go:106-109 | a waiting probe ends once the limiter is stopped, and leaves flag and once as they are |
| Fallback.FallbackRateLimiter.CloseStop | internal/ratelimit/fallback.go:83-86 | stopping changes nothing but what a waiting probe will see |
| MemoryCaching.MemoryCache.SetValue | internal/cache/memory.go:91-113 | the eviction loop and the library calls keep the byte count exact and yield the specified list |
| MemoryCaching.MemoryCache.GetValue | internal/cache/memory.go:75-87 | a read returns the unexpired entry and makes it the latest used, or removes an expired one |
| MemoryCaching.MemoryCache.DeleteKey | internal/cache/memory.go:116-119 | one key leaves, the byte count follows |
| MemoryCaching.MemoryCache.DeletePrefix | internal/cache/memory.go:123-131 | exactly the keys with the prefix leave, in any order |
| MemoryCaching.MemoryCache.ClearAll | internal/cache/memory.go:134-138 | everything leaves and the count is zero |
| MemoryCaching.SetDropsShortestPrefix | internal/cache/memory.go:99-110 | Set drops the shortest prefix of least recently used entries that makes room under both limits, and puts the entry last |
| MemoryCaching.LimitsHold | internal/cache/memory.go:24-31 | after every history keys are distinct, the entry limit holds, and the memory limit holds or one entry is stored |
| MemoryCaching.HitIsLatestUnexpired | internal/cache/memory.go:73-113 | after every history a hit is what a plain map holds for the key, and not expired |
| CacheHits.HitIff | internal/cache/memory.go:73-137 | after every history a read returns the plain map's value if and only if the key is not expired, was not dropped by a later Set as least recently used, and not removed by a read after its expiry |
| CacheHits.ListHoldsTheAlive | internal/cache/memory.go:73-137 | the list refines a reference that knows no list, only which keys are there and when each was last used |
| CacheHits.WrittenIsRead | internal/cache/memory.go:75-113 | what was just written is read until it expires, whatever its size |
| CacheHits.ReadChangesNoAnswer | internal/cache/memory.go:75-87 | a read changes no answer, except that an entry found expired is gone |
| MemoryCaching.OrderedByUse | internal/cache/memory.go:73-113 | after every history entries stand in the order of their last read or write, so what is evicted went unused longest |
| CacheLoading.StepInv | internal/cache/layer.go:87-155 | every step of every caller keeps flights registered, shared and led, values and stored entries traceable to loaders, and undecodable entries traceable to outside events |
| CacheLoading.OneLoaderPerKey | internal/cache/layer.go:115-144 | in every interleaving at most one loader per key runs |
| CacheLoading.FlightSharesItsOutcome | internal/cache/layer.go:115-154 | every caller of a flight gets what the loader run by that flight's leader returned, and nobody waits for a flight without a leader |
| CacheLoading.ReturnedByTheLoader | internal/cache/layer.go:116-120 | what is on record as a flight's result was returned in the run by its leader's loader |
| CacheLoading.ValuesComeFromLoaders | internal/cache/layer.go:87-155 | whatever is returned as data was returned by a loader for that key; no corrupt entry is |
| CacheLoading.BackendHoldsLoadedData | internal/cache/layer.go:116-144 | a stored entry is the marker after a loader found nothing, the encoding of a loader's result, or the very bytes that an event outside the layer put there; an undecodable one is the last |
| CacheLoading.ErrorsAreNeverStored | internal/cache/layer.go:116-144 | in every run that leaves a key's entry alone from outside, the entry is the marker or an encoding of something a loader returned for that key, never an error |
| CacheLoading.TaintedByAnEvent | internal/cache/layer.go:101-109 | an entry is on record as corrupt only after an event outside the layer |
| CacheLoading.CachedIsServed | internal/cache/layer.go:88-113 | a caller that finds a readable entry gets its value at once, loads nothing in any run that follows, and changes nothing |
| CacheLoading.MissedIsLoaded | internal/cache/layer.go:88-113 | no entry, a read error and a corrupt entry, which is deleted, lead to the loader |
| CacheLoading.StoredIsServed | internal/cache/layer.go:88-143 | what a leader stored, no data included, is what later callers are served while nobody touches the entry |
| CacheLoading.StepsLeadToTheEnd | internal/cache/layer.go:84-155 | every event of a caller brings it closer to its result |
| CacheLoading.NobodyIsStuck | internal/cache/layer.go:84-155 | in every reachable state a caller that is not done can go on, or waits for a leader of its key that can |
| CacheLoading.CacheLayer.CheckCache | internal/cache/layer.go:88-113 | the cache check: miss, marker, hit or corrupt |
| CacheLoading.CacheLayer.DeleteCorrupt | internal/cache/layer.go:103-109 | a corrupt entry is deleted unless the backend fails, and the caller goes on to load either way |
| CacheLoading.CacheLayer.EnterGroup | internal/cache/layer.go:115-117 | a caller joins the running flight of its key or leads a new one |
| CacheLoading.CacheLayer.StoreResult | internal/cache/layer.go:122-143 | what the leader stores: the marker, the encoding, or nothing if encoding fails |
| CacheLoading.CacheLayer.LandFlight | internal/cache/layer.go:144-154 | the end of a flight publishes one outcome and frees the key |
| Normalizing.IsEscaped | internal/cache/normalize.go:83-93 | the backward loop finds an odd number of backslashes |
| Normalizing.RemoveComments | internal/cache/normalize.go:50-81 | the index loop computes the character-by-character comment scanner |
| Normalizing.Tokenize | internal/cache/normalize.go:95-137 | the rune loop computes the token list |
| Normalizing.NormalizeQuery | internal/cache/normalize.go:27-48 | the three stages together |
| QueryText.CharacterBetween | internal/cache/normalize.go:97-145 | which characters between two names are layout, punctuators, comment signs, or part of a token |
| QueryText.NameIsNormalized | internal/cache/normalize.go:12-48 | which eight words are brought to lower case |
| QueryText.StringIsKept | internal/cache/normalize.go:50-81 | a string with escaped quotes in it is kept as it is, number signs included |
| QueryText.CommentIsDropped | internal/cache/normalize.go:68-74 | a comment vanishes up to its line end, quotes included |
| Normalizing.TokensAreAtomic | internal/cache/normalize.go:95-145 | every token is a spread, a punctuator, or a word without a spread in it |
| Normalizing.JoinReadsBack | internal/cache/normalize.go:35-45 | tokens joined by blanks are tokenized back to themselves |
| Normalizing.StrippedIsQuiet | internal/cache/normalize.go:50-81 | what comment removal leaves has no comment in it, from the same string state on |
| Normalizing.NormalizationIsIdempotent | internal/cache/normalize.go:24-48 | normalizing twice is normalizing once, for every query |
| Normalizing.SameTextIff | internal/cache/key.go:19-30 | two queries share the normalized text that their cache keys are made of if and only if their tokens agree up to the case of keywords |
| QueryLayout.LayoutDoesNotMatter | internal/cache/normalize.go:24-145 | replacing the layout at a place outside strings and comments leaves the result unchanged if and only if there is layout before and after, or neither, or the characters around the place keep the tokens apart |
| QueryLayout.LayoutCanBeLeftOut | internal/cache/normalize.go:97-145 | layout can be left out exactly next to punctuators, other layout, the ends of the text, and whole spreads, dots being taken in threes |
| QueryLayout.TokensTouch | internal/cache/normalize.go:101-133 | anywhere else the last token before the place changes its length |
| QueryLayout.SpreadsStandAlone | internal/cache/normalize.go:117-123 | spreads need no layout before or behind them |
| QueryLayout.StringsDoNot | internal/cache/normalize.go:125-133 | a string literal does: layout between it and a name or number changes the normalized text |
| QueryLayout.StringBeforeAName | internal/cache/normalize.go:95-137 | a shortest pair of such queries |
| QueryLayout.LastCommentIsIgnored | internal/cache/normalize.go:68-74 | a comment at the end of the query needs no line end |
| QueryLayout.KeywordCaseIsLost | internal/cache/normalize.go:35-45 | a keyword set apart outside strings and comments may change its case anywhere, as a name too, without changing the result |
| CircuitBreaking.CircuitBreaker.constructor | internal/datasource/circuit_breaker.go:68-85 | settings that are not positive become the defaults |
| CircuitBreaking.DefaultsFillIn | internal/datasource/circuit_breaker.go:68-85 | each setting that is positive is kept, the others are 5 failures, 30 seconds, 1 probe and 2 successes |
| CircuitBreaking.CircuitBreaker.AllowRequest | internal/datasource/circuit_breaker.go:90-124 | admits when closed, or while a probe slot is left; an open breaker whose time is over starts an episode with its first slot taken |
| CircuitBreaking.CircuitBreaker.RecordSuccess | internal/datasource/circuit_breaker.go:129-146 | ends the failure streak when closed, counts towards closing when half-open, and is ignored when open |
| CircuitBreaking.CircuitBreaker.RecordFailure | internal/datasource/circuit_breaker.go:151-171 | counts when closed and trips at the threshold, trips at once when half-open, and does not prolong an open period |
| CircuitBreaking.ClosedCountsTheStreak | internal/datasource/circuit_breaker.go:129-162 | after every history of a closed breaker its counter is the number of failures since the last success, below the threshold |
| CircuitBreaking.TripsOnTheThreshold | internal/datasource/circuit_breaker.go:155-162 | a closed breaker opens exactly on the failure that makes that number the threshold |
| CircuitBreaking.ClosedAdmits | internal/datasource/circuit_breaker.go:94-97 | a closed breaker admits everything |
| CircuitBreaking.HalfOpenFailureReopens | internal/datasource/circuit_breaker.go:163-170 | any failure in the half-open state denies everything for a whole new open duration, and no longer |
| CircuitBreaking.OpenAdmitsNothing | internal/datasource/circuit_breaker.go:98-107 | for the open duration nothing is admitted and nothing recorded has an effect |
| CircuitBreaking.OpenAdmitsWhenOver | internal/datasource/circuit_breaker.go:98-116 | an open breaker admits a request exactly once its open duration is over, as the first of a new episode |
| CircuitBreaking.EpisodeQuota | internal/datasource/circuit_breaker.go:108-120 | no half-open episode of any run admits more than its quota |
| CircuitBreaking.RecloseIffThresholdFitsQuota | internal/datasource/circuit_breaker.go:98-146 | a client that only succeeds closes the breaker, after exactly the threshold, if and only if the threshold fits the quota; otherwise it is denied for good |
| CircuitBreaking.OutsideSuccessesClose | internal/datasource/circuit_breaker.go:137-145 | successes recorded without admission close a half-open breaker exactly when the threshold is met, whatever the quota |
| CircuitBreaking.DefaultsLockOut | internal/datasource/circuit_breaker.go:69-80 | with the defaults such a client is admitted once and never again |
| Reloading.LoadTemplates | internal/template/loader.go:64-191 | the loading loop: bad, repeated and failing names are reported, the others registered |
| Reloading.LoadAllFacts | internal/template/loader.go:64-191 | a name is registered with its loaded version if and only if that is valid and loads, and reported if not, or if it is repeated |
| Reloading.NameLoadsIff | internal/template/loader.go:64-191 | a configured name is registered if and only if it consists of 1 to 64 letters, digits, underscores and dashes and its template loads |
| Reloading.TemplateEngine.Reload | internal/template/engine.go:335-412 | within ten seconds of the last reload a mutation changes nothing; otherwise failed names keep their version, exactly the changed names lose their cache keys, the result counts fresh loads only, and a second clock reading is kept |
| Reloading.TemplateEngine.ClearChanged | internal/template/engine.go:379-390 | the hash loop, in any order, clears the prefixes of changed and new names |
| Reloading.ReloadFacts | internal/template/engine.go:359-393 | after one reload a name has its old version if it was reported, else what the disk holds, and only configured names remain |
| Reloading.ReloadKeepsLastGood | internal/template/engine.go:329-334 | with unique names, after every history of disk contents each name shows its last loadable version with the matching hash |
| Reloading.RegisteredStays | internal/template/engine.go:366-377 | a registered name never disappears |
| Reloading.TracksIffConfiguredOnce | internal/template/loader.go:83-94 | a name that the loader is given tracks its last good version over all histories if and only if it is given once |
| Reloading.PrefixNamesTheTemplate | internal/cache/layer.go:157-162 | a name's key prefix matches the keys of that name only |
| Reloading.ReloadClearsExactlyTheChanged | internal/template/cache.go:24-53 | a reload removes a template's data and count keys exactly when its hash changed or is new, and no key outside the namespace |
| Filters.BuildINClause | internal/adapter/starrocks/query_builder.go:224-246 | fails exactly without a nonempty array; otherwise one placeholder per item |
| Filters.BuildClause | internal/adapter/starrocks/query_builder.go:174-217 | one clause: fails exactly on an unknown operator or a list operator without a nonempty array |
| Filters.BuildWhereClause | internal/adapter/starrocks/query_builder.go:155-221 | succeeds exactly if every filter is acceptable, with the specified text and parameters |
| Filters.WriteINClause | internal/adapter/starrocks/mutation_sql_builder.go:202-241 | a list operator writes one placeholder per item, and a single one for any other value |
| Filters.BuildMutationWhereClause | internal/adapter/starrocks/mutation_sql_builder.go:173-250 | the same specified text and parameters, for every filter list |
| Filters.OnePlaceholderPerParameter | internal/adapter/starrocks/mutation_sql_builder.go:173-250 | placeholders equal parameters in number, fallbacks included |
| Filters.WhereRoundTrip | internal/adapter/starrocks/query_builder.go:155-221 | parsing text and parameters gives the filters back, up to the ignored values of null tests |
| Filters.WhereIsInjective | internal/adapter/starrocks/query_builder.go:155-221 | equal text and parameters mean equal filters |
| Filters.MutationWhereMeans | internal/adapter/starrocks/mutation_sql_builder.go:170-250 | for every nonempty list, what is written reads back as the given filters if and only if each meets the precondition; otherwise as which others, or as nothing |
| Statements.ConversionEstablishesThePrecondition | internal/graphql/resolver/mutation_helpers.go:36-80 | a conversion succeeds if and only if the input has the value that its operator needs; the result has the operator of that name, the input's field and value, and meets the builder's precondition |
| Statements.ConvertedFiltersReadBack | internal/graphql/resolver/mutation_helpers.go:36-80 | converted filters never reach the fallbacks and read back exactly, each with the operator that its input names |
| Statements.BuildBoth | internal/adapter/starrocks/mutation_sql_builder.go:170-250 | whenever the read builder accepts a list the mutation builder gives the same text and parameters, which read back |
| Statements.BuildInsert | internal/adapter/starrocks/mutation_sql_builder.go:26-59 | a single insert is the batch of one row |
| Statements.BuildUpdate | internal/adapter/starrocks/mutation_sql_builder.go:63-89 | SET values come before filter parameters, as their placeholders do |
| Statements.BuildDelete | internal/adapter/starrocks/mutation_sql_builder.go:93-107 | the parameters of a delete are those of its filters, in their order |
| Statements.BuildBatchInsert | internal/adapter/starrocks/mutation_sql_builder.go:112-168 | the row template once per row, the values row by row |
| Statements.MutationParametersLineUp | internal/adapter/starrocks/mutation_sql_builder.go:63-107 | SET values match the placeholders before WHERE in number, filter parameters those after it |
| Statements.BatchInsertLinesUp | internal/adapter/starrocks/mutation_sql_builder.go:112-168 | one placeholder per value, all in the rows, and one per column in each |
| Statements.FlattenFacts | internal/adapter/starrocks/mutation_sql_builder.go:156-162 | the value of row r and column c is the parameter at position r times the width plus c |
| Statements.BuildLimitClause | internal/adapter/starrocks/query_builder.go:275-311 | `first` wins over `limit`, a cursor over `offset` even if it cannot be decoded, each part only if there is a number |
| Statements.Build | internal/adapter/starrocks/query_builder.go:47-96 | succeeds exactly if table, fields, filters and order are acceptable, with the specified statement |
| Statements.BuildCount | internal/adapter/starrocks/query_builder.go:99-121 | succeeds exactly if table and filters are acceptable |
| StatementReading.BuildableIff | internal/adapter/starrocks/query_builder.go:47-96 | a request can be built if and only if its names are words on the lists of the schema and its filters have the values that their operators need |
| Statements.ListAndCountAgree | internal/adapter/starrocks/query_builder.go:98-121 | every placeholder of a query, and of its count, is a parameter of the filters |
| StatementReading.ListAndCountReadBack | internal/adapter/starrocks/query_builder.go:44-121 | read back with those parameters, a query names its columns, table, filters, order and bounds as requested, its count the same table and filters, and all names are on the lists of the schema |
| MutationReading.UpdateReadsBack | internal/adapter/starrocks/mutation_sql_builder.go:61-89 | read back with its parameters, an update names its table, each column with its own value and the written filters, which are the given request if and only if there are columns and filters and these meet the precondition |
| MutationReading.DeleteReadsBack | internal/adapter/starrocks/mutation_sql_builder.go:91-107 | the same for a delete |
| MutationReading.InsertReadsBack | internal/adapter/starrocks/mutation_sql_builder.go:109-168 | read back with its parameters, a batch insert names its table and columns and has every row with its own values |

## Left out

- GraphQL execution, HTTP, configuration, watchers, metrics, logging and the connections to Redis, StarRocks and Prometheus: input and output or thin wrappers.
- `safeInt`, `safeFloat`, `join` and the other template helpers: each is a check or a call of the standard library.
- `fmt.Sprint` before escaping and the element type checks of `safeInList`: values are strings here.
- Template execution, SHA-256, xxhash and the codecs: kept abstract.
- Cursors: `encodeCursor` and `decodeCursor` are not inverses of each other; a decoded cursor is a parameter.
- Template cache keys as a function of parameters: values may contain the separators, so keys are not injective.
- Literals.QuotedLikeMatchesExactly: matching is taken with backslash as the escape character, which the template has to request.
- Literals.ListSubstitutionIsIndependent: stated for nonempty lists, the only ones that are printed.
- Paging.PageWalkIsExact: takes a fixed result, and needs a page size of at least one, as the walk would not move otherwise.
- Paging.PageIsSlice: takes a non-negative page size and offset; the source panics on a negative page size.
- Normalizing.NormalizationIsIdempotent: says nothing of the meaning of string literals, in which blanks are collapsed.
- QueryLayout.LayoutDoesNotMatter: one place at a time; several follow one after the other.
- DataLoading.LoaderDrains: counts steps of timers and deliveries, not time; that a due timer fires is Go's promise.
- What a cancelled caller of `Load` receives: its own answer if that is there already, otherwise the context error.
- TokenBucket.GrantBound: about one bucket that is not forgotten; `LimiterBudget` has keys expire, for clock readings in order.
- TokenBucket.LimiterBudget: takes a clock reading and the script run it is sent to as one instant; with several gateways a reading can be older than its run, and a key can then expire before the readings have advanced by its time to live.
- TokenBucket.Redis.Allow: the errors of the Redis call and of reading its reply; `Fallback` takes them as failures.
- LocalLimiter.KeyBudget: for calls that read the clock in order, as below; so is LocalLimiter.KeyIsServed.
- LocalLimiter.SweepIsUnobservable: for calls that read the clock in order, which they do with the mutex held on Go's monotonic clock.
- Fallback.AtMostOneProbe: takes replacing the once as atomic with respect to `Do`; the source reads it outside the mutex.
- The answers of the local limiter while degraded are those of `LocalLimiter`; here only the routing is modelled.
- MemoryCaching.MemoryCache.SetValue: sequential; in the source other calls may come between the library calls of one Set.
- CacheHits.HitIff: sequential for the same reason.
- `parseMemorySize`: a parser of configuration.
- CacheLoading.OneLoaderPerKey: at any instant; a caller that missed before a flight ended can load again after it.
- Times to live and jitter in `GetOrLoad`: expiry is an event that may happen at any time.
- Cache keys are followed up to the normalized text; hash collisions and the variables are not.
- Reloading.TracksIffConfiguredOnce: about the loader by itself; validation rejects repeated names (internal/config/validation.go:321-323) and the server then does not start (cmd/server/main.go:79-81).
- Reloading.ReloadClearsExactlyTheChanged: one step, in terms of hashes; a query running between clearing and swap, and changed shared fragments, are not seen.
- Statements.BuildBatchInsert: needs at least one row, although the validator lets an empty list pass.
- Filters.WhereRoundTrip: for a nonempty list, since no list writes an empty text.
