# Verified models of gorkbot

A Dafny project that models the parts of gorkbot whose behaviour holds over whole runs: the life of a
managed MCP server, the approval matcher, the rate limiters, the stream writer and its response filter, the
prompt cache, and the smaller state machines around compaction, naming, events, background agents, budgets
and memory. `dafny verify dfyconfig.toml` checks all of it.

How the source is rendered:

- Objects whose methods update fields (`PatternMatcher`, `rateLimiter`, `samplingRateLimiter`,
  `streamCallbackWriter`, `CacheManager`, `TieredCompactor`, `EventStore`, `BudgetGuard`) are classes with those
  fields. Each method is proved against a function or relation on the object's value, and the laws over runs are
  lemmas about that function. Loops are loops, map iteration is in any order, and the exchange sort works in
  place on an array.
- The MCP server, the background agents and the overlapping calls of the budget guard are concurrent programs, so
  each is a transition system: a state holds any number of goroutines, a step moves one of them to its next shared
  access, and a run is any interleaving. History that the program does not keep (who launched which watchdog, how often a process
  manager was assigned) is recorded in the state.
- The clock, the context, the outcome of foreign calls, map order and ties are inputs or free choices. Tokens,
  money and most times are reals. A panic is a result value.
- Lower-casing, the regular expression library and the hashes are parameters. Hash claims need only that the
  contents in play do not collide; fixed-length hashes cannot be injective on all texts.

Where the code and its own notes differ, the model follows the code:

- `orchestrator/mcp_client.go:29` says that `stopCh` prevents recovery after an intentional Stop. It does not:
  `StopDoesNotPreventRecovery` gives a run, `CanBootIffHope` says exactly when a restart is still possible, and
  `LeftRunningIff` exactly when it leaves a process running for good.
- A second Start forgets the running process: `NoOrphansIffOneStart`.
- A recovery stops whatever process the server has by then, not the one it was launched for; a late watchdog can
  so stop a healthy successor: `StopsOnlyTheDeadIff`, with a run in `LateWatchdogStopsSuccessor`.
- A glob with characters outside ASCII is compiled byte by byte into a different glob: `FaithfulIffAscii`.
- A daily budget warning returns before the session limit is looked at, and warned turns are not added to the
  day, so with a daily limit that can warn neither limit bounds what is billed: `SessionIsEnforcedIff` and
  `DailyIsEnforcedIff` give the exact settings under which each does.
- `internal/engine/budget_guard.go:33` calls the daily limit a rolling one. The code resets it in fixed periods, so
  24 hours around a reset can be billed twice: `RollingBoundIff` gives the exact bound, `RollingIsEnforcedIff` says
  when it comes to the limit itself.
- The budget guard decides on a daily figure it read before it adds to it: `FigureHoldsIff` says that the figure
  keeps to its threshold exactly when calls do not overlap, `OvershootIsBounded` and `OvershootIsReached` how far
  it can go otherwise.
- Trimming a tool result that is only a little over the limit makes it longer: `TrimLengthensIff` says exactly
  when, `OneByteOverGrows` gives an input.
- Cancelling a background agent has no lasting effect: `FinalStatusIgnoresCancel`, with a run in
  `CancelledAgentIsDone`.
- The approval cache is not cleared by `AddPattern`, and its key is ambiguous when one category followed by a
  colon starts another: `CoherentIff` and `DisciplineIsExact` say exactly which categories and which clearing
  make cached answers agree with the search over RE2; `ClashingCategoriesCollide` and `AddingNeedsClearing` give
  runs.
- A retry marker is one only when it arrives in a single write: `CuttingsAgreeIff`.

The files follow the program: `McpLifecycle`, `McpShutdown`, `McpLeftovers`, `McpOrphans`, `McpCalls` and
`McpTargets` for the MCP server, then one file per component, with `BudgetRace` beside `BudgetGuard`; `Common`, `Text`, `Utf8` and
`Decimal` hold the shared vocabulary.

## Model

| member | source | states |
|---|---|---|
| McpLifecycle.EveryRunIsSafe | orchestrator/mcp_client.go:69-207 | in every state of every interleaving: at most one goroutine is inside recovery and at most one holds the lock; with the lock free, process, client and tools come from one bootstrap; no manager is assigned to `s.pm` twice or gets two watchdogs; an adopted one has its watchdog unless its creator is about to launch it; a watchdog watches exactly the process it was launched for; none is launched on nil |
| McpLifecycle.ActPassesLock | orchestrator/mcp_client.go:69-77 | the mutex changes hands only through its own acquire and release, and a new goroutine neither holds it nor is in recovery |
| McpLifecycle.ActKeepsFields | orchestrator/mcp_client.go:118-121 | the fields are written only under the lock, one after another, and a bootstrap leaves all of them on the new process |
| McpLifecycle.ActTogglesRecovering | orchestrator/mcp_client.go:161-165 | the atomic flag and membership of the recovery section change together |
| McpLifecycle.ActKeepsFocus | orchestrator/mcp_client.go:85-131 | a goroutine works only on the process it created: it adopts it once and launches its watchdog once |
| McpLifecycle.StartSucceeds | orchestrator/mcp_client.go:69-77 | a Start whose calls succeed ends with one adopted process and one watchdog on it |
| McpShutdown.BootsAfterStopAreBounded | orchestrator/mcp_client.go:137-207 | once `stopCh` is closed every bootstrap uses up one goroutine that still had one ahead of it, and only new Start and CallTool calls add such goroutines |
| McpShutdown.StopQuiesces | orchestrator/mcp_client.go:137-207 | after Stop and without new calls every run ends within a number of steps read off the state |
| McpShutdown.RestIsClean | orchestrator/mcp_client.go:137-207 | where such a run ends every goroutine has returned, the lock is free and no recovery is marked: nothing waits for ever |
| McpShutdown.CanBootIffHope | orchestrator/mcp_client.go:137-281 | in every state of every run after `stopCh` is closed, a further bootstrap is possible without new calls exactly when some goroutine stands before its bootstrap, a tool call waits on a client, or an earlier tool call can still find one |
| McpShutdown.StopDoesNotPreventRecovery | orchestrator/mcp_client.go:139-194 | a run in which Stop has returned, nobody calls anything, and the server still restarts |
| McpLeftovers.LeftRunningIff | orchestrator/mcp_client.go:167-207 | at rest after Stop every watchdog is gone, and the server's process was never told to stop exactly when no Stop or recovery has read `s.pm` since its adoption |
| McpLeftovers.AnyLeftRunningIff | orchestrator/mcp_client.go:167-207 | with one Start the same condition decides whether any process is left running |
| McpLeftovers.StopLeavesAProcess | orchestrator/mcp_client.go:139-207 | a run in which Stop returns, nobody calls anything, and the server comes to rest with a live process that nobody watches or has told to stop |
| McpOrphans.OneStartLeavesNoOrphans | orchestrator/mcp_client.go:158-194 | with at most one Start, whenever the lock is free every started process other than `s.pm` has been told to stop |
| McpOrphans.TwoStartsOrphanAProcess | orchestrator/mcp_client.go:69-77 | with two Starts a process can be left running that the server's fields no longer lead to |
| McpOrphans.NoOrphansIffOneStart | orchestrator/mcp_client.go:69-77 | allowing at most n Starts rules orphans out of all runs exactly when n is at most one |
| McpTargets.QuietServerStopsOnlyTheDead | orchestrator/mcp_client.go:134-176 | with at most one Start and no failed tool call, in every run a recovery stops a process only once it is dead |
| McpTargets.LateWatchdogStopsSuccessor | orchestrator/mcp_client.go:158-176 | a run with one Start and one failed call in which the old process's watchdog is about to stop its healthy successor, which no call has used |
| McpTargets.TwoStartsStopTheLiving | orchestrator/mcp_client.go:69-77 | with two Starts and no call the first process's watchdog is about to stop the second process |
| McpTargets.StopsOnlyTheDeadIff | orchestrator/mcp_client.go:158-176 | bounds on the Starts and the failed calls keep every recovery of every run from stopping a living process exactly when there is no Start, or one Start and no call fails |
| McpCalls.CallIsAdmittedIff | orchestrator/mcp_client.go:235-238 | in every state of every run a tool call is let in by its first step exactly when no goroutine is recovering the server, and otherwise refused with nothing changed |
| McpCalls.AdmittedCallsStartedQuiet | orchestrator/mcp_client.go:235-262 | whoever is past that step, in any state of any run, took it while nobody was recovering |
| McpCalls.CallLeavesServerAlone | orchestrator/mcp_client.go:259-279 | a call changes neither fields nor processes, the mutex apart, and launches one recovery exactly when its client fails |
| McpCalls.CallsUseAdoptedProcesses | orchestrator/mcp_client.go:259-262 | in every run a call waits on the client of a process that was started and adopted |
| McpCalls.WatchdogActsIff | orchestrator/mcp_client.go:137-154 | a watchdog ends with its context or with Stop and notices exactly the death of its own process |
| McpCalls.WatchdogRecoversIff | orchestrator/mcp_client.go:139-147 | it then recovers the server unless Stop has been called by the time it looks |
| GlobRegex.PieceAt | internal/approval/matcher.go:296-313 | the switch gives the piece for the front of what is left, and how far to go on |
| GlobRegex.Translate | internal/approval/matcher.go:294-315 | the index loop writes the pieces of the glob in order, a double star being taken as one |
| GlobRegex.GlobToRegex | internal/approval/matcher.go:293-317 | the result parses as an anchored RE2 expression and matches every text exactly when the glob, read byte by byte, does |
| GlobRegex.CompiledParses | internal/approval/matcher.go:298-316 | no glob character is ever read as an operator: the emitted string reads back as one item per piece between the anchors |
| GlobRegex.CompiledMatches | internal/approval/matcher.go:294-317 | for every glob and text, an unanchored search with the compiled expression succeeds exactly when the glob matches |
| GlobRegex.FaithfulIffAscii | internal/approval/matcher.go:296-314 | compiling the bytes of a glob preserves its meaning on all texts exactly when the glob is ASCII |
| Approval.GlobPatternsMeanGlobs | internal/approval/matcher.go:136-144 | over any RE2 library, an ASCII pattern with a star or question mark, none of the characters of a regular expression, no leading caret and no final dollar is accepted and tests exactly the glob |
| Approval.OtherPatternsMeanThemselves | internal/approval/matcher.go:319-324 | any other pattern that reads as RE2 is accepted and tests that expression |
| Approval.SortByPriority | internal/approval/matcher.go:326-335 | the exchange sort yields a descending permutation |
| Approval.PatternMatcher.constructor | internal/approval/matcher.go:36-53 | a new matcher has an empty cache and those default patterns the library accepts |
| Approval.PatternMatcher.RegisterDefaultPatterns | internal/approval/matcher.go:55-124 | the loop adds the default patterns in order |
| Approval.NewMatcherApproves | internal/approval/matcher.go:77-110 | over every RE2 library a new matcher approves the three tool calls whose pattern is a plain name |
| Approval.NewMatcherKnowsTwoCategories | internal/approval/matcher.go:57-118 | and nothing outside file reads and tool calls |
| Approval.SourceReadsAreSafe | internal/approval/matcher.go:59-68 | the source files it lets read lie under one of the eleven safe directories |
| Approval.SafeDirectoriesAre | internal/approval/matcher.go:268-291 | which directories these are |
| Approval.PatternMatcher.AddPattern | internal/approval/matcher.go:126-163 | a pattern is stored exactly when it has a name and compiles, a glob by way of the glob compiler; the cache is untouched |
| Approval.PatternMatcher.Collect | internal/approval/matcher.go:173-189 | the loop over the map finds each pattern that applies, once |
| Approval.PatternMatcher.Search | internal/approval/matcher.go:222-238 | the same, most important pattern first |
| Approval.PatternMatcher.Match | internal/approval/matcher.go:165-206 | a cached key gives the cached answer and no name; otherwise the answer of the search is returned and cached, with the name of a pattern of maximal priority |
| Approval.PatternMatcher.GetMatchingPatterns | internal/approval/matcher.go:218-239 | exactly the patterns that apply, once each, in descending priority; non-empty exactly when one applies |
| Approval.PatternMatcher.ClearCache | internal/approval/matcher.go:241-245 | the cache is emptied and the patterns stay |
| Approval.MatchAnswersTheFirstSearch | internal/approval/matcher.go:165-206 | in every run, Match answers what the search answered at the first Match of the same key since the last clearing |
| Approval.DisciplinedRunsAreCoherent | internal/approval/matcher.go:126-245 | when the cache is cleared between two Matches of one key that have an AddPattern between them, and no category followed by a colon starts another, every Match answers what the search would answer there |
| Approval.CoherentIff | internal/approval/matcher.go:165-245 | over every RE2 library and for every set of categories: in all such runs asking within the set every Match agrees with the search exactly when no category of the set, followed by a colon, starts another |
| Approval.ColonFreeRunsAreCoherent | internal/approval/matcher.go:168-171 | categories without colons are such a set |
| Approval.DisciplineIsNeeded | internal/approval/matcher.go:126-171 | over every RE2 library under which no text matches two default patterns, for every sequence of calls within such a set: whatever patterns are added, every Match agrees with the search exactly when the cache is cleared as described |
| Approval.DisciplineIsExact | internal/approval/matcher.go:126-171 | for every sequence of calls within such a set: over all RE2 libraries and all patterns added, every Match agrees with the search exactly when the cache is cleared as described |
| Approval.FragmentSeparates | internal/approval/matcher.go:55-124 | under the library that knows just the glob compiler's fragment, which is an RE2 library, no text matches two default patterns |
| Approval.AddingNeedsClearing | internal/approval/matcher.go:150-171 | without the clearing a newly added pattern stays unseen |
| Approval.ClashingCategoriesCollide | internal/approval/matcher.go:168-171 | over every RE2 library and for any two categories that clash, a run in which one question gets the answer of another |
| RateLimit.RateLimiter.constructor | internal/api/server.go:1077-1090 | defaults for non-positive settings, no buckets, no cleanup yet |
| RateLimit.RateLimiter.Cleanup | internal/api/server.go:1098-1106 | the sweep drops exactly the buckets idle for longer than allowed |
| RateLimit.BucketIsEvictedIff | internal/api/server.go:1098-1106 | a bucket goes exactly when a sweep is due and the bucket has been idle for longer than allowed; the others stay as they are |
| RateLimit.RateLimiter.Allow | internal/api/server.go:1092-1132 | answer and whole new state: due eviction, full bucket for a new key, capped refill, one token taken if there is one |
| RateLimit.TakeKeepsRange | internal/api/server.go:1119-1131 | tokens stay between zero and the capacity |
| RateLimit.EvictionIsInvisible | internal/api/server.go:1098-1117 | from related states, the evicting limiter and one that keeps every bucket answer alike for ever when buckets idle for a minute |
| RateLimit.EvictionIsInvisibleIff | internal/api/server.go:1077-1132 | for every rate, the two limiters give the same answers on all runs with a nondecreasing clock exactly when the idle time is at least 60 seconds |
| RateLimit.KeptBurstsAreRefused | internal/api/server.go:1119-1131 | two bursts of the full capacity less than a minute apart are not both served by a limiter that keeps its buckets |
| RateLimit.EvictedBurstsAreServed | internal/api/server.go:1098-1117 | both are served when the bucket is evicted in between |
| RateLimit.WindowIsBounded | internal/api/server.go:1092-1132 | over any window of any run one key gets at most the capacity plus what accrues in the window |
| RateLimit.RateHoldsIff | internal/api/server.go:1077-1132 | that bound holds in every run and window exactly when the idle time is at least 60 seconds |
| RateLimit.SamplingRateLimiter.constructor | orchestrator/mcp_client.go:454-456 | the sampling limiter starts full at ten tokens |
| RateLimit.SamplingRateLimiter.Allow | orchestrator/mcp_client.go:458-475 | refill at ten a minute up to the cap, then one token taken if there is one |
| RateLimit.SamplingIsBounded | orchestrator/mcp_client.go:446-475 | from any state and over any stretch of time at most ten requests plus one for every six seconds are allowed |
| StreamWriter.Writer.constructor | internal/engine/streaming.go:993-1018 | a new writer has seen nothing |
| StreamWriter.Writer.SplitText | internal/engine/streaming.go:1043-1065 | the character loop splits a chunk by its markers; what is not yet flushed belongs to an open thinking block |
| StreamWriter.Writer.RouteThinking | internal/engine/streaming.go:1035-1077 | after a chunk the thinking buffer is empty and the thinking stream has grown by the chunk's thinking text |
| StreamWriter.Writer.Write | internal/engine/streaming.go:1020-1180 | buffer, both streams, mode and token count after one write, the retry marker included |
| StreamWriter.RouteConcat | internal/engine/streaming.go:1040-1076 | cutting a text anywhere and carrying the mode over changes neither stream |
| StreamWriter.ModeIsThinking | internal/engine/streaming.go:1045-1061 | the writer is in thinking mode exactly when the last marker opened a block |
| StreamWriter.RouteIsPicking | internal/engine/streaming.go:1044-1065 | every character goes to exactly one stream, decided by the last marker before it, in order |
| StreamWriter.WritesFollowTheText | internal/engine/streaming.go:1020-1180 | a run of writes without retry markers depends on the text alone |
| StreamWriter.ChunkIndependence | internal/engine/streaming.go:1031-1077 | two ways of cutting the same text give the same buffer, main stream and thinking stream |
| StreamWriter.StreamsFollowTheMarkers | internal/engine/streaming.go:1031-1180 | however the text is cut, response buffer and main stream get exactly the characters outside thinking blocks, the thinking stream those inside, decided by the last marker before each, and the mode is that of the end |
| StreamWriter.MarkersAreTextWithoutThinking | internal/engine/streaming.go:1035-1139 | without a thinking callback all text is response text |
| StreamWriter.RetryIsShown | internal/engine/streaming.go:1023-1029 | the retry marker goes to the main stream, empties the buffer and changes nothing else |
| StreamWriter.RetryDropsTheResponse | internal/engine/streaming.go:1023-1029 | after a retry the buffer holds exactly the main text written since, both streams go on from what they have shown, and the mode is carried across |
| StreamWriter.CuttingsAgreeIff | internal/engine/streaming.go:1023-1077 | a cutting of a text gives the same result as one in which no write is a retry marker exactly when none of its own writes is; for every text, mode and pair of cuttings |
| ResponseFilter.StripToolOutputPatterns | internal/engine/streaming.go:61-95 | the result is the trimmed join of the lines that are not dropped, a line being dropped when a header stands at or before it with no blank line strictly between |
| ResponseFilter.SkippingStep | internal/engine/streaming.go:69-89 | the skip flag after a line: set by a header, cleared by a blank line, kept otherwise |
| ResponseFilter.DroppedIff | internal/engine/streaming.go:69-89 | a line is dropped exactly when a header stands at it or before it with no line of white space strictly between |
| ResponseFilter.HeadersAre | internal/engine/streaming.go:71-78 | the six phrases that make a header |
| ResponseFilter.KeptArePicked | internal/engine/streaming.go:69-91 | the kept lines are the lines of the response at exactly the positions not dropped, in their order |
| ResponseFilter.KeptHaveNoHeaders | internal/engine/streaming.go:70-91 | kept lines are lines of the response and none is a header |
| ResponseFilter.StripLeavesNoHeaders | internal/engine/streaming.go:61-95 | no line of the output starts a block, outer trimming included |
| ResponseFilter.StripIsIdempotent | internal/engine/streaming.go:61-95 | filtering twice is filtering once |
| Normalize.CollapseRuns | internal/engine/free_will_engine.go:428-431 | the replace loop ends and leaves one character of every run |
| Normalize.HalveShrinks | internal/engine/orchestrator.go:946-949 | one replacement round shortens a text that still has a pair |
| Normalize.CollapseIsCollapsed | internal/engine/free_will_engine.go:428-432 | a collapsed text has no pair and keeps its characters, first and last |
| Normalize.CollapseKeepsWords | internal/engine/free_will_engine.go:428-432 | collapsing a separator changes no word |
| Normalize.NormalizeText | internal/engine/free_will_engine.go:424-433 | lower-cased, trimmed, spaces collapsed |
| Normalize.NormalizedKeepsWords | internal/engine/free_will_engine.go:424-433 | the words of the normal form are the lower-cased words of the trimmed text |
| Normalize.NormalizeIsIdempotent | internal/engine/free_will_engine.go:424-433 | normalising twice is normalising once, for every lower-casing that settles |
| Normalize.NormalizeAsciiIsIdempotent | internal/engine/free_will_engine.go:424-433 | ASCII lower-casing is one that settles |
| LoopGuard.Guard.constructor | internal/engine/free_will_engine.go:359-368 | an empty window of the given size |
| LoopGuard.Guard.NewLoopGuard | internal/engine/free_will_engine.go:359-368 | an empty window, or a panic exactly for a negative size |
| LoopGuard.Guard.RecordApprovedEvolution | internal/engine/free_will_engine.go:469-481 | the record, hashed by its normalised text, enters and the oldest leaves a full window |
| LoopGuard.WindowIsLatest | internal/engine/free_will_engine.go:477-480 | after any number of records the window holds exactly the latest ones, in order |
| LoopGuard.NormalFormsShareAHash | internal/engine/free_will_engine.go:424-439 | a change and its normalised form have the same semantic hash |
| Normalize.MakeSlug | internal/engine/orchestrator.go:939-954 | the mapping, the replace loop, the trims and the cut give the slug of the message |
| Normalize.SuggestSessionName | internal/engine/orchestrator.go:928-961 | the first user message alone decides: its slug and the date, or the fallback |
| Normalize.NameFollowsFirstUser | internal/engine/orchestrator.go:934-958 | with a user message the name is the slug of the first one and the date, or the fallback when that slug is empty |
| Normalize.NameWithoutUser | internal/engine/orchestrator.go:931-960 | without a history or a user message it is the fallback |
| Normalize.SlugKeepsWords | internal/engine/orchestrator.go:939-950 | before the cut the words of a slug are the words of letters and digits of the lower-cased message |
| Normalize.SlugIsCutAt40 | internal/engine/orchestrator.go:951-954 | a longer slug keeps its first 40 characters less a final dash, a shorter one stays whole |
| Normalize.SlugIsSlug | internal/engine/orchestrator.go:939-958 | for every message the part before the date holds only letters, digits and single inner dashes, at most 40 characters |
| Normalize.SlugIsEmptyIff | internal/engine/orchestrator.go:955-957 | the fallback is used exactly when the message has no letter or digit |
| Normalize.SlugIsIdempotent | internal/engine/orchestrator.go:939-954 | a slug is its own slug |
| PromptCache.EvictionPolicy | internal/cache/strategies.go:43-56 | the loop returns the least recently accessed, the least often accessed or the cheapest entry, by strategy |
| PromptCache.VictimIsLeast | internal/cache/strategies.go:106-121 | Set evicts exactly when the map holds 5000 entries for openai or 1000 for any other provider, and then the least entry by the setter's measure |
| PromptCache.CachedLengths | internal/cache/strategies.go:18-21 | which contents are cached, by provider and length in bytes |
| PromptCache.SetThenGet | internal/cache/cache.go:79-150 | what is Set under a new key can be got back, with its stamps and counts, exactly when its length is in the provider's range and its lifetime has not passed |
| PromptCache.KeysSeparate | internal/cache/strategies.go:23-25 | keys of different providers or different hashes differ, colons in provider names included |
| PromptCache.StrategiesAgreeOnKeys | internal/cache/strategies.go:75-78 | the strategies' own key forms come to provider and hash |
| PromptCache.CacheManager.constructor | internal/cache/cache.go:52-68 | an empty cache |
| PromptCache.CacheManager.Get | internal/cache/cache.go:79-107 | absent or expired is a counted miss and the key is gone; a hit is counted and touches the entry |
| PromptCache.CacheManager.EntriesList | internal/cache/cache.go:238-245 | the list holds every entry once, in any order |
| PromptCache.CacheManager.Set | internal/cache/cache.go:109-150 | stores the stamped entry if cacheable, after evicting, when the map is as large as the setter's limit, one present key that is minimal under the setter's policy |
| PromptCache.CacheManager.Invalidate | internal/cache/cache.go:152-164 | exactly this key is removed |
| PromptCache.CacheManager.InvalidateByPattern | internal/cache/cache.go:166-185 | exactly the matching keys are removed and counted |
| PromptCache.PatternsRemove | internal/cache/cache.go:256-266 | a star removes every entry, the empty pattern none, any other those whose key it begins |
| PromptCache.ProviderIsRemoved | internal/cache/cache.go:166-185 | a provider's name with its colon removes all its entries |
| PromptCache.CacheManager.Clear | internal/cache/cache.go:187-194 | nothing is left, the statistics stay |
| PromptCache.CacheManager.Prune | internal/cache/cache.go:217-236 | exactly the expired entries are removed and counted |
| PromptCache.EntriesAreLastWrites | internal/cache/cache.go:79-236 | in every run each entry present is the last one written under its key, not invalidated since, aged by the reads since |
| PromptCache.AgedEntry | internal/cache/strategies.go:90-96 | reads leave the cached material alone; expiry is one hour after the write, or five minutes or a day after the last touch |
| PromptCache.AgedCounts | internal/cache/strategies.go:37-41 | the access count is the caller's plus the reads since the write, the last access the last read or else the caller's |
| PromptCache.LastTouchIsLast | internal/cache/strategies.go:90-96 | the last touch is the time of the last read, or of the write when there was none |
| PromptCache.HitIsLastSet | internal/cache/cache.go:79-107 | a hit returns what was last Set for the same provider and an equally hashed content and not since invalidated, within its lifetime |
| PromptCache.KeptIsPresent | internal/cache/cache.go:79-236 | an entry neither overwritten nor lost since its Set is in the cache, aged by the reads since |
| PromptCache.HitIffKept | internal/cache/cache.go:79-236 | a Get hits exactly when a Set under its key was not overwritten, removed, evicted, or read or pruned past its expiry since, and has not run out |
| PromptCache.HitIsForThePair | internal/cache/cache.go:79-107 | without hash collisions in play a hit never comes from another pair |
| PromptCache.CapacityIsBounded | internal/cache/cache.go:128-140 | the shared map never grows past the largest limit among the providers that Set |
| PromptCache.NeverMoreThan5000 | internal/cache/strategies.go:139-142 | at most 5000 entries in every run, at most 1000 when openai never Sets |
| PromptCache.HitsAndMissesAreGets | internal/cache/cache.go:79-107 | hits plus misses is the number of Gets |
| PromptCache.HitsAreFinds | internal/cache/cache.go:79-107 | the hits counted are the Gets that found their entry |
| Compaction.LastNewline | internal/engine/tiered_compaction.go:145-147 | the last line end, or -1 |
| Compaction.TrimContent | internal/engine/tiered_compaction.go:141-148 | a long content is cut at its last line end past the middle, else at the limit, and closed with the notice |
| Compaction.TieredCompactor.constructor | internal/engine/tiered_compaction.go:45-72 | the default limit and thresholds, and the notice, which begins with its only line end |
| Compaction.TieredCompactor.TrimToolResults | internal/engine/tiered_compaction.go:127-156 | only long tool results change, each to its trimmed form; roles, order and number stay; the count is the number of long ones |
| Compaction.OnlyLongToolResultsChange | internal/engine/tiered_compaction.go:134-148 | exactly the tool results over the limit change, to their trimmed form |
| Compaction.CountLongIsNumber | internal/engine/tiered_compaction.go:149 | the count is the number of those |
| Compaction.TieredCompactor.Check | internal/engine/tiered_compaction.go:74-125 | without a context manager or below the soft threshold nothing changes; otherwise the trimmed history, compressed only if still at the hard threshold, the pipe is wired and it succeeds |
| Compaction.SecondTrimChangesNothing | internal/engine/tiered_compaction.go:130-156 | trimming a trimmed history changes no content, for every limit |
| Compaction.TrimIsFixpoint | internal/engine/tiered_compaction.go:141-148 | the same for one content, also when the notice itself falls inside the limit |
| Compaction.TrimIsDetermined | internal/engine/tiered_compaction.go:141-148 | a content has one trimmed form |
| Compaction.TrimCutsAtLastLateBreak | internal/engine/tiered_compaction.go:141-148 | a long content is cut at its last line end between half the limit and the limit, at the limit when there is none; a short one stays |
| Compaction.TrimIsBounded | internal/engine/tiered_compaction.go:141-148 | the result is at most the notice above the limit |
| Compaction.TrimLengthensIff | internal/engine/tiered_compaction.go:141-148 | the result is longer than the original exactly when the original exceeds the limit by less than the notice and has no line end between half the limit and the limit, or one followed by less than the notice |
| Compaction.OneByteOverGrows | internal/engine/tiered_compaction.go:141-148 | one byte over the limit without a line end is such an input, for every limit and notice |
| EventStore.Log.constructor | internal/events/store.go:41-66 | an empty store |
| EventStore.Log.ReconstructState | internal/events/store.go:166-196 | the loop computes the replay of the log, or panics with it |
| EventStore.Log.Append | internal/events/store.go:68-102 | the event is in the log and counted; every hundredth one adds a snapshot of the replay; a panic leaves the event in |
| EventStore.Log.Purge | internal/events/store.go:265-290 | only events at or after the cutoff stay, the counter and the snapshots are untouched |
| EventStore.PurgeKeepsRecent | internal/events/store.go:273-282 | a purge keeps exactly the events at or after the cutoff, in their order |
| EventStore.ReplayConcat | internal/events/store.go:167-196 | replaying in two parts is replaying once, panics included |
| EventStore.ReplaySucceedsIff | internal/events/store.go:176-181 | the replay goes through exactly when every deduction carries a number |
| EventStore.SnapshotPlusTailIsState | internal/events/store.go:142-196 | in every append-only run any snapshot with the later events replayed on top gives the state of the whole log |
| EventStore.SnapshotCount | internal/events/store.go:96-99 | there is one snapshot for every hundred events exactly when every deduction in those hundreds carries a number |
| EventStore.TotalIsSumOfDeductions | internal/events/store.go:176-181 | the rebuilt total is the sum of all deducted amounts |
| EventStore.SessionIsLast | internal/events/store.go:172-193 | session identifier and start time are those of the last session.created event, the session is off exactly when one was closed, and the keys are absent otherwise |
| EventStore.ToolAndProviderAreLast | internal/events/store.go:183-188 | tool, execution time and provider are those of the last tool.executed and provider.selected events, and absent otherwise |
| EventStore.NoOtherKeys | internal/events/store.go:167-195 | there is a total exactly when something was deducted, and no key beyond these seven |
| EventStore.IdsAreNeverReused | internal/events/store.go:73-83 | in every run, purges and clock jumps included, no event identifier is handed out twice |
| EventStore.IdsDiffer | internal/events/store.go:74 | different serial numbers give different identifiers at any two times |
| BackgroundAgents.ActKeepsAgent | internal/engine/background_agents.go:155-212 | each step of a goroutine keeps its status and its counts in line with where it stands, and takes or frees a slot only where it must |
| BackgroundAgents.ConcurrencyIsBounded | internal/engine/background_agents.go:132-215 | in every interleaving running agents never outnumber the slots, and each goroutine takes, frees and reports at most once |
| BackgroundAgents.SlotsAreReturned | internal/engine/background_agents.go:157-159 | when all goroutines have ended every slot is free |
| BackgroundAgents.AgentsEnd | internal/engine/background_agents.go:155-212 | each agent takes at most six steps, so without new ones every run of the goroutines ends |
| BackgroundAgents.RestMeansFinished | internal/engine/background_agents.go:155-159 | with at least one slot, once no goroutine can go on every one has finished |
| BackgroundAgents.CancelShows | internal/engine/background_agents.go:281-304 | in every run Cancel and CancelAll show every agent as cancelled that has not written an outcome, and touch no outcome, no goroutine and no slot |
| BackgroundAgents.ContextEndsWaiting | internal/engine/background_agents.go:160-168 | a waiting agent whose context ends leaves, cancelled and reported once, whether or not a slot is free and without taking one |
| BackgroundAgents.FinalStatusIgnoresCancel | internal/engine/background_agents.go:198-207 | an ended agent shows its own outcome: cancelled exactly when its context ended before it got a slot, whatever Cancel and CancelAll did |
| BackgroundAgents.CancelIsOverwritten | internal/engine/background_agents.go:281-291 | a running agent that is cancelled is shown two steps later by what its generation came to, done or failed |
| BackgroundAgents.CancelledAgentIsDone | internal/engine/background_agents.go:132-212 | a run from the start in which an agent is spawned, runs, is cancelled and ends as done |
| BackgroundAgents.AgentIdsDiffer | internal/engine/background_agents.go:134-135 | agent identifiers are distinct, past 9999 too |
| Decimal.ValueOfPad4 | internal/engine/background_agents.go:135 | the padded numeral determines its number |
| Decimal.Pad4Length | internal/engine/background_agents.go:135 | the padding fills up to four places and no further |
| BudgetGuard.EstimateCost | internal/engine/budget_guard.go:57-79 | the cost at the first price whose prefix occurs in the model name, zero when there is none |
| BudgetGuard.EstimateIsFirstMatch | internal/engine/budget_guard.go:65-79 | the estimate is the cost at the first price whose prefix the model name contains; zero for an unknown provider or model |
| BudgetGuard.PricesArePerMillion | internal/engine/budget_guard.go:72-75 | prices are per million tokens, in and out |
| BudgetGuard.EstimateIsNotNegative | internal/engine/budget_guard.go:71-76 | estimates are not negative when prices and token counts are not |
| BudgetGuard.Guard.constructor | internal/engine/budget_guard.go:42-55 | nothing spent today, the session counted from here |
| BudgetGuard.Guard.CheckAndTrack | internal/engine/budget_guard.go:81-152 | decision and new state: reset after a day, the daily limit first, then the session limit, and only an allowed turn is added |
| BudgetGuard.DecisionIff | internal/engine/budget_guard.go:88-149 | exactly which projections are blocked, warned about and allowed, the daily limit first, and what is added to the day |
| BudgetGuard.SessionIsEnforcedIff | internal/engine/budget_guard.go:108-144 | over all runs that bill at most the estimate, the session limit holds exactly when the daily limit is off or cannot warn |
| BudgetGuard.DailySpendIsAllowedSum | internal/engine/budget_guard.go:88-94 | the daily figure is the sum of the estimates allowed since the last reset |
| BudgetGuard.DailySpendStaysBelowWarning | internal/engine/budget_guard.go:109-125 | with a daily limit the figure never passes the warning threshold |
| BudgetGuard.DailyIsEnforcedIff | internal/engine/budget_guard.go:108-149 | over all one-day runs that bill at most the estimate, the daily limit bounds what is billed exactly when it cannot warn |
| BudgetGuard.DailyLimitDoesNotBoundBilling | internal/engine/budget_guard.go:118-123 | otherwise more than any amount can be billed within one day in warned turns |
| BudgetGuard.RollingBoundIff | internal/engine/budget_guard.go:88-149 | when the limits cannot warn, an amount bounds what any 24 hours of any ordered run that bills at most the estimate are billed exactly when it is at least twice the daily limit, or the session limit if that is less |
| BudgetGuard.PeakIsReached | internal/engine/budget_guard.go:90-94 | one turn before a reset and one at it are billed that much |
| BudgetGuard.RollingIsEnforcedIff | internal/engine/budget_guard.go:33 | every 24 hours keep to the daily limit exactly when it cannot warn and there is a session limit no larger |
| BudgetRace.UndisturbedCallIsAtomic | internal/engine/budget_guard.go:88-149 | the three locked steps of a call, with no other call in between, come to the decision and the figure of the call under one lock |
| BudgetRace.OvershootIsBounded | internal/engine/budget_guard.go:88-149 | in every interleaving of n callers the daily figure stays within n times the threshold, whatever the session limit and the clock |
| BudgetRace.OvershootIsReached | internal/engine/budget_guard.go:104-149 | without a session limit n callers can take it that far |
| BudgetRace.FigureHoldsIff | internal/engine/budget_guard.go:88-149 | the figure keeps to the threshold in all interleavings exactly when there is at most one caller, or the threshold is zero |
| MemoryPrune.PruneMemoryParts | internal/engine/memory_context.go:15-39 | the loop selects the trimmed parts in order, passing over blanks, digests met before and parts over the budget |
| MemoryPrune.PartIsSelectedIff | internal/engine/memory_context.go:21-37 | a part is selected exactly when it is not blank, no earlier part has its digest, selected or not, and it still fits the budget |
| MemoryPrune.SelectionFitsBudget | internal/engine/memory_context.go:31-36 | the total cost fits the budget |
| MemoryPrune.SelectionFitsBytes | internal/engine/memory_context.go:31-36 | in bytes, at most four for every token of the budget |
| MemoryPrune.TokensCoverBytes | internal/engine/memory_context.go:31 | a token stands for four bytes, the last one possibly for fewer |
| MemoryPrune.OnePart | internal/engine/memory_context.go:21-37 | a single part is selected exactly when it is not blank and fits |
| MemoryPrune.SelectionKeepsOrder | internal/engine/memory_context.go:21-37 | the result is made of non-blank trimmed parts at increasing positions |
| MemoryPrune.SelectionIsDistinct | internal/engine/memory_context.go:26-30 | no two selected parts share a digest |
| MemoryPrune.SelectionIsMaximal | internal/engine/memory_context.go:26-36 | without collisions, adding any part left out would exceed the budget |

## Left out

- HTTP handlers, tokens, TLS, WebSockets, audit storage, provider wiring, the command line programs, prompts, status bars and the other presentation code: they move data between the outside world and the parts modelled here.
- Subprocess pipes, signals and binary lookup: a process only starts, is told to stop and exits; that stopping works in time is not claimed.
- SyncWith, the tool registry and the Python shaper: they do not touch the state modelled here.
- The full regular expression engine: the parser covers the fragment the glob compiler writes; patterns that are already regular expressions, the default ones among them, go to a parameter.
- MatchMulti and GetStats: a conjunction of Match calls and a count of the cache.
- IsSafeDirectory: paths are separated by slashes; a platform with another separator accepts that one as well.
- Aliasing: a caller that changes a pattern or cache entry after handing it over, or one it got back, is not modelled; the model stores and returns values.
- Writer.Write: without stream monitor, suppressor, relay and orchestrator; chunks are cut between characters, since a broken character is replaced by the decoder.
- Invalid UTF-8 globs and targets: texts are sequences of characters, and a glob is the encoding of one.
- RateLimiter.Allow: `now` is read before the lock is taken, so concurrent callers can present times out of order; the run laws assume a nondecreasing clock.
- Guard.CheckAndTrack: one undisturbed call; the three times the code takes its lock, and what overlapping calls do to the daily figure, are in `BudgetRace`.
- EstimateCost: a guard without a billing manager, whose estimates are zero, and a nil guard, which allows everything.
- TieredCompactor.TrimToolResults: a negative limit, which panics on the first tool result; the limit is a natural number.
- The content of stage-2 compression: it is decided by a language model and is a parameter of Check.
- Log.Append: the JSONL file; it is written but never read back.
- GetLatestSnapshot: it compares whole seconds, so among snapshots of one second any may be returned; every one of them recovers the state.
- The loop guard's similarity score and recursion depth, the compressed cache strategy, which is never registered, and the other caches' statistics.
- Hashes are parameters and floating point is exact: rounding, MD5 and SHA-256 themselves are not modelled.
