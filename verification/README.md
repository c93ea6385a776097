# Models of the streaming pipeline and of the session protocols

This project models how the library turns provider byte streams into one event
protocol, and the concurrent protocols around that, and proves what they keep.

- **Partial JSON** (`JsonText`, `NumberSyntax`, `PartialParser`, `PartialMachine`,
  `JsonDocument`, `PartialMeaning`, `StringSpelling`, `PartialGrowth`,
  `StringRepair`, `RepairReading`, `StreamingJson`, `LenientText`,
  `LenientGrowth`): the cursor parser for cut JSON as a class proved against
  functions, and those against a machine that reads character by character, on
  every text, and against a reference meaning of concrete syntax trees; the string
  repair; the cascade of attempts that tool arguments go through, on documents and
  on whatever Repair makes one. A string stands for a Go string, one char per
  byte; numbers are token text.
- **Streams** (`EventStream`, `StreamPump`, `LazyStream`, `PumpRefinement`): the
  queue as a class; producers, pump goroutine, watcher, consumer and canceller as
  a transition system; lazy streams nested to any depth, whose pumps are the
  goroutine in coarser moves.
- **Conversation replay** (`Conversation`, `OrphanResults`, `HistoryClosure`,
  `Replay`, `ReplayTexts`, `ReplayStability`, `ReplayPairing`, `MistralIds`,
  `CallIdRules`).
- **Wire decoders** (`BlockEvents`, `TextBlocks`, `ToolBlocks`, `GoogleDecoder`,
  `MistralDecoder`, `CompletionsDecoder`, `CompletionsProtocol`,
  `CompletionsRouting`, `CompletionsIdentity`, `ResponsesDecoder`,
  `ResponsesItems`, `ResponsesMessage`, `AnthropicDecoder`, `AnthropicMessage`,
  `ArgumentDelivery`): one monitor says which event sequences are proper; each
  decoder is a class proved against functions, and those against the monitor.
  Chunks are typed values, as after JSON decoding. Parsing and printing of
  argument text are parameters of the decoders; `ArgumentDelivery` puts the
  streaming JSON parser in their place.
- **Credentials** (`CredentialStore`, `OAuthRefresh`), **transports**
  (`SseReader`, `CodexTransport`, `CodexRequests`), **polling and refresh**
  (`DeviceCode`, `SingleFlight`).

Clocks, networks, cancellations and provider answers are parameters, over which
the theorems quantify. A transition system has one step for each place where
another goroutine may come between.

Where a promise is not kept by the code on all inputs, the exact condition is
proved, on the input: `ShownApproximatesExactly`, `LenientApproximatesIff`,
`RepairKeepsMeaning`, `StableExactlyWhenIdsSettle`, `ResponsesReplayStableExactly`,
`PairingPreserved`, `IdsDistinctExactly`, `SameIdSameBlockExactly`,
`SignedByLastDetailExactly`, `OnlyReplacedSlotsAreLost`,
`ArgumentsSpelledExactly`, `ProtocolKeptExactly`.
Beside each stands a lemma with an input on which the promise fails. The comment
of `newToolCallIDNormalizer` speaks of nine-character ids; the code makes ids of
one to nine characters, because a short hash is not padded. `Repair` leaves
a malformed `\u` escape as it is, since `u` is among its valid escapes. The comment
above the pending reasoning details of the completions decoder denies a call that
learns its id late a second chance; the code gives it one on its next delta.

`dafny verify dfyconfig.toml` verifies everything.

## Model

| member | source | states |
|---|---|---|
| PartialParser.Parser.SkipWS | ai/internal/partialjson/partial.go:49-58 | the cursor stands at the first character that is no white space |
| PartialParser.Parser.Value | ai/internal/partialjson/partial.go:60-79 | the cursor parser reads exactly what the functional parser reads, on every text, and ends where it says; every read stays in bounds and terminates |
| PartialParser.Parser.Literal | ai/internal/partialjson/partial.go:81-95 | a literal, completed when the text ends inside it |
| PartialParser.Parser.Number | ai/internal/partialjson/partial.go:97-124 | the number token, or at the end of the text its longest prefix that is a float |
| PartialParser.Parser.String | ai/internal/partialjson/partial.go:139-209 | the decoded string or its decoded prefix, with a cut escape dropped and a lone surrogate replaced |
| PartialParser.Parser.Array | ai/internal/partialjson/partial.go:211-246 | the elements that can be read, in order |
| PartialParser.Parser.Member | ai/internal/partialjson/partial.go:264-291 | a key and its value, or nothing when the text ends before a value can be read |
| PartialParser.Parser.Object | ai/internal/partialjson/partial.go:248-307 | the fields that can be read, later keys winning |
| PartialParser.RunParsePartial | ai/internal/partialjson/partial.go:24-35 | ParsePartial is the functional parser started at the first character |
| PartialMachine.ParsePartialIsMachine | ai/internal/partialjson/partial.go:24-307 | for every text, well-formed or not, the recursive parser returns what a machine shows that reads one character after the other with a stack of the open containers |
| PartialMachine.RejectedForGood | ai/internal/partialjson/partial.go:24-35 | once a character may not come, the text is refused, and so is every text that goes on from it |
| JsonText.LongestFloat | ai/internal/partialjson/partial.go:113-121 | dropping trailing characters finds the longest prefix that is a float, or there is none |
| JsonText.LongestFloatGrows | ai/internal/partialjson/partial.go:107-124 | a number read from a prefix is a text prefix of the number read from more text |
| NumberSyntax.FloatSyntaxExactly | ai/internal/partialjson/partial.go:126-137 | a number is taken exactly if it has a sign or none, digits with at most one dot and one digit at least, and an exponent with a sign or none and a digit, or none |
| NumberSyntax.RangeExactly | ai/internal/partialjson/partial.go:126-137 | a number is refused for its size exactly if its decimal value, without its sign, is 2^1024 - 2^970 or more |
| PartialMeaning.LiteralShown | ai/internal/partialjson/partial.go:139-209 | a string literal cut anywhere reads as what its pieces show up to the cut |
| PartialMeaning.DocumentShown | ai/internal/partialjson/partial.go:60-307 | any value, nested to any depth and cut anywhere, reads as what it shows up to the cut, and the parser stops at the cut or at its end |
| PartialMeaning.ParsePartialShows | ai/internal/partialjson/partial.go:24-35 | for every document, white space around it and every cut, the result is what the document shows up to the cut, and an error exactly when it shows nothing |
| PartialMeaning.ParsePartialWhole | ai/internal/partialjson/partial.go:24-35 | on the whole printed text the result is the document's meaning (round trip) |
| StringSpelling.SpelledIsRead | ai/internal/partialjson/partial.go:139-170 | every string, written as a literal by a table of escapes of its own, slashes and controls escaped or not, is read back |
| StringSpelling.EscapesAreRead | ai/internal/partialjson/partial.go:171-199 | any UTF-16 code units, written as u escapes, are read as valid UTF-8 whose bits are the characters they stand for, U+FFFD for a lone half of a pair |
| StringSpelling.EscapedTextIsRead | ai/internal/partialjson/partial.go:171-199 | so every Unicode text written as u escapes is read back, character by character |
| StringSpelling.ValidExactly | ai/internal/partialjson/partial.go:171-199 | bytes are valid UTF-8 exactly if they are what is written for some characters, and those are the characters that their bits stand for |
| JsonDocument.FullyShown | ai/internal/partialjson/partial.go:10-23 | a value whose text has been seen shows its meaning |
| PartialGrowth.ShownGrows | ai/internal/partialjson/partial.go:10-23 | what a shorter prefix shows approximates what a longer one shows (more elements, more fields, longer strings and numbers, equal constants), as long as the cut is not inside a surrogate pair and no key that the shorter shows is given again by a member that only the longer shows |
| PartialGrowth.SplitIsNoApproximation | ai/internal/partialjson/partial.go:184-196 | a cut inside a surrogate pair of a string value shows a replacement character, and so no approximation |
| PartialGrowth.ShownApproximatesIff | ai/internal/partialjson/partial.go:10-23 | with distinct keys, what a prefix shows approximates the meaning if and only if the cut is not inside a surrogate pair |
| PartialGrowth.ShownApproximatesExactly | ai/internal/partialjson/partial.go:10-23 | with distinct keys and between any two cuts, what the shorter prefix shows approximates what the longer one shows if and only if the first cut is not inside a surrogate pair, or every cut from it to the second is |
| PartialGrowth.RepeatedKeyNeedNotGrow | ai/internal/partialjson/partial.go:248-307 | an input for the second condition: cut after the first of two members with one key, the prefix shows what the text does not mean |
| StringRepair.Round | ai/internal/partialjson/repair.go:46-98 | one round of the loop writes the repaired form of the token at the index and moves past it |
| StringRepair.RunRepair | ai/internal/partialjson/repair.go:41-101 | the loop computes the token-by-token repair |
| StringRepair.RepairIdempotent | ai/internal/partialjson/repair.go:41-101 | repairing a repaired text changes nothing |
| StringRepair.RepairKeepsIffClean | ai/internal/partialjson/repair.go:41-101 | the text stays as it is if and only if each of its strings is already valid, malformed u escapes aside |
| StringRepair.RepairKeepsMeaning | ai/internal/partialjson/repair.go:63-96 | the repaired text reads strictly as the original reads leniently, boundary by boundary and character by character, if and only if every u escape has its digits |
| StringRepair.MalformedUnicodeStays | ai/internal/partialjson/repair.go:77-92 | inputs: a string that begins with a u escape of too few digits, whose repair does not read strictly |
| StringRepair.CleanPrefix | ai/internal/partialjson/repair.go:41-101 | a prefix of a clean text is clean unless it ends inside a string |
| RepairReading.MendedReadsAlike | ai/internal/partialjson/repair.go:119-136 | the partial parser reads a repaired text as the text itself, unless it gives up at a backslash that makes no escape; a last backslash apart |
| RepairReading.PrefixMends | ai/internal/partialjson/repair.go:41-101 | of a text whose u escapes are whole: the repair of any prefix, a last backslash apart, is a prefix of the repaired text |
| RepairReading.RepairIsUtf8 | ai/internal/partialjson/repair.go:41-101 | the repair of valid UTF-8 is valid UTF-8 |
| StreamingJson.StrictParseIsPartialParse | ai/internal/partialjson/repair.go:103-117 | where strict parsing of valid UTF-8 succeeds the partial parser gives the same value |
| StreamingJson.JsonNumberIsDocument | ai/internal/partialjson/partial.go:97-137 | every number of the JSON grammar is float syntax, and it is read as a whole document unless it is out of a float64's range |
| StreamingJson.StrictAddsNothing | ai/internal/partialjson/repair.go:103-136 | on every prefix of a valid text whose u escapes are whole or cut, the two strict attempts of ParseStreaming never change its answer: it is the partial parse of the prefix, or of its repair if that fails, and of its repair at once unless the prefix ends in a backslash |
| StreamingJson.ParseStreamingShows | ai/internal/partialjson/repair.go:119-136 | on every prefix of a document in valid UTF-8, raw control characters in its strings or not, the five attempts of ParseStreaming together return what the prefix shows |
| StreamingJson.RepairedTextIsRead | ai/internal/partialjson/repair.go:119-136 | a text whose repair is a whole document in valid UTF-8 is read as that document |
| StreamingJson.StreamedArgumentsGrow | ai/internal/partialjson/repair.go:138-155 | the arguments shown on one delta approximate those shown on any later one, if the delta does not end inside a surrogate pair and none of its keys is given again in between |
| StreamingJson.StreamedArgumentsApproximateIff | ai/internal/partialjson/repair.go:138-155 | the arguments shown on a delta approximate the final ones if and only if the delta does not end inside a surrogate pair |
| StreamingJson.StreamedArgumentsExactly | ai/internal/partialjson/repair.go:138-155 | with distinct keys and between any two deltas: the arguments shown on the earlier one approximate those shown on the later one if and only if it does not end inside a surrogate pair, or every cut between them does |
| LenientText.LenientShows | ai/internal/partialjson/repair.go:119-136 | a text with invalid escapes or raw control characters that Repair makes a document: every prefix without an invalid escape so far, or not ending in a backslash, shows what its repaired text shows of that document |
| LenientText.LenientBackslashShows | ai/internal/partialjson/repair.go:63-67 | any other prefix ends in a backslash that Repair escapes before the rest of its escape is there, and shows what the document would show if that escape were an escaped backslash |
| LenientGrowth.LenientApproximatesIff | ai/internal/partialjson/repair.go:119-155 | with distinct keys, what any prefix of such a text shows approximates the final arguments if and only if it does not end inside a surrogate pair of a value and, where Repair escapes its last backslash early, the escape cut there is one for a backslash and no second half of a pair, or stands in a key |
| LenientGrowth.WholeLenientArguments | ai/internal/partialjson/repair.go:119-155 | the whole of such a text is read as the object that Repair makes of it |
| LenientGrowth.EarlyBackslashIsWrong | ai/internal/partialjson/repair.go:63-67 | an input: an invalid escape, then a line feed escape that is cut before its n |
| EventStream.Stream.Push | ai/stream.go:41-54 | an open stream takes the event, the first terminal one completes it with its message, and a completed stream drops it |
| EventStream.Stream.End | ai/stream.go:60-70 | an open stream completes with the given result, a completed one stays |
| EventStream.Stream.Result | ai/stream.go:149-166 | over the history of all Push and End calls: after a first completing done or error event its message, after an End its message or no result if it had none, and the context's error only if the context is cancelled, always if nothing has completed the stream |
| EventStream.OutcomeIsFirst | ai/stream.go:41-70 | over any calls: the first End or terminal event decides, with a done or error event's message or with what End brought |
| EventStream.OutcomeIsFinal | ai/stream.go:41-70 | no later call changes what the first completing call left as the result |
| StreamPump.PumpPassIsNext | ai/stream.go:78-95 | however other goroutines move in between, one pass of the pump does what next does in one go to the stream as it was when the pass began, with a context that is cancelled if it was at the start and only if it is at the end |
| StreamPump.StepKeepsLocks | ai/stream.go:78-147 | no step of a producer, pump, watcher, consumer or canceller loses a wakeup or breaks the lock discipline |
| StreamPump.LockComesFree | ai/stream.go:41-147 | nobody keeps the lock: its holder frees it by its next step or the one after; while it is free a producer can push or end, and a cancel can come at any time |
| StreamPump.ReachableInvariant | ai/stream.go:41-147 | in every reachable interleaving: no lost wakeup, conservation of events, one terminal event and last, completion once |
| StreamPump.DeliveredInOrder | ai/stream.go:127-147 | the consumer has received a prefix of the accepted events |
| StreamPump.ClosedMeansDrained | ai/stream.go:127-147 | a channel that closes without a cancel has delivered a completed stream whole |
| StreamPump.ResultIsLastMessage | ai/stream.go:41-70 | in every reachable state the result is the message of the last accepted event if that is a done or error event, or what the completing End brought, and the stream is done exactly then |
| StreamPump.ReachableResult | ai/stream.go:41-70 | for every run: the accepted events are those up to the first completing call of the run, and the result is what that call brings |
| StreamPump.CompletionIsFinal | ai/stream.go:41-70 | after completion no run changes the accepted events or the result |
| StreamPump.CancelledPumpExits | ai/stream.go:97-147 | after a cancel pump and watcher take at most ten own steps, are never stuck, and then both are gone |
| StreamPump.CompletedStreamDrains | ai/stream.go:78-147 | a completed stream drains: each pump, watcher or receive step lowers a rank, and when none is left the channel is closed |
| LazyStream.MoveKeepsChain | ai/lazy.go:28-52 | each move of a chain of nested lazy streams keeps every level's conservation and every link between levels |
| LazyStream.OuterIsPrefixOfInner | ai/lazy.go:28-52 | at any depth and at any time a level has accepted a prefix of what a level below accepted, unless a setup between failed |
| LazyStream.FinishedOuterEqualsInner | ai/lazy.go:44-49 | once forwarding has finished the accepted events are equal; the result is the inner one after a terminal event and none otherwise |
| LazyStream.LevelResultIsMessage | ai/lazy.go:28-52 | at every level a done or error event that was accepted last brings its message as the result |
| LazyStream.FailedSetupIsOneError | ai/lazy.go:31-36 | a level is left failed exactly if its setup failed in the run, and then it has exactly one event, an error with the setup's message, which is the result |
| LazyStream.CompletedChainDrains | ai/lazy.go:36-49 | once the adapter's stream is done every move of setups, pumps, forwarders and consumer lowers a rank that nothing raises, and when none can move every level is done and the outermost consumer has received all that was accepted |
| PumpRefinement.RunIsMoves | ai/stream.go:78-147 | every uncancelled run of the pump goroutine and the others around its stream is a run of the coarser pump moves of the lazy streams |
| PumpRefinement.PumpGetsThere | ai/stream.go:78-147 | whenever the coarser pump may take an event or close, the goroutine gets there in at most five steps of its own, which are no other move |
| PumpRefinement.LevelsMoveAlike | ai/lazy.go:36-49 | each level of a chain whose pump runs moves as a stream of its own does, with the level above as its consumer |
| OrphanResults.Inserter.Flush | ai/apis/transform.go:258-272 | a result is added for each pending call without one, in call order |
| OrphanResults.Inserter.Visit | ai/apis/transform.go:274-312 | each message flushes, is dropped, is kept or opens a turn as its kind says |
| OrphanResults.InsertOrphanToolResults | ai/apis/transform.go:253-319 | the loop computes the closed history |
| HistoryClosure.ErasingSyntheticGivesInput | ai/apis/transform.go:253-319 | without its synthetic results the output is the input without its failed turns, in order |
| HistoryClosure.KeptExactlyUnlessFailed | ai/apis/transform.go:281-287 | a message is kept if and only if it is no failed or aborted turn |
| HistoryClosure.SyntheticExactlyForOrphans | ai/apis/transform.go:258-272 | a result is synthesized for a call if and only if the call is replayed and its turn leaves it unanswered |
| HistoryClosure.OutputInOrder | ai/apis/transform.go:253-319 | the output is strictly sorted by place, each synthetic result just before the message that ends its turn |
| HistoryClosure.OutputIsClosed | ai/apis/transform.go:247-252 | no failed turn survives, and each call has a result with its id before the next assistant or user message or the end |
| HistoryClosure.OutputExactly | ai/apis/transform.go:258-272 | what stands in the output: input messages as they are, and for each call without a result an error result that names the call and says that none was provided |
| HistoryClosure.ClosedExactlyWhenUnchanged | ai/apis/transform.go:247-252 | the pass changes nothing if and only if the history is closed already |
| Replay.ReplaceImagesWithPlaceholder | ai/apis/transform.go:101-121 | each run of images becomes one placeholder, none after a text that is one already |
| Replay.Transformer.Block | ai/apis/transform.go:189-245 | a thinking, text or call block for the same or another model, with the normalizer asked for the id and the turn it comes from, and the id map after it |
| Replay.Transformer.One | ai/apis/transform.go:161-184 | one message transformed, results renamed by the map so far |
| Replay.TransformMessages | ai/apis/transform.go:45-58 | the passes one after the other over the whole history |
| ReplayTexts.ForeignTurnSpeaks | ai/apis/transform.go:189-245 | every turn of another model: its visible texts are its texts and the thinking that says something and is not redacted, in order, its calls are the calls it made with the ids they get, and nothing else of it is left or changed |
| ReplayTexts.OwnTurnStays | ai/apis/transform.go:189-227 | a turn of the target model stays as it is, without thinking that says nothing and is neither signed nor redacted |
| ReplayTexts.ImagesStand | ai/apis/transform.go:101-121 | told from neighbours alone: an image behind an image or behind a placeholder leaves nothing, any other a placeholder, and texts stay |
| ReplayStability.ReplayedIsClean | ai/apis/transform.go:45-58 | the output has explicit contents, no image the model cannot read, and only blocks that a turn of its kind keeps |
| ReplayStability.StableExactlyWhenIdsSettle | ai/apis/transform.go:45-58 | replaying the output again changes nothing, at whatever time, if and only if the normalizer asked for its own answer gives it again, for every call in the history of another model's turn that did not fail |
| ReplayStability.IdempotentNormalizerIsStable | ai/apis/transform.go:45-58 | replaying is idempotent for every normalizer that is idempotent on each origin, and for none |
| CallIdRules.AnthropicReplayIsStable | ai/apis/anthropic/anthropic.go:966-982 | replaying twice with Anthropic's id rule is replaying once |
| CallIdRules.CompletionsReplayIsStable | ai/apis/openaicompletions/openaicompletions.go:741-765 | the same for the completions id rule |
| CallIdRules.AnthropicIdExactly | ai/apis/anthropic/anthropic.go:966-982 | the first 64 characters, an underscore for each that is not allowed |
| CallIdRules.CompletionsIdExactly | ai/apis/openaicompletions/openaicompletions.go:741-765 | of an id with a bar the first 40 characters before it, an underscore for each that is not allowed; without a bar the id, for OpenAI the first 40 characters of it |
| CallIdRules.IdSettlesExactly | ai/apis/openairesponses/messages.go:359-419 | the Responses id rule repeats its answer if and only if the id has no bar, or the provider is not among the allowed ones, or the item part settles: another provider's if its hash is its own hash, the own provider's unless the prefix is trimmed away with nothing but underscores behind it |
| CallIdRules.ResponsesReplayStableExactly | ai/apis/openairesponses/messages.go:390-419 | so replaying twice for a Responses target is replaying once if and only if every such id in the history settles |
| CallIdRules.EmptyItemDoesNotSettle | ai/apis/openairesponses/messages.go:413-417 | an input: the id c| of another model of the same provider becomes c|fc and then c|fc_fc |
| CallIdRules.ResponsesIdExactly | ai/apis/openairesponses/messages.go:359-419 | for an allowed provider the part before the bar, a bar, and fc_ with the hash of a foreign item id or the own item part behind fc_; else one part |
| MistralIds.ShortHash | ai/hash.go:14-25 | the hash is at least two letters and digits |
| MistralIds.KnownHashes | ai/hash.go:14-25 | the hashes of the empty text and of a are those that every port gives |
| MistralIds.StripNonAlnum | ai/apis/mistral/mistral.go:360-368 | the letters and digits of a text, in order |
| MistralIds.DeriveMistralToolCallId | ai/apis/mistral/mistral.go:340-358 | the candidate of an attempt, always one to nine letters and digits |
| MistralIds.NineStay | ai/apis/mistral/mistral.go:340-358 | nine letters and digits, whatever stands between them, are their own first candidate and the answer of a normalizer that has not given them to another id |
| MistralIds.OtherCandidates | ai/apis/mistral/mistral.go:340-358 | any other candidate is the first nine characters of a hash of the letters and digits, or of the id, with the attempt behind a colon from the second one on |
| MistralIds.Normalizer.Normalize | ai/apis/mistral/mistral.go:315-335 | a known id gets its answer again, a new one the first candidate that no other id owns, the two maps stay mutually inverse, and the loop goes on after any number of attempts if and only if all their candidates belong to other ids |
| MistralIds.RunAnswersOneToOne | ai/apis/mistral/mistral.go:315-335 | over any run of requests equal ids get equal answers, distinct ids distinct ones, each an id for Mistral |
| ReplayPairing.PairingPreserved | ai/apis/transform.go:161-245 | for every history, target and normalizer: each result belongs to the same calls after the renaming as before if and only if no answered call is mixed up with another or taken apart from one with its id, and no call is renamed from or to the id of a result that comes before every call of its id |
| ReplayPairing.OrphansPreserved | ai/apis/transform.go:161-319 | under that condition the renaming makes no call orphaned and no orphan answered |
| ReplayPairing.MistralKeepsPairing | ai/apis/mistral/mistral.go:315-358 | with the successive answers of Mistral's stateful normalizer the pass is the pass with its final map, whatever collisions it met, and with foreign calling turns and results after their calls it keeps pairing and orphans |
| ReplayPairing.OwnTurnMayCollide | ai/apis/transform.go:228-240 | an input for the first condition: a turn of the target model keeps its id, and another model's call is renamed to it |
| ReplayPairing.EarlyResultLosesItsCall | ai/apis/transform.go:165-171 | an input for the second: a result that stands before its call is not renamed with it |
| CredentialStore.InMemoryCredentialStore.ProviderLock | ai/credentialstore.go:28-37 | each provider keeps one lock, different from every other provider's |
| CredentialStore.InMemoryCredentialStore.Read | ai/credentialstore.go:39-43 | the stored credential, or none |
| CredentialStore.InMemoryCredentialStore.Modify | ai/credentialstore.go:45-69 | the stored credential is replaced exactly when the callback gives another, and locks are released |
| CredentialStore.InMemoryCredentialStore.Delete | ai/credentialstore.go:71-79 | the provider's credential is gone, the others stay |
| CredentialStore.ResolveStoredOAuth | ai/resolve.go:141-186 | an unexpired credential is used and the store stays; for an expired one what is stored decides: nothing or an API key gives no auth, a credential unexpired under the lock is used, an expired one is refreshed, stored and used, and a failed refresh is passed on and leaves the store alone |
| OAuthRefresh.StepKeepsInvariant | ai/resolve.go:138-186 | no step of any number of requests, logins and logouts breaks the lock, sight, write and exchange invariants |
| OAuthRefresh.RefreshesNeverOverlap | ai/resolve.go:150-166 | in every reachable state at most one process refreshes a provider |
| OAuthRefresh.RefreshConsumesTheStored | ai/resolve.go:153-166 | from the start of a refresh to its write the store holds exactly the credential the refresh was given |
| OAuthRefresh.VersionsExchangedOnce | ai/resolve.go:138-165 | no stored version is exchanged twice |
| OAuthRefresh.ExchangedIsReplaced | ai/resolve.go:138-165 | while a provider's lock is free, no version that was ever exchanged for it is stored |
| OAuthRefresh.HandedCredentialIsVouched | ai/resolve.go:148-185 | a credential handed to ToAuth was unexpired at a check of that request, or is the one the request refreshed and stored |
| OAuthRefresh.OnlyExpiredAreRefreshed | ai/resolve.go:150-166 | a request refreshes a credential only after a check of its own that saw it expired under the lock |
| OAuthRefresh.StoredIsRefreshed | ai/resolve.go:153-165 | at any time, what a request has stored is what a refresh of its own brought |
| OAuthRefresh.RequestEndsExactly | ai/resolve.go:138-186 | a request that is over failed exactly if its refresh did, with that error; it hands a credential on exactly if it came to derive; it ends with what its refresh brought; and with nothing only if it found no OAuth credential, before or under the lock |
| OAuthRefresh.LoginEndsExactly | ai/auth.go:138-159 | a login fails exactly if the provider's login did, and stores exactly what that brought |
| OAuthRefresh.StoredIsLastWritten | ai/credentialstore.go:45-79 | after any run a provider's stored credential is what the last write for it stored, or none if the last such step was a logout |
| OAuthRefresh.RestStoresNothing | ai/credentialstore.go:45-79 | a run that neither writes nor deletes a provider's credential leaves it alone |
| OAuthRefresh.NobodyIsStuck | ai/resolve.go:138-186 | in every reachable state a process that is not at its end can step, or the holder of its provider's lock can |
| OAuthRefresh.StepBringsNearer | ai/resolve.go:138-186 | only a process's own steps move it, and each brings it nearer to its end |
| OAuthRefresh.FailureStoresNothing | ai/resolve.go:153-177 | a request that failed or met a logout has written nothing |
| BlockEvents.WatchedMeaning | ai/events.go:28-106 | an event sequence that the protocol monitor accepts starts its blocks in index order, and each index has one start, then deltas of its kind, then at most one end, and nothing after |
| TextBlocks.BlockWriter.CloseCurrent | ai/apis/google/stream.go:67-81 | the open block ends with what it holds |
| TextBlocks.BlockWriter.AppendDelta | ai/apis/mistral/stream.go:71-98 | a delta of the other kind closes the open block and opens one first |
| GoogleDecoder.Decoder.NextToolCallId | ai/apis/google/stream.go:41-56 | the provided id unless it is empty or taken, else the name and the next number, which other streams may have advanced |
| GoogleDecoder.Decoder.ReadPart | ai/apis/google/stream.go:107-166 | a part's text goes to the block of its kind, its call comes as a whole block |
| GoogleDecoder.Decoder.DecodeStream | ai/apis/google/stream.go:61-194 | the chunk loop computes the decoded state, up to a chunk that cannot be parsed |
| GoogleDecoder.GoogleKeepsProtocol | ai/apis/google/stream.go:61-194 | for every chunk sequence the events keep the protocol, and when it is read to the end every block has ended with its final content, whose text is the concatenation of its deltas |
| GoogleDecoder.GoogleKeepsText | ai/apis/google/stream.go:108-142 | the text deltas, and likewise the thinking deltas, spell the received text in order |
| GoogleDecoder.GoogleMessageExactly | ai/apis/google/stream.go:61-194 | for every chunk sequence the message is exactly: a block for each run of text parts of a kind with the run's text and last signature, and each call with its name, arguments, signature and the id it is given |
| GoogleDecoder.GeneratedIdsDiffer | ai/apis/google/stream.go:54-55 | ids generated under different numbers or names are different |
| GoogleDecoder.IdsDistinctExactly | ai/apis/google/stream.go:41-56 | for every chunk sequence, and whatever numbers other streams take in between: the ids of the message's calls are distinct if and only if no call had to get a generated id that the server had provided for an earlier one |
| GoogleDecoder.GuessedIdRepeats | ai/apis/google/stream.go:41-56 | an input: the server provides a_1, and then leaves out the id of the first call to a that needs one |
| MistralDecoder.Decoder.EnsureCall | ai/apis/mistral/stream.go:167-189 | a delta goes to the block of its id and index, which is opened if there is none |
| MistralDecoder.Decoder.ReadChoice | ai/apis/mistral/stream.go:155-200 | content items, then the tool deltas, after closing the open block |
| MistralDecoder.Decoder.CloseTools | ai/apis/mistral/stream.go:204-209 | the tool blocks end in the order they were opened |
| MistralDecoder.Decoder.DecodeStream | ai/apis/mistral/stream.go:47-212 | the chunk loop computes the decoded state |
| MistralDecoder.MistralKeepsProtocol | ai/apis/mistral/stream.go:47-212 | for every chunk sequence the events keep the protocol; read to the end, each text block is the concatenation of its deltas and a call's arguments are what its concatenated deltas parse to |
| MistralDecoder.MistralRoutesArguments | ai/apis/mistral/stream.go:167-209 | the deltas of one id and index reach one block, whose final arguments are what they spell together |
| MistralDecoder.MistralKeepsText | ai/apis/mistral/stream.go:156-162 | the text deltas, and likewise the thinking deltas, spell the received text in order |
| MistralDecoder.MistralMessageExactly | ai/apis/mistral/stream.go:155-200 | for every chunk sequence the message is, apart from the arguments: a block for each run of text items of a kind, which a chunk with calls breaks, and one call for each id and index, with the name of its first delta |
| MistralDecoder.KeyExactly | ai/apis/mistral/stream.go:167-190 | a delta's key is its id and index; a missing index is 0, and a missing id is made from the index |
| CompletionsDecoder.Decoder.ReadText | ai/apis/openaicompletions/openaicompletions.go:1176-1182 | text goes to the one text block |
| CompletionsDecoder.Decoder.ReadThinking | ai/apis/openaicompletions/openaicompletions.go:1184-1195 | reasoning goes to the one thinking block, and only from the field that opened it |
| CompletionsDecoder.Decoder.PlaceCall | ai/apis/openaicompletions/openaicompletions.go:1080-1103 | the block of a delta by index, else by id, else a new one, and both maps after it |
| CompletionsDecoder.Decoder.ReadCall | ai/apis/openaicompletions/openaicompletions.go:1104-1214 | a pending reasoning detail is applied, then the delta extends its block |
| CompletionsDecoder.Decoder.ReadDetail | ai/apis/openaicompletions/openaicompletions.go:1216-1232 | a reasoning detail signs its call or waits for it |
| CompletionsDecoder.Decoder.DecodeEvents | ai/apis/openaicompletions/openaicompletions.go:1045-1254 | the chunk loop and the ends after it compute the decoded state, or the state at a read that fails |
| CompletionsProtocol.CompletionsKeepProtocol | ai/apis/openaicompletions/openaicompletions.go:1045-1254 | for every chunk sequence the events keep the protocol and, unless a read failed, even without a finish reason every block ends with its final content, text as its deltas, arguments as what its deltas parse to |
| CompletionsProtocol.SameIndexSameBlock | ai/apis/openaicompletions/openaicompletions.go:1080-1103 | deltas with the same index reach the same block, whatever ids they carry |
| CompletionsRouting.SameBlockSameHome | ai/apis/openaicompletions/openaicompletions.go:1080-1103 | for every chunk sequence two deltas reach the same block if and only if one delta opened the block of both, told from indices and ids alone: each joins the last with its index, else the last with its id, else none |
| CompletionsRouting.SameIdSameBlockExactly | ai/apis/openaicompletions/openaicompletions.go:1080-1103 | for every chunk sequence all deltas with one id reach the same block if and only if none of them carries an index that an earlier delta had led to another block |
| CompletionsRouting.SameIdMayMove | ai/apis/openaicompletions/openaicompletions.go:1098-1103 | an input: an index that another call opened takes the id over |
| CompletionsProtocol.CompletionsCollectArguments | ai/apis/openaicompletions/openaicompletions.go:1197-1248 | a call's final arguments are what the deltas routed to its block spell together |
| CompletionsIdentity.CompletionsNameCalls | ai/apis/openaicompletions/openaicompletions.go:1197-1205 | for every chunk sequence a call's name is the first non-empty name, and its id the first non-empty id, among the deltas that were routed to its block |
| CompletionsIdentity.CompletionsSignCalls | ai/apis/openaicompletions/openaicompletions.go:1104-1118 | for every chunk sequence a call's signature is what a ledger of deltas and details says: the last detail whose id a delta of the call carried last, or one that waited for the call |
| CompletionsIdentity.SignedByLastDetailExactly | ai/apis/openaicompletions/openaicompletions.go:1104-1232 | wherever the details come between the deltas, a call's signature is the last detail with its id, if and only if the call's first delta carries its id, its deltas carry no other, and no other call's delta carries it |
| CompletionsIdentity.LateIdSigns | ai/apis/openaicompletions/openaicompletions.go:1104-1118 | inputs: for a call that learns its id late, details after which an older one, or none, signs it |
| CompletionsIdentity.CompletionsSignByLastDetail | ai/apis/openaicompletions/openaicompletions.go:1045-1254 | so in every stream with such deltas the call ends signed by the last detail that came with its id |
| CompletionsIdentity.CompletionsBlocksExactly | ai/apis/openaicompletions/openaicompletions.go:1062-1079 | there is a text block exactly if some content is not empty, a thinking block exactly if some reasoning is, signed with the name of the first field that came, and every other block is a call |
| CompletionsIdentity.CompletionsEndExactly | ai/apis/openaicompletions/openaicompletions.go:1235-1254 | a failing read fails the stream; otherwise it is complete exactly if some chunk brought a finish reason |
| ArgumentDelivery.CompletionsDeliverArguments | ai/apis/openaicompletions/openaicompletions.go:1197-1248 | however the text of an object, or a text that Repair makes one, was cut into deltas, the call ends with that object as its arguments |
| ArgumentDelivery.MistralDeliversArguments | ai/apis/mistral/stream.go:167-209 | the same for a Mistral call |
| CompletionsProtocol.CompletionsKeepText | ai/apis/openaicompletions/openaicompletions.go:1176-1195 | the text block spells the received content, and the thinking block the received reasoning of the first field that came, in order |
| ResponsesDecoder.Decoder.CreateSlot | ai/apis/openairesponses/stream.go:83-110 | an item opens a block and a slot, in place of a slot that was there |
| ResponsesDecoder.Decoder.SetArguments | ai/apis/openairesponses/stream.go:178-191 | the whole argument text replaces the buffer; what it adds goes out as a delta |
| ResponsesDecoder.Decoder.FinishItem | ai/apis/openairesponses/stream.go:193-236 | a finished item of its slot's kind ends the block and frees the slot |
| ResponsesDecoder.Decoder.DecodeStream | ai/apis/openairesponses/stream.go:70-258 | the event loop computes the decoded state and how the stream ended |
| ResponsesDecoder.ResponsesFollow | ai/apis/openairesponses/stream.go:70-258 | for every event sequence live slots lead injectively to running blocks of their kind, the events keep the protocol, and a running text block is the concatenation of its deltas |
| ResponsesDecoder.DeltaReachesItsSlot | ai/apis/openairesponses/stream.go:145-167 | a text or thinking delta reaches the block of its index's slot, if that is of its kind, and no other block |
| ResponsesMessage.ResponsesMessageExactly | ai/apis/openairesponses/stream.go:70-258 | for every event sequence the message is exactly: the items that were added, or done without being added, in order, each grown by the events of its index until it is done or replaced, a call with its id and name, a done item as its last event says |
| ResponsesItems.ItemsRecorded | ai/apis/openairesponses/stream.go:70-258 | for every event sequence: each item has its own block, which ends exactly if the item finishes; a call's deltas are those that its own pieces make, it shows what its text so far parses to, and ends with what its final text parses to |
| ResponsesItems.OnlyReplacedSlotsAreLost | ai/apis/openairesponses/stream.go:83-117 | for every event sequence, at its end every block that still runs can be reached if and only if no item was added under an index whose item was not done |
| ResponsesItems.SecondItemLosesTheFirst | ai/apis/openairesponses/stream.go:83-117 | an input: two items added under one index, of which the second is done |
| ResponsesItems.ArgumentsSpelledExactly | ai/apis/openairesponses/stream.go:97-236 | a whole call, in every event sequence: its deltas spell its argument text after every piece, and in the end its final text, if and only if it was added without arguments, every whole text extended the text before it, and the finished item brought no arguments or the text so far; no arguments at all count as {} |
| ResponsesItems.AgreeAtTheEnd | ai/apis/openairesponses/stream.go:169-191 | at the end alone deltas and text agree if and only if the last whole text that did not extend the text before it is what had been spelled by then, or, without one, the call was added without arguments |
| ResponsesItems.OpeningIsNotSpelled | ai/apis/openairesponses/stream.go:97-104 | an input: added with an open brace, then the whole text of an empty object |
| ResponsesItems.FinalArgumentsAreNotSpelled | ai/apis/openairesponses/stream.go:222-235 | an input: a finished item that brings arguments of which no delta told |
| ResponsesItems.AgreementMayReturn | ai/apis/openairesponses/stream.go:178-191 | an input: a whole text takes back what was spelled and a later one gives it again |
| ArgumentDelivery.ResponsesDeliverArguments | ai/apis/openairesponses/stream.go:145-236 | the same for a Responses call that has ended, whatever other items came in between, with the text that its own events leave |
| AnthropicDecoder.Decoder.FindBlock | ai/apis/anthropic/anthropic.go:367-374 | the first block that was opened with the event index |
| AnthropicDecoder.Decoder.AddPiece | ai/apis/anthropic/anthropic.go:460-507 | a delta of the block's kind extends that block, any other is ignored |
| AnthropicDecoder.Decoder.StopBlock | ai/apis/anthropic/anthropic.go:509-530 | the block ends with what it holds, a call with its parsed text |
| AnthropicDecoder.Decoder.DecodeEvents | ai/apis/anthropic/anthropic.go:361-562 | the event loop computes the decoded state |
| AnthropicDecoder.AnthropicFollows | ai/apis/anthropic/anthropic.go:361-562 | for every event sequence block list and content keep equal length and kinds, and each block holds exactly the deltas emitted for it |
| AnthropicDecoder.DeltaReachesItsBlock | ai/apis/anthropic/anthropic.go:460-507 | a delta reaches the first block that was opened with its index, if that is of its kind, and no other block |
| AnthropicMessage.AnthropicMessageExactly | ai/apis/anthropic/anthropic.go:361-562 | for every event sequence the message is exactly: the blocks that were started, in order, a call with its id and name, the first of each index with all text, thinking and signature sent to that index and with what all its JSON text parses to |
| AnthropicMessage.AnthropicEndsExactly | ai/apis/anthropic/anthropic.go:531-562 | an error event fails the stream; without one it is truncated if the message started and did not stop |
| AnthropicDecoder.ProtocolKeptExactly | ai/apis/anthropic/anthropic.go:460-530 | for every event sequence the events keep the protocol if and only if the server sends no second stop of an index that it opened, and after its stop no delta of the kind of the first block opened under it, signatures apart |
| AnthropicDecoder.SecondStopBreaksProtocol | ai/apis/anthropic/anthropic.go:509-530 | an input: one start and two stops |
| AnthropicDecoder.AnthropicCollectsArguments | ai/apis/anthropic/anthropic.go:460-530 | for every event sequence a call that received JSON text has as arguments what all the text sent to its index parses to |
| ArgumentDelivery.AnthropicDeliversArguments | ai/apis/anthropic/anthropic.go:460-530 | if that text is an object's, or Repair makes it one, the arguments are that object |
| ArgumentDelivery.AnthropicInputIsReplaced | ai/apis/anthropic/anthropic.go:509-530 | a stop without deltas leaves the empty object, whatever input the start brought |
| SseReader.Reader.ReadLine | ai/internal/sse/sse.go:69-97 | the next line as splitting on CRLF, CR or LF gives it, or the end |
| SseReader.Reader.ConsumeFieldLine | ai/internal/sse/sse.go:101-124 | the effect of a field line on the pending event |
| SseReader.Reader.Next | ai/internal/sse/sse.go:46-66 | the next event that a blank line dispatches, or the end |
| SseReader.ReadAll | ai/internal/sse/sse.go:46-97 | reading to the end gives the events of the text |
| SseReader.TerminatorDoesNotMatter | ai/internal/sse/sse.go:69-97 | whichever terminator ends all lines, the same lines are read |
| SseReader.PrefixEvents | ai/internal/sse/sse.go:46-97 | a byte prefix gives a prefix of the events |
| SseReader.EncodedReadsBack | ai/internal/sse/sse.go:46-124 | events written with any uniform terminator are read back, for fields without CR and LF and data without CR |
| SseReader.FieldsRead | ai/internal/sse/sse.go:46-124 | groups of fields, with or without a space, with unknown names, comments and repetitions, data or not, under any terminator, are read as the events they mean |
| DeviceCode.Wait | ai/auth/oauth/devicecode.go:171-184 | a sleep of the interval, or up to the deadline, or none when the code has expired |
| DeviceCode.PollOnce | ai/auth/oauth/devicecode.go:137-169 | one poll, right after a reading before the deadline; a slow_down sets or raises the interval |
| DeviceCode.PollDeviceCodeFlow | ai/auth/oauth/devicecode.go:100-191 | polls and sleeps take turns, no poll is made at or after the deadline or in a cancelled context, no sleep goes past the deadline, at most one poll per second of life, the interval as the answers so far say; only the last poll decides, and the slow_down timeout comes if and only if it timed out after some slow_down; it is cancelled only if the context was at the last act or that is an interrupted sleep; it ends with a deadline, or once the context stays cancelled |
| DeviceCode.IntervalExactly | ai/auth/oauth/devicecode.go:107-160 | the interval is the one that the server named last, at the start or with a slow_down, five seconds if none, and five seconds more for each slow_down since |
| CodexTransport.Client.ProcessWebSocket | ai/apis/codex/websocket.go:343-398 | one connection: a start event with the first forwarded message, frames decoded up to the terminal one |
| CodexTransport.Client.AttemptWebSocket | ai/apis/codex/websocket.go:213-234 | at most two dials, the second after a connection limit before any output |
| CodexTransport.Client.AttemptWebSocketOrFallback | ai/apis/codex/codex.go:196-235 | success and final errors resolve the request, a silent transport failure does not, and the session is remembered |
| CodexTransport.Client.Run | ai/apis/codex/codex.go:142-184 | the transports a request uses, what it pushes and what it leaves in the session memory |
| CodexTransport.EveryLogIsWellFormed | ai/apis/codex/codex.go:142-259 | at most one start event, first, and exactly one terminal event, last |
| CodexTransport.SseOnlyAfterSilence | ai/apis/codex/codex.go:212-234 | once a request dials, SSE is used if and only if the last connection, the second after a limit error at once, does not come about or brings no message, and the request is not cancelled by then; nothing was forwarded then and the message is still empty |
| CodexTransport.InBandErrorsAreFinal | ai/apis/codex/codex.go:212-221 | an in-band error or malformed JSON in the last connection, before a frame that ends it: the request ends with an error event, the blocks are those of the frames before, SSE is not tried and the session is not remembered |
| CodexTransport.OnlyMessagesBreak | ai/apis/codex/websocket.go:343-398 | an attempt fails other than as a transport only at such a message |
| CodexTransport.SecondDialExactly | ai/apis/codex/websocket.go:213-234 | there is a second dial if and only if the first message reports the connection limit and the request was not cancelled |
| CodexTransport.BlocksKeepProtocol | ai/apis/codex/codex.go:142-184 | whatever transports were used, the block events keep the block protocol |
| CodexRequests.RequestExactly | ai/apis/codex/codex.go:142-259 | what every request comes to, told from the messages: which transport serves it, the decoded frames or body, whether a start event was pushed, and that it ends with a done event if and only if the response completed, was read whole, and was neither cancelled nor stopped in error |
| CodexRequests.LogShowsAll | ai/apis/codex/codex.go:142-259 | the consumer sees all the block events of the message and no others, and the terminal event last |
| CodexRequests.DialsExactly | ai/apis/codex/codex.go:142-235 | one run after the other: a request makes no WebSocket connection if and only if it asks for SSE, or an earlier request of its session, not cancelled, met a last connection that did not come about, whose read failed, or that ended with a failure frame |
| CodexRequests.FallbackIsForever | ai/apis/codex/websocket.go:119-175 | the same however requests interleave, each looking at the memory when it starts and recording when it gives up |
| SingleFlight.StepKeepsInvariant | ai/provider.go:408-440 | no step of any number of callers breaks the single-flight invariant |
| SingleFlight.OneFetchAtATime | ai/provider.go:413-425 | at most one fetch is in the air |
| SingleFlight.ModelsComeFromLatestFetch | ai/provider.go:427-432 | the list is the initial one or that of the latest successful fetch, or the one before while that is being stored |
| SingleFlight.PublishedIsFetched | ai/provider.go:423-440 | the published errors are those that the fetches of the run brought, in order, at most one still to come |
| SingleFlight.FetchesInFlightOrder | ai/provider.go:413-425 | every fetch of a run is that of the flight its caller led, so fetches come in the order of flights |
| SingleFlight.ModelsAreTheLastFetched | ai/provider.go:427-432 | the list is the initial one, or that of the last successful fetch of the run, or the one before while that is being stored |
| SingleFlight.ReturnedErrorIsOfThisFlightOrLater | ai/provider.go:414-422 | a caller returns the error of its flight or of a later published one |
| SingleFlight.CallersReturnFetchedErrors | ai/provider.go:414-440 | a caller that fetched returns what its fetch brought, and one that waited what the fetch of the flight it joined, or of a later one, brought |
| SingleFlight.WaiterNeverStuck | ai/provider.go:414-440 | a waiter can wake once its flight has closed, and until then a leader is at most four enabled steps from closing it |
| SingleFlight.OthersNeverStuck | ai/provider.go:414-440 | a caller can call, a leader can take its next step whatever its fetch brings, and a caller that woke returns the last error |
| SingleFlight.LeaderAdvances | ai/provider.go:423-440 | a leader's own steps bring it nearer to closing, and no other step moves it |

## Left out

- GoogleDecoder.Decoder.NextToolCallId: does not promise that ids are unique, because a generated id may equal one that the server provided before; IdsDistinctExactly says exactly when; the counter does not wrap around.
- MistralIds.Normalizer.Normalize: does not promise that some attempt gives a free candidate, which rests on the hash; it says what holds after any number of attempts.
- Replay: a normalizer may read the provider, API and model of the turn a call comes from, which is all that those of the repository read, and not the rest of the turn.
- CallIdRules.ResponsesReplayStableExactly: does not say which item ids are their own hash's hash.
- OAuthRefresh.HandedCredentialIsVouched: a credential that the request itself refreshed may have expired again, as in the source.
- SingleFlight.ReturnedErrorIsOfThisFlightOrLater: a waiter reads the last error after waking, so a later flight's error is possible, as in the source.
- Tool blocks in the Mistral and completions decoders are positions in the order list instead of shared references; the maps hold those positions.
- encoding/json: strict parsing is a specification function over syntax trees; its replacement of invalid UTF-8 is modelled but no theorem is about it, its depth limit is not modelled, and float64 values are kept as text.
- Strict white-space trimming knows the four JSON spaces; other Unicode spaces lead to the same empty object.
- Usage, cost and stop-reason fields, service tiers and partial-message snapshots of the decoders.
- Message timestamps: one reading of the clock stands for all synthetic results of a call.
- Bedrock's decoder: it asserts a block's kind without looking, so it would need a condition on the server that the other decoders do not.
- ResolveProviderAuth's precedence, API-key resolution and environment overlays: branching without state.
- HTTP, WebSocket dialing, TLS, zstd, OAuth endpoints, file stores, the AWS SDK and the command line.
- Codex debug statistics: only the fallback memory decides anything.
- Raw line breaks inside a Codex WebSocket message, which would break its framing as one SSE event.
- Image generation, catalog data, headers, compatibility tables, retry and overflow classifiers, and JSON-schema coercion.
