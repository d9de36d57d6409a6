# subbier: a verified model of its core

subbier stands between the Codex and Claude clients and several subscriptions to them. This project models
the parts of it where a mistake is hard to see by reading one function, and proves what they promise.

* **The router** (`Balance`, `Strategy`, `Router`, `RouterRuns`, `SelectAlone`, `SelectOrder`, `RouterWorld`). A
  select holds the lock twice, with a usage round in between; everything else may run between the two sections.
  `Router` is the class whose methods are the lock sections, each proved equal to a function on states;
  `RouterWorld` takes those sections as the steps of a run, any number of callers interleaved, time passing.
* **Failover** (`Attempts`, `Failover`). One request's loop over the same run: every lock section of ours and of
  others is an entry of one log, and what the loop did is a relation on that log.
* **The event stream** (`SseFramer`, `SsePayload`, `SseAggregate`, `SseRewrite`, `JsonText`, `CodexStream`,
  `SseRoundTrip`). The incremental framer against a rescan of the whole buffer, against a parser that reads a line at
  a time (sections 9.2.5 and 9.2.6 of the WHATWG HTML Living Standard), and against events written out; the fold to
  one response; the rewriter; the streamed exchange.
* **Single-flight refresh** (`SingleFlight`). The map of shared cells, and every interleaving of callers that
  join, drive, await, abandon and retire them.
* **Text that is read back** (`Text`, `LaunchAgent`, `ConfigLines`, `CodexSetup`, `CodexMerge`, `ConfigWrite`,
  `Quoting`, `ClaudeIdentity`).
* **Counters and series** (`TokenRing`, `Metrics`, `History`).

Where the code does not do what its documentation or a natural reading promises, the model keeps the code and a
lemma says exactly when the promise holds:

* An item without an output index may overwrite another, exactly when an item holds the last 64-bit index
  (`UnindexedItemKept`, `LastIndexIsOverwritten`).
* The frame list shows the chunking exactly when a cut falls inside a separator between `\r` and `\n` (`CutsShow`,
  for any number of cuts); the payloads never do.
* The second section of a select does not sweep, so `AllExhausted` may name a reset that has passed
  (`CommitReportsSoonest`; `RouterWorld.StaleRefusal` is a run from the start that gets there).
* A refresh entry stays in the map for good exactly when every caller of its cell was cancelled
  (`EntryLeftBehind`, `CancelledEntryStays`).
* The `config.toml` merge is idempotent exactly when the base URL holds no line feed (`IdempotentIffOneLine`).
* `config.toml` reads back as wanted exactly when the base URL holds no control character but the tab
  (`ReadersFindWanted`).
* fish reads a quoted value back exactly when it is not `%self`, which stays bare and which fish replaces
  (`FishReadsBack`, `SelfIsBare`).
* A configuration key reads back what was set exactly when every node the set has to make is named by a KDL
  identifier (`GetAfterSet`); a name such as `a b` sets another key (`SpacedPartLeaks`).
* Setting the configuration key `sub` re-addresses `sub` nodes (`SettingSub`), and the first `sub.` key makes `sub`
  readable (`NamingTheFirstSub`).
* A held value has no time limit when buckets are shorter than a millisecond or the hold is negative by a bucket or
  more (`HeldWithinReach`).
* With times out of order, a read of the token ring falls short by exactly the ticks a later-dated event expired
  (`LateReadMisses`, `EarlierReadMisses`).

Sources are cited under `crates/`. The JSON reader and writer are parameters (`Json.Codec`); where a result needs
them, it assumes `SseRewrite.Lawful`: written text reads back as the same value, for every value whose keys are unique
and whose floats fit 64 bits, and is one line that trimming keeps. `JsonText` writes out such a codec. The KDL parser
is a parameter too (`ConfigWrite.Kdl`), and its law is met likewise (`SomeKdlIsLawful`).

## Model

| member | source | states |
|---|---|---|
| Balance.UsedUpByEither | crates/libsubby/src/balance/mod.rs:199-205 | a sub is used up if and only if the provider says so or one window alone is full |
| Balance.WorseOfBoth | crates/libsubby/src/balance/mod.rs:190-197 | the percentage it is judged by is the least that no window exceeds, a window not known standing at zero |
| Balance.CaseIsIgnored | crates/libsubby/src/balance/mod.rs:28-60 | whether a body speaks of a usage limit does not depend on the case of its letters |
| Balance.QuarantineEnd | crates/libsubby/src/balance/mod.rs:212-234 | a quarantine ends strictly after it is recorded: at the latest future reset of a full window, else the earliest future reset, else five minutes on |
| Balance.OnlySpentOrRefusedMovesOn | crates/libsubby/src/balance/mod.rs:62-169 | a reply quarantines its sub and moves on if and only if it is not about the request and says a usage limit, or is a 401 that outlived its retry; a first 401 is tried again |
| Strategy.CompareIsTotal | crates/libsubby/src/balance/strategy.rs:90-175 | each ranking is a total order in which only the same sub can tie |
| Strategy.PickIsLeast | crates/libsubby/src/balance/strategy.rs:104-113 | no candidate ranks before the one picked |
| Strategy.RankingsMean | crates/libsubby/src/balance/strategy.rs:115-175 | lowest usage, highest usage below full, and fewest connections, each as the user is told |
| Strategy.RoundRobinNext | crates/libsubby/src/balance/strategy.rs:148-164 | the pick is the least sub after the cursor, or the least of all when none is after it |
| Strategy.PickIgnoresOrder | crates/libsubby/src/balance/strategy.rs:115-175 | the pick and the cursor do not depend on how candidates are listed or repeated |
| Strategy.BoundedWaiting | crates/libsubby/src/balance/strategy.rs:148-164 | over arbitrarily changing offers and from any cursor, a sub always on offer is picked after at most one pick of each other sub ever offered |
| Strategy.FixedSetCycles | crates/libsubby/src/balance/strategy.rs:148-164 | on a fixed set of n subs, n picks in a row take each exactly once |
| Router.Router.SetSettings | crates/libsubby/src/balance/mod.rs:551-557 | the whole new state: settings replaced, the cursors cleared only with a new strategy |
| Router.Router.ExhaustAt | crates/libsubby/src/balance/mod.rs:499-511 | the quarantine is recorded and the sub leaves every slot holding it, in the array in place |
| Router.Router.LiftIfRecovered | crates/libsubby/src/balance/mod.rs:606-622 | lifts only on an all-clear or a fall of ten points, after sweeping |
| Router.Router.OnFailureAt | crates/libsubby/src/balance/mod.rs:657-673 | records a quarantine whatever auto-switch says, and turns a rotation into a pass-through while it is off |
| Router.Router.EligibleIn | crates/libsubby/src/balance/mod.rs:630-655 | the sorted subs a request could use now, after sweeping |
| Router.Router.SelectBegin | crates/libsubby/src/balance/mod.rs:686-802 | the first lock section of a select: the whole new state and how it ends |
| Router.Router.SelectCommit | crates/libsubby/src/balance/mod.rs:804-861 | the second lock section: quarantine what the figures report, rank what is left, set current and cursor |
| RouterRuns.SelectSound | crates/libsubby/src/balance/mod.rs:678-861 | whatever state it resumes in, a successful select returns a sub with a status that is enabled, logged in, of the provider, a member of the pool and below its ceilings, not quarantined when it began nor at commit |
| RouterRuns.RefusedExactly | crates/libsubby/src/balance/mod.rs:686-745 | the first section refuses if and only if the provider is not proxied, no status is ready, none of those is a member, none is below the ceilings, or all of these are quarantined past now; each with its own error |
| RouterRuns.CommitRanks | crates/libsubby/src/balance/mod.rs:804-861 | the sub committed stands at a listed position not quarantined, before which the strategy, said in that position's own figure and counts, ranks no other; the reason, the count and the cursor are as reported |
| RouterRuns.NewStrategyStartsOver | crates/libsubby/src/balance/mod.rs:551-557 | new settings move nobody; after a change to round robin the least sub comes first |
| RouterRuns.RenewedIfSaid | crates/libsubby/src/balance/mod.rs:817-827 | the subs scoring quarantines are those whose own figure says a window is full or the limit reached |
| RouterRuns.LiftedAfter | crates/libsubby/src/balance/mod.rs:606-622 | a quarantine not yet over is lifted if and only if the provider gives the all-clear or every figure is ten points below one of those it was recorded with; no other is touched |
| RouterRuns.BeginReportsSoonest | crates/libsubby/src/balance/mod.rs:731-745 | an early `AllExhausted` carries the minimum quarantine end, still to come |
| RouterRuns.CommitReportsSoonest | crates/libsubby/src/balance/mod.rs:813-851 | a late one carries the minimum too, and it lies in the future if and only if no sub is held by a lapsed quarantine the figures do not renew |
| RouterRuns.ScoreEffect | crates/libsubby/src/balance/mod.rs:817-827 | scoring quarantines exactly the subs whose fetched figures say used up, and frees their slots |
| SelectAlone.SucceedsIffEligible | crates/libsubby/src/balance/mod.rs:624-651 | run alone without usage figures, a select succeeds if and only if `eligible_in` lists a sub, picks one it lists and reports how many |
| SelectAlone.EligibleMeans | crates/libsubby/src/balance/mod.rs:630-655 | `eligible_in` lists in ascending order exactly the subs with a ready status admitted by the pool and no quarantine past now |
| SelectAlone.ListOrderIsIrrelevant | crates/libsubby/src/balance/mod.rs:678-861 | the whole result and the state left do not depend on the order of the status list |
| SelectOrder.Precedence | crates/libsubby/src/balance/mod.rs:747-799 | pin, frozen current, conversation, cache key, sticky current: each is returned, with its reason, exactly when it is usable and those before it are not; ranking only when none is |
| SelectOrder.PinIsHonoured | crates/libsubby/src/balance/mod.rs:559-562 | once pinned, a sub is what every select returns that may use it; nothing else changes |
| SelectOrder.ClearedIsForgotten | crates/libsubby/src/balance/mod.rs:576-579 | once cleared, a current sub is not kept to by the next select of its provider; the other provider's stays |
| RouterWorld.CurrentIsNeverQuarantined | crates/libsubby/src/balance/mod.rs:475-511 | in every state any interleaving reaches, the current sub of a provider belongs to it and is not quarantined |
| RouterWorld.QuarantinesExactly | crates/libsubby/src/balance/mod.rs:494-673 | a step quarantines a sub if and only if it reports it used up, fails it for its limit or its credentials, or commits figures that say it is used up; no other step records or changes a quarantine |
| RouterWorld.QuarantineWasRecorded | crates/libsubby/src/balance/mod.rs:494-510 | every quarantine standing was recorded by one such step of the run, unchanged since, with an end after that step's time |
| RouterWorld.StaleRefusal | crates/libsubby/src/balance/mod.rs:731-851 | a run from the start whose next step refuses with a reset at that very moment, while a fresh select would go ahead |
| Attempts.RunAttempt | crates/libsubby/src/proxy/codex.rs:420-714 | one attempt with its loop: refresh, send, retry a 401 once, repeat a broken exchange once, classify; a success answers what its body handler answers, 502 without a terminal event |
| Attempts.SuccessAnswers | crates/libsubby/src/proxy/codex.rs:445-520 | a success, at once or after a 401 and a refresh, is answered as its body was, and records nothing but what its headers say |
| Attempts.FailureAnswers | crates/libsubby/src/proxy/codex.rs:522-583 | a failure is recorded last as what its deciding reply says, and rotates or is answered with its own status |
| Attempts.DeathAsksAgain | crates/libsubby/src/proxy/codex.rs:484-520 | a body that died has the exchange asked for once more; only two deaths end it with 502 |
| Attempts.NoReplyFails | crates/libsubby/src/proxy/codex.rs:448-482 | without a reply, first or second, the attempt ends with 502 and no step of its own |
| Attempts.RefusalEnds | crates/libsubby/src/proxy/codex.rs:586-633 | a refused refresh, before the first send or after a 401, is the last thing recorded and ends the attempt |
| Attempts.FirstReplyForgotten | crates/libsubby/src/proxy/codex.rs:458-483 | after a 401 neither its body nor its figures matter, whatever follows |
| Attempts.ClassesSeen | crates/libsubby/src/proxy/codex.rs:635-641 | in these loops a failure is a usage limit, a 401 that survived its retry, or about the request alone |
| Attempts.AttemptRotates | crates/libsubby/src/proxy/codex.rs:536-570 | an attempt that asks for another sub has just recorded a failure that leaves its own quarantined, while switching is allowed, and names 429 for a usage limit, else 503 |
| Attempts.RefusedRefreshSpares | crates/libsubby/src/proxy/codex.rs:600-633 | a refresh that failed for now answers 502 and changes nothing; one refused for good quarantines its sub and rotates with 503, or fails with it |
| Attempts.BadRequestBurnsNoSub | crates/libsubby/src/proxy/codex.rs:524-583 | any other failure goes back to the client with its own status and quarantines no sub |
| Failover.Forward | crates/libsubby/src/proxy/codex.rs:310-418 | the loop ends within as many attempts as the first selection had candidates, each turn is a selection and an attempt of the log, and the answer is the last outcome's, the selection's error, or the last rotation's status |
| Failover.TurnServes | crates/libsubby/src/proxy/codex.rs:315-376 | every attempted sub is in the pool resolved at the start and not quarantined when chosen; a rotation leaves it quarantined |
| Failover.NoSubTwice | crates/libsubby/src/proxy/claude.rs:275-379 | a sub is tried again only after a clear, a lift or a sweep past its end released it in between |
| Failover.StaysQuarantined | crates/libsubby/src/balance/mod.rs:494-622 | a step ends a quarantine if and only if it clears or lifts that sub or sweeps past its end |
| Failover.OneSubWithoutSwitching | crates/libsubby/src/balance/mod.rs:657-673 | with auto-switch off throughout, at most one sub is ever sent the request |
| SseFramer.ScanSpells | crates/libsubby/src/proxy/sse.rs:27-68 | frames, the separators consumed and the buffer spell exactly the bytes pushed, each frame cut at its first separator |
| SseFramer.Framer.Push | crates/libsubby/src/proxy/sse.rs:50-68 | with `scan_from`, the frames and buffer of rescanning everything |
| SseFramer.Framer.Flush | crates/libsubby/src/proxy/sse.rs:70-79 | the unterminated tail once, if there is one |
| SseFramer.FramesIgnoreChunking | crates/libsubby/src/proxy/sse.rs:50-68 | frames and buffer depend on the bytes alone when no cut splits a separator |
| SseFramer.CutsShow | crates/libsubby/src/proxy/sse.rs:27-68 | for every chunking, the frames are those of the whole if and only if no cut splits a separator |
| SsePayload.DataPayload | crates/libsubby/src/proxy/sse.rs:88-133 | the loop over one frame's lines gives the payload defined line by line |
| SsePayload.PayloadsIgnoreChunking | crates/libsubby/src/proxy/sse.rs:50-133 | for every stream and every chunking, the payloads are those of the line-at-a-time reference, open or ended |
| SseRoundTrip.WrittenIsRead | crates/libsubby/src/proxy/sse.rs:14-133 | events written with any of the three line ends, cut into chunks anywhere, come out as the payloads they were written from, in order and once, all but the end marker |
| SseAggregate.Aggregator.Consume | crates/libsubby/src/proxy/sse.rs:179-211 | a frame's effect on every field of the aggregator |
| SseAggregate.Aggregate | crates/libsubby/src/proxy/codex.rs:672-706 | the read loop, stopping early, gives what the concatenated bytes fold to, or upstream's error |
| SseAggregate.AggregateMeans | crates/libsubby/src/proxy/codex.rs:672-706 | that is the response of the first event that ends the stream, its output its own or the items collected up to it in index order, every other field as sent; else the break; else the last error, shortened |
| SseAggregate.FinishMeans | crates/libsubby/src/proxy/sse.rs:220-240 | a terminal response keeps a list of output it has, else is given the items by ascending index; there is none exactly without a terminal event |
| SseAggregate.FoldMeans | crates/libsubby/src/proxy/sse.rs:179-211 | the fold ends with the response of the first completed, incomplete or failed event that has one |
| SseAggregate.IndexOfNumber | crates/libsubby/src/proxy/sse.rs:243-252 | a whole float counts as the integer it is; anything negative, fractional or not a number is no index |
| SseAggregate.TerminalPrefix | crates/libsubby/src/proxy/sse.rs:179-182 | nothing after the first terminal event matters |
| SseAggregate.FoldsOfFeed | crates/libsubby/src/proxy/sse.rs:179-218 | what the frames fold to depends on the bytes alone |
| SseAggregate.UnindexedItemKept | crates/libsubby/src/proxy/sse.rs:191-198 | an item without a usable index displaces no other if and only if none holds the last 64-bit index |
| SseAggregate.LastIndexIsOverwritten | crates/libsubby/src/proxy/sse.rs:191-198 | two events of which the first is lost |
| SseAggregate.ItemsInAnyOrder | crates/libsubby/src/proxy/sse.rs:191-240 | whatever else arrives in between, distinctly indexed items may come in any order: the same items are kept, and the same response is finished |
| SseRewrite.RewriteFrame | crates/libsubby/src/proxy/sse.rs:267-297 | the loop over lines gives the rewritten frame |
| SseRewrite.ReattachedOnce | crates/libsubby/src/proxy/sse.rs:269-281 | only `previous_response_id` of the response changes, and only once |
| SseRewrite.RewrittenFrame | crates/libsubby/src/proxy/sse.rs:267-297 | the payload becomes the event with the id put back or stays, other lines stay in order, a second rewrite changes nothing |
| JsonText.SomeCodecIsLawful | crates/libsubby/src/proxy/sse.rs:267-297 | a JSON reader and writer exist that keep the law the rewriter's results assume |
| SseRewrite.RewrittenStreamSplitsBack | crates/libsubby/src/proxy/codex.rs:868-890 | the rewritten frames, each with a blank line, are just what the framer finds in the stream sent |
| CodexStream.Exchange.Next | crates/libsubby/src/proxy/codex.rs:868-915 | one yield keeps the invariant `Valid` and appends exactly its bytes to what was sent |
| CodexStream.Exchange.StoredBeforeSent | crates/libsubby/src/proxy/codex.rs:791-915 | at every yield, over every chunking: if the bytes sent hold a terminal event, its response is the one folded here in every field but the id put back, and the turn of its id is in the store already, once, with the parent, this turn's input, and the output handed on or, if that is empty, the items collected in index order |
| CodexStream.EventsSent | crates/libsubby/src/proxy/codex.rs:791-890 | the client's stream holds upstream's payloads, each with only the id put back, while it is open and with the unterminated one once it has ended |
| CodexStream.TerminalSent | crates/libsubby/src/proxy/codex.rs:791-890 | the first terminal response in the client's stream is that of upstream's, but for the id put back |
| CodexStream.TurnIffNamed | crates/libsubby/src/proxy/codex.rs:741-755 | a terminal response makes a turn if and only if it has an id; the turn has that id and its output |
| SingleFlight.TokenManager.CellFor | crates/libsubby/src/auth/mod.rs:583-594 | joins the key's cell, or enters a new one |
| SingleFlight.TokenManager.Retire | crates/libsubby/src/auth/mod.rs:596-606 | removes the entry only if it is this very cell |
| SingleFlight.OneRefreshPerKey | crates/libsubby/src/auth/mod.rs:521-582 | over every interleaving, at most one refresh of a key is unfinished |
| SingleFlight.SameOutcomeForAll | crates/libsubby/src/auth/mod.rs:490-582 | callers of one cell that finish end with the same tokens or the same error |
| SingleFlight.OutcomeIsFinal | crates/libsubby/src/auth/mod.rs:554-564 | a filled cell is never filled again |
| SingleFlight.StragglersEvictNothing | crates/libsubby/src/auth/mod.rs:596-606 | an entry leaves the map only when a caller of that very cell, holding its outcome, retires it |
| SingleFlight.EntryLeftBehind | crates/libsubby/src/auth/mod.rs:521-606 | when all callers are over, a key is left in the map if and only if all callers of one of its cells were cancelled |
| SingleFlight.NothingLeftBehind | crates/libsubby/src/auth/mod.rs:521-606 | when all callers finished uncancelled, the map is empty |
| SingleFlight.SomeoneCanMove | crates/libsubby/src/auth/mod.rs:554-564 | no caller waits on a cell nobody can advance |
| SingleFlight.CancelledEntryStays | crates/libsubby/src/auth/mod.rs:537-566 | a run that leaves an entry behind, which the next caller joins |
| SingleFlight.AllTakeTheRefresh | crates/libsubby/src/auth/mod.rs:521-582 | in any run, whoever finishes on the cell a refresh filled has its tokens, and is told whether its access token is another than the one it joined with; a failed one leaves its tokens and gives the error |
| SingleFlight.FilledWith | crates/libsubby/src/auth/mod.rs:554-642 | a cell is filled with the vendor's answer; after a refusal for good with the source's tokens if newer and fresh, with what refreshing them gave if newer and stale, else with the refusal |
| SingleFlight.CallsThatJoin | crates/libsubby/src/auth/mod.rs:521-542 | a call joins a cell if and only if it is forced or its token runs out within a minute, and it has a refresh token |
| SingleFlight.NeedsLogin | crates/libsubby/src/auth/mod.rs:554-642 | a login is demanded if and only if the vendor refused for good and the source offers nothing newer that works |
| LaunchAgent.UnescapeEscape | crates/libsubby/src/service.rs:231-243 | the three global replacements undo the other three for every string |
| LaunchAgent.Plist | crates/libsubby/src/service.rs:88-120 | the loop over arguments prints the file the scan is proved against |
| LaunchAgent.ScannedBack | crates/libsubby/src/service.rs:67-120 | scanning a printed agent gives exactly its program and arguments |
| CodexSetup.ConfigFile.MergeTable | crates/subbier-cli/src/codex_setup.rs:233-261 | the table's lines after the loop over keys, and every change reported |
| CodexSetup.ConfigFile.SetModelProvider | crates/subbier-cli/src/codex_setup.rs:263-300 | the lines above the first table, and the change reported |
| CodexSetup.PlanEdit | crates/subbier-cli/src/codex_setup.rs:216-231 | the edit, or nothing when nothing changes |
| CodexMerge.NothingToDo | crates/subbier-cli/src/codex_setup.rs:216-231 | no edit is planned if and only if table and top-level key already say what is wanted |
| CodexMerge.IdempotentIffOneLine | crates/subbier-cli/src/codex_setup.rs:216-300 | for every file, planning on the written output finds nothing to do if and only if the base URL is one line |
| CodexMerge.ReadersFindWanted | crates/subbier-cli/src/codex_setup.rs:216-336 | afterwards a first-match reader that decodes basic strings finds the name, the base URL, the wire API, the key variable if required and the top-level provider, if and only if the base URL has no control character but the tab |
| CodexMerge.ChangesTell | crates/subbier-cli/src/codex_setup.rs:233-261 | the changes reported are, key by key, a line added where none assigned the key or the first that did where it differed, and no others |
| CodexMerge.ProviderTells | crates/subbier-cli/src/codex_setup.rs:263-300 | the change told of the provider is the old line where another stood above all tables, or that one was added; that one has only blank lines beside it |
| CodexMerge.UncommentingRestores | crates/subbier-cli/src/codex_setup.rs:275-287 | the provider line commented out, once uncommented, is the old line with a comment after it, assigns the same key and reads as the same value |
| CodexMerge.LinesSurvive | crates/subbier-cli/src/codex_setup.rs:216-300 | all lines survive in order but for the first assignments corrected, one commented out; nothing but blanks, the header and assignments is added |
| ConfigWrite.GetAfterSet | crates/libsubby/src/config/write.rs:43-70 | what was set is read by the same walk, if and only if each node it has to make is named by a KDL identifier |
| ConfigWrite.SecondSetWins | crates/libsubby/src/config/write.rs:43-70 | a second set leaves the document as if the first had not been, if and only if the same condition holds |
| ConfigWrite.NodesKeepOrder | crates/libsubby/src/config/write.rs:43-70 | nodes keep place and name, and all but the one on the path keep everything; of the leaf only the first argument is replaced, or one added last |
| ConfigWrite.OtherKeysUnchanged | crates/libsubby/src/config/write.rs:43-123 | a set of a key that can be spelled succeeds and every other key reads as before, unless one is `sub` and the other begins with `sub.` |
| ConfigWrite.SpacedPartLeaks | crates/libsubby/src/config/write.rs:162-176 | a new name with a space in it is not found afterwards, and sets another key |
| ConfigWrite.NamingTheFirstSub | crates/libsubby/src/config/write.rs:46-60 | a `sub.` key changes what `sub` reads if and only if it makes the first `sub` node |
| ConfigWrite.SettingSub | crates/libsubby/src/config/write.rs:62-69 | setting `sub` leaves a `sub.` key as it reads if and only if the first `sub` node answered to it before and after, or to neither, or the next one reads the same |
| ConfigWrite.KeyIsSpelled | crates/libsubby/src/config/write.rs:90-107 | a settable key is spelled by its path, so no two keys share one |
| ConfigWrite.SubKeySplits | crates/libsubby/src/config/write.rs:93-99 | a `sub.` key splits back into sub key and leaf, dots in the sub key and all, if and only if both are there and the leaf has no dot |
| ConfigWrite.BlockKeySplits | crates/libsubby/src/config/write.rs:101-106 | dotted parts split back if and only if none is empty and they do not begin with `sub.` |
| Quoting.PosixReadsBack | crates/subbier-cli/src/envcmd.rs:200-214 | a POSIX shell reads the quoted value as one word, the value itself |
| Quoting.FishReadsBack | crates/subbier-cli/src/envcmd.rs:216-222 | fish reads the quoted value as one word, the value itself, if and only if it is not `%self` |
| Quoting.SelfIsBare | crates/subbier-cli/src/envcmd.rs:199-222 | `%self` is left bare, and fish reads its process id |
| Quoting.NuReadsBack | crates/subbier-cli/src/envcmd.rs:224-227 | nushell reads it back by its double-quote escapes |
| ClaudeIdentity.Body.EnsureIdentityFirst | crates/libsubby/src/proxy/claude.rs:90-117 | the body after the identity was moved or added, and whether that changed it |
| ClaudeIdentity.SystemBecomes | crates/libsubby/src/proxy/claude.rs:90-117 | what each kind of `system` becomes: absent, null or empty the identity alone, a text its own block after it, a list itself with the identity moved or put first, anything else one block after it |
| ClaudeIdentity.IdentityLeads | crates/libsubby/src/proxy/claude.rs:90-117 | the identity stands first, the other blocks follow in order, none lost or doubled |
| ClaudeIdentity.ChangedUnlessLeading | crates/libsubby/src/proxy/claude.rs:113-116 | nothing changes if and only if `system` is a list that begins with the identity |
| ClaudeIdentity.IdentityFirstTwice | crates/libsubby/src/proxy/claude.rs:90-117 | a second time changes nothing, and no other field is touched |
| TokenRing.TickRing.Record | crates/libsubby/src/proxy/metrics.rs:94-113 | expire, push, then drop the oldest above the cap |
| TokenRing.TickRing.TokensSince | crates/libsubby/src/proxy/metrics.rs:48-58 | expire, then add with saturation |
| TokenRing.RingIsRecentLog | crates/libsubby/src/proxy/metrics.rs:48-113 | with times in order the ring is the full log less exactly what is over an hour old or not among the newest 8192 |
| TokenRing.ReadsLastHour | crates/libsubby/src/proxy/metrics.rs:48-129 | a read gives the tokens of the last hour among the newest 8192 ticks of the full log, saturated once |
| TokenRing.EarlierReadMisses | crates/libsubby/src/proxy/metrics.rs:48-58 | one such order: a tick dropped by a later-dated read is missed by an earlier-dated one |
| TokenRing.LateReadMisses | crates/libsubby/src/proxy/metrics.rs:48-113 | below the cap and for any order of times, a read is the log's last hour less just the ticks some later event expired, and the full sum if and only if they hold none or it saturates anyway |
| Metrics.Metrics.InFlight | crates/libsubby/src/proxy/metrics.rs:76-91 | each gauge stays the number of guards held on its counters, the request totals of the sub and the pool grow by one, wrapping, and no other counter moves |
| Metrics.Metrics.Drop | crates/libsubby/src/proxy/metrics.rs:247-258 | each gauge of the guard was above zero and falls by one |
| Metrics.Metrics.Forget | crates/libsubby/src/proxy/metrics.rs:181-185 | the gauges still count, for counters forgotten while guards are held too |
| Metrics.Metrics.TotalProxiedInFlight | crates/libsubby/src/proxy/metrics.rs:159-164 | the saturating sum over the map is the number of requests in flight on the subs present, each once |
| Metrics.Metrics.RecordTokens | crates/libsubby/src/proxy/metrics.rs:94-113 | the tick goes to the sub's ring and the pool's, and to no other |
| History.Resample | crates/libsubby/src/history.rs:50-74 | each slot is the mean of the points that fall in its bucket, or none |
| History.RangeHolds | crates/libsubby/src/history.rs:58-64 | the range holds a point if and only if it lies from the first instant of its first millisecond to its very end |
| History.BucketBounds | crates/libsubby/src/history.rs:58-67 | a point's bucket is the one whose even share of the range holds it, the very end going to the last |
| History.BucketsInOrder | crates/libsubby/src/history.rs:58-67 | later points never fall in earlier buckets |
| History.ResampleConserves | crates/libsubby/src/history.rs:53-74 | the buckets' counts and sums add up to the range's |
| History.MeansStayWithin | crates/libsubby/src/history.rs:71-73 | a mean stays within the bounds of its values |
| History.Hold | crates/libsubby/src/history.rs:98-117 | in place, every slot becomes the nearest earlier sample within the run allowed, else none |
| History.HeldWithinReach | crates/libsubby/src/history.rs:76-118 | a slot holds a value if and only if some sample is within the hold, and exactly when there is no limit |

## Left out

- HTTP, axum, reqwest, tokio scheduling, timeouts, sqlite, files, keychain and `launchctl`: an upstream reply, a
  refresh outcome, a usage round and the registry's list are arbitrary inputs; the transcript store is a list.
- Text encoding: frames are sequences of characters, lossy UTF-8 decoding is the identity, white space is ASCII.
- The grammar of JSON and KDL: reading and writing JSON, and parsing the KDL text of a new node, are parameters; a KDL
  document is a tree of nodes, without indentation, comments, or the code points KDL forbids in a quoted `sub` key;
  every character beyond ASCII counts as an identifier's.
- ConfigWrite.GetAfterSet: the document is rebuilt as a value, not changed through nested mutable references.
- Strategy.RankingsMean: percentages are reals, so the order of negative zero and of not-a-number does not arise.
- History.Resample: means are exact reals, without rounding.
- Balance.QuarantineEnd: times are unbounded integers of nanoseconds.
- RouterWorld.CurrentIsNeverQuarantined: a sub has one provider for as long as the process runs, as its handle is
  documented to; status lists are assumed to say so.
- Failover.NoSubTwice: other callers do not use this request's own call number.
- Attempts.RunAttempt: send retries below one reply, request records, spans and error notes are not modelled; a
  sweep by a later read of the quarantine is among the steps of others.
- SseAggregate.Aggregate: the aggregated answer's own write to the transcript store and its headers.
- CodexStream.Exchange.Next: token counts observed on the way.
- SingleFlight.TokenManager.CellFor: `ensure_fresh` awaits in its middle, so it is a sequence of steps, not a method.
- Strategy.RoundRobinNext: the pick is a function that returns the cursor; `Router.SelectCommit` stores it in place.
- SingleFlight.OneRefreshPerKey: the claim is per cell and key; a refresh token may still be sent twice by callers
  that hold copies of a sub.
- Metrics.Metrics.InFlight: a gauge counts as long as no counter is held by more than 2^32 - 1 guards at once, which
  the ghost field `counted` records; each method runs as one step, although its loads and stores are separate atomics.
- Metrics.Metrics.TotalProxiedInFlight: the totals of requests and of tokens are the same sum over other figures.
- Request preparation, chain resolution, model catalogue, OAuth, discovery, the engine, the menu and the terminal UI.
- The words of messages, and the HTTP status of a selection error.
