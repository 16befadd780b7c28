# Submission listener: model and proofs

A Dafny model of the parts of the sequencer listener whose correctness is a property of whole runs.

* **Collection.** Any number of stream handlers read chunks, split off a 36-byte id, decode the rest,
  push an entry to one Redis list, increment a counter found under a printed key, and refresh the
  counter's five-minute expiry. `Collector` has the sequential loop as a method over a 1024-byte
  buffer, proved equal to a function of the reads; `Machine` has the concurrent system, one step for
  each read and each Redis command of each handler and for the clock, over the flat, typed, expiring
  keyspace of `Redis`. `Refinement`, `Conservation`, `Timing` and `Streams` prove what every run keeps.
* **Key names.** `Decimal` and `Keys`: decimal printing, the counter key and its decoder.
* **Contract events.** `Events` (the filter iterator) and `Watch` (the forwarding loop), generic over
  the event type, since the generated code repeats one template.
* **Supporting state.** `Client` (the Redis client functions and the index-before-value discipline),
  `Alerts` (the bounded alert channel and its consumer), `Extract` (text field extraction).

## Reading the model

A run is a sequence of events; `Reach` says whether the events form a run and gives the state after
it, so a lemma with `IsRun(decode, es)` speaks of every reachable state. An event records whether its
command succeeded. A command that fails changes nothing, and may fail at any time. Decoding a
submission is an arbitrary partial function `decode`.

What the source does with unusual input is kept:

* A chunk of fewer than 36 bytes panics. Taking the id from `buf[:length]` is within the buffer's
  capacity, so it is the slice of the remainder (`pkgs/service/collector.go:23`) that fails; the
  outcome is the same for both.
* A submission without a request panics after its entry was queued and before anything is counted.
* Bytes returned together with a read error are dropped.
* A failed increment is only logged; the expiry is refreshed all the same.
* A panic in a handler ends the process. Runs in which nothing happens after a panic are among the
  runs quantified over, so every statement covers them.

Properties that hold under a condition only, with the condition proved exact:

* A counter is all successful increments so far only as long as each of its commands comes before the
  deadline set by the refresh before it, and that deadline has not passed since
  (`Timing.SlidingWindow`, both directions).
* A counter whose expire commands all fail never goes away (`Timing.NoImmortalCounters`,
  `Timing.ImmortalUntilRefreshed` both directions, `Timing.FailedRefreshLeavesImmortal` for one submission).
* Interleaved calls of `SetSubmission` keep every live submission in its index set exactly when no
  call's key is any call's index (`Client.IndexKeptIffNamedApart`, both directions, with
  `Client.SelfIndexedSubmissionIsLost` and `Client.OverwrittenIndexLosesSubmission` as the runs that
  lose one). Run by run, a live submission is in its set exactly when that set was not overwritten
  since the submission was filed (`Client.ScansFindLiveSubmissions`).
* Alerts are dropped once more than 10000 are outstanding (`Alerts.LosslessIffNeverCrowded`).
* `ExtractField` slices out of range if the leftmost match ends the text (`Extract.OutOfRangeExactly`),
  and it does not look at the character it takes for the opening quote (`Extract.ExtractFieldExact`).

## Model

| member | source | states |
|---|---|---|
| Decimal.ParsePrint | pkgs/redis/keys.go:9 | printing a number with `%d` loses nothing: it parses back to the number |
| Decimal.PrintParse | pkgs/redis/keys.go:9 | parsing is exact: only the printed form of a number parses to it |
| Keys.DecodeCounterKey | pkgs/redis/keys.go:8-10 | every counter key reads back, at its last two dots, as the triple it was printed from, whatever dots the market holds |
| Keys.CounterKeyOfDecoded | pkgs/redis/keys.go:8-10 | the decoder accepts nothing but counter keys |
| Keys.CounterKeyInjective | pkgs/redis/keys.go:8-10 | two counter keys are equal exactly when their triples are |
| Keys.CounterKeyIsNotQueue | pkgs/constants.go:6 | no counter key, for any triple, is the queue's key |
| Keys.KeysInLetters | pkgs/redis/keys.go:8-10 | a counter key and the queue's key, letter by letter |
| Decimal.PrintDigit | pkgs/redis/keys.go:9 | base ten, digit by digit |
| Wire.ExamineExact | pkgs/service/collector.go:16-26 | a chunk yields an entry exactly when the entry's id has 36 bytes, id and data make up the chunk, and the data decodes to the stored market; of the others those under 36 bytes are too short and the rest undecodable |
| Wire.EntryTripleInFields | pkgs/service/collector.go:72 | an entry is counted under exactly the market, slot and epoch its body decodes to, and under nothing without a request |
| Collector.ParseSubmissionBytes | pkgs/service/collector.go:16-26 | splits exactly the chunks of at least 36 bytes, without losing a byte |
| Collector.Link.Read | pkgs/service/collector.go:31-32 | a read fills the front of the buffer, leaves the rest, and may return bytes together with an error |
| Collector.Pass | pkgs/service/collector.go:30-78 | one pass over a real buffer, on bytes and fields: nothing and return on a read error, nothing and panic under 36 bytes, nothing and continue if undecodable, otherwise the push, and after a successful one the increment and five-minute expire of the key of the decoded market, slot and epoch, or a panic without a request |
| Collector.RoundOnBytes | pkgs/service/collector.go:30-78 | the functional pass does what bytes and fields say |
| Collector.IncrementsFollowTheirPushes | pkgs/service/collector.go:65-77 | over a whole stream every increment comes right after the push of an entry, under the key its data decodes to, and right before the five-minute expire of the same key |
| Collector.HandleStream | pkgs/service/collector.go:28-79 | the loop over a 1024-byte buffer issues exactly the commands of the functional specification, and the terminal event is the last thing it reads |
| Collector.NothingAfterExit | pkgs/service/collector.go:33-47 | whatever follows end of stream, a read error or a panic has no effect |
| Collector.FruitlessPassesVanish | pkgs/service/collector.go:48-69 | a chunk of 36 bytes or more that does not decode, or whose push fails, inserted anywhere changes no other effect and not the way the loop ends |
| Refinement.StepRefines | pkgs/service/collector.go:65-77 | one Redis command on the string-keyed store is one step of the queue and the map of counters, possible exactly when the map allows it |
| Refinement.RunRefines | pkgs/service/collector.go:28-79 | after any interleaving with failures, ticks and expiries, the keyspace holds exactly the queue and the map of counters |
| Refinement.NextStepAgrees | pkgs/redis/client.go:37-43 | the stored system and the map can take exactly the same steps; a push never meets a wrong type, an increment fails of itself only at the 64-bit maximum |
| Refinement.StepsAreLocal | pkgs/service/collector.go:65-77 | each triple's counter moves by its own commands and the clock alone, the queue by pushes alone |
| Refinement.CountersAreIndependent | pkgs/service/collector.go:72-77 | two runs with the same clock and the same successful commands on a triple leave it the same counter, whatever else they do |
| Refinement.QueueNeverExpires | pkgs/service/collector.go:65-77 | no increment or refresh gives the queue a deadline or another type |
| Conservation.HandlersAreFaithful | pkgs/service/collector.go:42-58 | between decode and push a handler holds exactly what its chunk decodes to |
| Conservation.BumpsAreKeptOrLost | pkgs/redis/client.go:37-43 | successful increments = counter + counts lost to expiry |
| Conservation.EntriesAreBumpedOrWaiting | pkgs/service/collector.go:65-76 | queue entries for a triple = successful increments + failed increments + handlers between push and increment |
| Conservation.QueueIsAccountedFor | pkgs/service/collector.go:65-77 | queue entries for a triple = counter + lost to expiry + failed increments + handlers between push and increment, in every reachable state |
| Conservation.CounterMatchesQueue | pkgs/service/collector.go:65-77 | the counter never exceeds the queue's entries for its triple and equals them exactly when nothing was lost, missed or is waiting |
| Timing.SlidingWindow | pkgs/service/collector.go:72-77 | nothing is lost, and the counter is all successful increments so far, exactly when every command on the triple came before the deadline of the refresh before it and that deadline has not passed since |
| Timing.TimelyCounterMatchesQueue | pkgs/service/collector.go:65-77 | in a timed run the counter equals the queue's entries exactly when commands were on time, none failed and no handler is waiting |
| Timing.DeadlinesAreNear | pkgs/service/collector.go:77 | a stored deadline lies within the next five minutes |
| Timing.DeadlinesMoveForward | pkgs/service/collector.go:77 | while a counter lives no step removes its deadline or moves it back |
| Timing.NoImmortalCounters | pkgs/service/collector.go:72-77 | a counter without a deadline has a handler about to set one, also after expiry and re-creation by others, unless an expire of that very counter failed in its present life |
| Timing.NoImmortalCountersWhileExpiresSucceed | pkgs/service/collector.go:72-77 | in a run without failed expires every counter without a deadline has a handler about to set one |
| Timing.ImmortalUntilRefreshed | pkgs/service/collector.go:72-77 | with failing expire commands, a counter has no deadline exactly when none has succeeded since its creation |
| Timing.FailedRefreshLeavesImmortal | pkgs/service/collector.go:77 | one submission whose ignored expire fails leaves a counter that outlasts any time |
| Timing.RefreshedCounterLastsFiveMinutes | pkgs/service/collector.go:77 | a counter refreshed now is there 299999 ms later and gone at 300000 |
| Streams.HandlersFollowTheLoop | pkgs/service/collector.go:28-79 | in any interleaving each handler has issued what the sequential loop issues on its own stream, up to its place in the current pass |
| Streams.AnyPassCanBePlayed | pkgs/service/collector.go:28-79 | conversely, from any reachable state a handler about to read can go through any pass of the loop, with the loop's commands and ending, while nothing happens to the others |
| Streams.QueueMergesStreams | pkgs/service/collector.go:65-70 | the queue from tail to head is an order-preserving merge of what each stream's handler pushed |
| Streams.QueueMergesLoops | pkgs/service/collector.go:30-70 | between passes a stream's share of the queue is what the sequential loop accepts from its chunks |
| Streams.QueueIsCoherent | pkgs/service/collector.go:42-58 | every queue entry's id followed by its data is a chunk that was read, the id has 36 bytes and the data decodes to the stored market |
| Streams.CountedIsWhatWasQueued | pkgs/service/collector.go:65-72 | the market, slot and epoch a handler counts under are those its latest queue entry decodes to |
| Client.Client.Increment | pkgs/redis/client.go:37-43 | one more than the old count, which the cell then holds with its old deadline, or 1 in a new cell without one; zero and an unchanged store on failure |
| Client.Client.SetSubmission | pkgs/redis/client.go:65-75 | on cells: the key joins the index set first, and only if that worked gets the value with the deadline the expiration asks for; nothing else changes; exactly one alert offered on failure, none on success |
| Client.CallIsItsEvents | pkgs/redis/client.go:65-75 | an uninterrupted call is its two commands as events of the interleaved system, or the first alone if that failed |
| Client.Client.Get | pkgs/redis/client.go:77-88 | a missing key reads as empty without an alert; an error reads as empty with one |
| Client.Client.GetSetKeys | pkgs/redis/client.go:53-55 | the members of the set, none if the read fails |
| Client.Client.Set | pkgs/redis/client.go:90-92 | overwrites the value and sets the deadline the expiration asks for, or leaves the store alone on failure |
| Client.FiledKeysAreMembers | pkgs/redis/client.go:53-75 | in every run, whatever the names, an index set's members are exactly the keys filed under it since it was last overwritten |
| Client.CellsAreIndexesOrTexts | pkgs/redis/client.go:65-75 | in every run an index set is never empty and never expires |
| Client.LiveTextsWereWritten | pkgs/redis/client.go:65-75 | a live value is that of the latest write, whose call had filed the key before |
| Client.TextsLiveUntilDue | pkgs/redis/client.go:65-75 | in every run a key holds a text exactly from its first write on while its latest value is not due, and its deadline is when it falls due |
| Client.ValuesLiveTheirTime | pkgs/redis/client.go:70 | a value written to live `ms` milliseconds is there exactly that long after its write, and for ever if `ms` is not positive |
| Client.KeepLeavesDeadline | pkgs/redis/client.go:70 | a write with the keep code leaves the cell's deadline |
| Client.ScansFindLiveSubmissions | pkgs/redis/client.go:53-88 | over any interleaving of calls, expiry and failures between the two commands, a live submission reads as its latest value and is in its index set exactly when the set was not overwritten since the filing |
| Client.FiledKeysReadCleanly | pkgs/redis/client.go:77-88 | a stale member reads as missing, a live one as its latest value; the read is refused exactly when the key names an index set |
| Client.IndexKeptIffNamedApart | pkgs/redis/client.go:65-75 | every run of a set of calls keeps all live submissions indexed exactly when no call's key is any call's index |
| Client.SelfIndexedSubmissionIsLost | pkgs/redis/client.go:65-75 | a run of one call whose key is its own index ends with it live and not indexed |
| Client.OverwrittenIndexLosesSubmission | pkgs/redis/client.go:65-75 | a run of two interleaved calls, each filed under another name than its own, ends with one live and not indexed |
| Client.SetSubmissionKeepsIndex | pkgs/redis/client.go:65-75 | one uninterrupted successful call keeps the index relation exactly when its key is not the index set of a live submission |
| Alerts.AlertChannel.SendFailureNotification | pkgs/common/alerts.go:30-45 | appends the alert if fewer than 10000 are buffered, drops it otherwise, never waits |
| Alerts.Reporter.StartListening | pkgs/service/reporting.go:26-30 | with producers offering between its receives, the consumer hands over exactly what the channel delivers, in order, until it is empty |
| Alerts.ConsumingIsARun | pkgs/service/reporting.go:26-30 | that consumption is a run of the channel in which just those alerts are offered, so all results on runs hold of it |
| Alerts.OffersAreAccountedFor | pkgs/common/alerts.go:28-44 | accepted alerts in order = delivered then buffered; the rest are the dropped ones; the buffer never exceeds 10000 |
| Alerts.TenThousandFit | pkgs/common/alerts.go:28-44 | with nothing taken, the first 10000 offers are buffered and all later ones dropped |
| Alerts.LosslessIffNeverCrowded | pkgs/common/alerts.go:28-44 | nothing is dropped exactly when no prefix of the run has more than 10000 offers outstanding |
| Events.EventIterator.Deliver | pkgs/contract/contract.go:2868-2875 | receiving a log replaces the event, and fills it in or records the unpack error |
| Events.EventIterator.Advance | pkgs/contract/contract.go:2860-2897 | a call to Next updates event, flags and channel as specified, calling itself at most once |
| Events.NextUnfolds | pkgs/contract/contract.go:2862-2896 | a call notices the end at most once, then receives one log or returns false having received none |
| Events.TrueCallDelivers | pkgs/contract/contract.go:2866-2876 | a true result hands out the next log and what it unpacks to, shortening the channel by one |
| Events.FalseCallExplained | pkgs/contract/contract.go:2862-2896 | every reason for a false, with all that the call changes in each case, the event left behind included |
| Events.LogsAreAccountedFor | pkgs/contract/contract.go:2862-2896 | under every select schedule logs produced = delivered + at most one that failed to unpack + pending, in order |
| Events.CompleteUnlessError | pkgs/contract/contract.go:2857-2902 | delivered is always an ordered prefix of produced; after a false, Error() is nil exactly when the subscription ended well and all logs unpack, and then everything was delivered |
| Events.FalseIsFinal | pkgs/contract/contract.go:2862-2882 | the first false is final: no later call delivers, receives or changes a flag |
| Events.FlagsStay | pkgs/contract/contract.go:2862-2895 | once set, done and fail stay set in every later state |
| Events.DrainingEnds | pkgs/contract/contract.go:2866-2882 | after the end at most as many calls return true as logs are pending, and after more calls than that the latest returned false |
| Watch.ForwardsAllButOne | pkgs/contract/contract.go:2950-2975 | in every reachable state logs read = events forwarded in order + at most one in hand; the loop has returned exactly when its last select brought the end, a quit or a log that cannot be unpacked, and returns accordingly |
| Watch.NextSelectExactly | pkgs/contract/contract.go:2951-2975 | which select outcomes can come next: none after returning, anything but another log while holding one, anything but the sink otherwise |
| Watch.Forward | pkgs/contract/contract.go:2950-2975 | the nested select loop has sent all logs read but the one in hand, and has returned exactly after an end, a quit or a log that cannot be unpacked |
| Extract.ExtractsDelimited | pkgs/utils/strings.go:5-16 | a quote-terminated value after the leftmost `name:` is returned, whatever surrounds it |
| Extract.ExtractFieldExact | pkgs/utils/strings.go:5-16 | a non-empty result is returned exactly when it is quote-free, starts two places after the leftmost name and is followed by a quote |
| Extract.ExtractFieldRoundTrip | pkgs/utils/strings.go:5-16 | a quoted value written after the first `name:` is read back, for any suffix |
| Extract.EmptyResultExactly | pkgs/utils/strings.go:7-14 | the result is empty exactly when the name is missing, no quote follows, or the value is empty |
| Extract.OutOfRangeExactly | pkgs/utils/strings.go:10-11 | the slice is out of range exactly when the leftmost match ends the text |

## Left out

- The consumer of the submission queue is another service; nothing pops the list in these runs.
- Queue entries are records. Their rendering as JSON, which cannot fail for three strings and replaces invalid UTF-8, is not modelled.
- Redis: connection pooling, retries and lost replies; a command applies once and succeeds, or does not apply and fails.
- Redis expiry is taken at the instant: a cell with deadline d can be read before d and not from d on.
- Incrementing a cell that holds text is an error here even if the text is a numeral; the handlers never do it.
- Expirations passed to `Set` and `SetSubmission` are whole milliseconds or the client library's code for keeping the present deadline; its rounding of shorter durations is not modelled.
- `Delete` and `RemoveFromSet` undo the index relation on purpose; `AddToSet` and `SetProcessLog` are single commands.
- Events.EventIterator.Advance: modelled from the moment its select can fire; waiting itself is not a step. The subscription sends no log after it has ended, which the libraries behind it are taken to guarantee.
- Watch.Forward: the select outcomes are an input, so that its termination is that of the given outcomes; the goroutine and `Unsubscribe` are not modelled.
- Alerts.Reporter.StartListening: finitely many bursts of offers, one before each receive, after which the endless loop would wait for ever; the HTTP request per alert is not modelled.
- The partially filled event left behind when unpacking fails is only known to be newly allocated.
- libp2p host set-up, key generation, resource limits, peer discovery and connection counting; the other wrappers in `pkgs/contract/contract.go`; settings and logging.
