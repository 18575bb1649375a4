# Verification of the gateway's stateful cores

A Dafny model of the parts of the gateway whose correctness rests on state kept over many steps, and
proofs of what they promise.

- **Log bodies.** A captured body is cut into chunks by a rolling hash (`Chunking`), each distinct
  content is stored once (`Prepare`, `LogStore`), and a record of base-128 integers lists the chunk
  ids of each log (`Varints`, `LogRecord`, `CanonicalRecord`). `LogTables` says how a log reads back.
  A collector marks what records list, in a bit array (`ChunkMarks`), and sweeps the rest in short
  transactions (`Collector`), while a writer adds batches (`LogWriter`) and a policy drops all but the
  newest bodies (`BodyCleanup`). `LogSystem` interleaves all of these, any number of collections at
  once, and proves that nothing stored is lost. `Capture` and `Utf8` are the cutting of text before.
- **One proxied request.** `Keys` rotates a channel's keys and sits out refused ones. `ProxyAttempts`
  and `ProxyHandler` are the retry loop with its two held failures, which may be one object;
  `AttemptLog` is the call, the rows it leaves and the guard that writes a request's own row. What
  happens over a request is a list of events (`AttemptTrace`), and `AttemptRules` says which may follow
  which, when the request is over and what its client then receives. The upstream, the routing query,
  the clock and the client are left open, and what they answer is in the events: a result holds for
  whatever they do.
- **Statistics.** `Stats`, `StatsCounts`, `StatsStore` and `StatsSpan`: an hourly table that must agree
  with counting the log rows themselves.
- **Authentication.** `Authentication` interleaves any number of calls and rotations, one atomic
  operation or critical section at a time; `Throttle` is what refuses callers before.
- **Health and quota.** `Health` recovers scores only when they are looked at; `Quota` and `QuotaRun`
  bound how far a limit is overshot.
- **Bytes.** `ByteEdits` and `BodyRewrite` edit JSON in place; `RuneSplitter` cuts a stream between
  characters.

`Words` and `Division` hold what the others share. Objects whose methods update fields are classes
here, loops are loops, and each such method is tied to a function or a relation whose properties are
proved as lemmas. Interleavings are relations between states, one step for each transaction.

The hash of a chunk is a constructor of its content, so no two contents share one; the rolling hash is
proved for every table of 256 words. Argon2id, the JSON tokenizer and the value parsers are function
parameters. Times are integers in the source's units. Integers are unbounded except where the source's
width decides something: record integers, the rolling hash, chunk ids, rotation positions, the backoff
shift, routing weights, projected usage and failure counts have their width.

## Where the code is less than it says

- `internal/logbody/record.go:114-115` says accepted bytes are what encoding would write. Padded
  integers and an unflagged repeated list are accepted too; `CanonicalRecord.EncodesBackIff` is the
  exact condition.
- `internal/db/stats.go:246-249` rounds an end within the first hour to zero, which then reads as no
  end; `StatsSpan.AgreementIff` is the exact condition.
- `internal/db/log.go:659-670` with a keep count below one still keeps the newest row, because a
  negative offset counts as none; `BodyCleanup.KeepsExactlyIff`. The settings ask for at least one.
- `internal/handlers/proxy.go:327-329` says some later row records the outcome, and a request is counted
  by it. A held-back stream whose account cannot be remembered (`internal/proxy/ssestream.go:189-201`)
  writes its row at once, not marked retried, so a request another channel then answers has two; `AttemptTrace.OneOutcomeIff`, with
  `AttemptTrace.TwoOutcomes` as the case.
- `internal/proxy/keys.go:61-66` takes a wrapping 64-bit position modulo the number of keys. Where it
  wraps, keys may be missed unless their number divides 2^64; `Keys.PickFindsIff`.
- `internal/quota/tracker.go:11-27` promises a bounded overshoot. The stored total is read in a query before
  admission (`internal/middleware/auth.go:213-237`), and usage committed and settled in between is seen nowhere.
  Over all runs no bound holds unless the limit was reached from the start or requests cost nothing
  (`QuotaRun.BoundedIff`); one holds once the requests between read and admission at once are bounded
  (`QuotaRun.WidthBoundsOvershoot`), and it must grow with their number (`QuotaRun.StaleReadsOvershoot`).
- `internal/db/stats.go:19-20` says the table's hours and the logs' part hours agree. Deleting a channel takes
  it from the logs' rows only; `StatsSpan.DetachedAgreesIff` is the exact condition.
- `internal/db/logoverview.go:220-222` says whole-hour buckets in a whole-hour zone line up with the table's
  hours. In a zone a bucket or more behind UTC division toward zero splits an hour before the local epoch;
  `StatsSpan.SeriesAgreesIff` is the exact condition.
- `internal/proxy/jsonedit.go:110-111` asks only that edits do not overlap. An insertion where another
  edit starts must also be given first; `ByteEdits.ApplyEdits` is exact, and the edits the rewrites
  make never start together (`BodyRewrite.EditsAreApart`).

## Model

| member | source | states |
|---|---|---|
| LogRecord.AppendRecord | internal/logbody/record.go:65-97 | appends exactly the record's encoding, whatever is in the buffer already |
| LogRecord.DecodeRecord | internal/logbody/record.go:116-178 | the decoder that consumes bytes and keeps its first error accepts exactly the byte strings of the parsing grammar, with that record |
| LogRecord.Decoder.NextUvarint | internal/logbody/record.go:199-210 | reads one base-128 integer or fails, and once failed stays failed |
| LogRecord.Decoder.NextLength | internal/logbody/record.go:226-233 | a length outside the representable range is an error, not a negative number |
| LogRecord.Decoder.NextIds | internal/logbody/record.go:154-163 | chunk ids are running sums of zigzag deltas with 64-bit wrap; one not positive fails the record |
| LogRecord.Decoder.NextSlot | internal/logbody/record.go:122-170 | one slot: kind, flags, length, captured size, own list or the neighbour's |
| LogRecord.RoundTrip | internal/logbody/record.go:65-178 | decoding an encoded storable record returns it: ids, flags, lengths, shared lists |
| LogRecord.RoundTripIff | internal/logbody/record.go:65-178 | a record survives encoding and decoding if and only if it is storable |
| LogRecord.ParsedIsStorable | internal/logbody/record.go:116-178 | whatever bytes are accepted, the record has positive ids and n <= captured <= n * MaxChunk for every list |
| LogRecord.ParsedRoundTrips | internal/logbody/record.go:116-178 | an accepted record, padded or not, encodes and decodes to itself |
| CanonicalRecord.EncodesBackIff | internal/logbody/record.go:114-178 | accepted bytes encode back to themselves exactly when every integer is minimal and every repeated list is flagged; the comment in the source claims it of all accepted bytes |
| CanonicalRecord.AcceptsPadding | internal/logbody/record.go:114-116 | two different byte strings decode to one record: a padded integer is accepted |
| CanonicalRecord.AcceptsUnflagged | internal/logbody/record.go:134-163 | two different byte strings decode to one record: the second slot may list its neighbour's chunks again without the flag |
| Varints.UvarintRoundTrip | internal/logbody/record.go:199-210 | every uint64 reads back from its base-128 form, whatever follows it |
| Varints.MinimalIsCanonical | internal/logbody/record.go:199-210 | bytes read as an integer are the ones it is written as exactly when they are not padded |
| Varints.VarintRoundTrip | internal/logbody/record.go:212-223 | every int64 survives zigzag and base-128, the extremes included |
| Chunking.Cut | internal/logbody/chunk.go:63-77 | the first boundary past the minimum whose rolling hash says so, or the maximum, or the end |
| Chunking.Split | internal/logbody/chunk.go:50-58 | the loop's pieces are the split: each is the cut of what is left |
| Chunking.SplitJoinsBack | internal/logbody/chunk.go:50-58 | the chunks joined are the input, byte for byte |
| Chunking.SplitSizes | internal/logbody/chunk.go:50-77 | every chunk has 1 to MaxChunk bytes, and all but the last more than the minimum |
| Chunking.SplitIsUnique | internal/logbody/chunk.go:50-77 | content alone decides the chunks |
| Chunking.AppendKeepsChunks | internal/logbody/chunk.go:50-77 | appending any suffix leaves every chunk but the last as it was |
| Chunking.CutsMoveWithContent | internal/logbody/chunk.go:50-77 | from a shared boundary on, equal content is cut equally wherever it stands |
| Chunking.HashWindow | internal/logbody/chunk.go:63-77 | after 64 bytes the 64-bit rolling hash depends on the last 64 bytes only |
| Prepare.Batch.Intern | internal/logbody/prepare.go:59-97 | one chunk is kept per distinct content, filed under the hash of its bytes |
| Prepare.Batch.Prepare | internal/logbody/prepare.go:59-97 | every slot holds the split of its own body, though neighbours with the same bytes shared the work |
| Prepare.MakeRecord | internal/logbody/prepare.go:100-120 | the record lists, slot by slot, the ids the chunks were stored under |
| LogTables.AssembleBody | internal/db/logbody.go:374-398 | joins the listed chunks; a missing or damaged chunk, or a wrong total, gives no body |
| LogTables.AssemblesIff | internal/db/logbody.go:374-398 | a captured body is rebuilt exactly when every listed chunk is stored and undamaged and they come to the captured size, as their bytes in order |
| LogTables.ReadStable | internal/db/logbody.go:250-398 | a log shows the same as long as its own rows and the chunks it lists are left alone |
| LogStore.LogStore.InsertChunk | internal/db/logbody.go:199-219 | a new content gets an id above every one handed out before; the table stays one row per content |
| LogStore.PayloadStore.Missing | internal/db/logbody.go:161-171 | the row's unresolved chunks, each hash once |
| LogStore.PayloadStore.LookUp | internal/db/logbody.go:173-197 | every missing chunk the table holds is found, however many batches of hashes it takes |
| LogStore.PayloadStore.ResolveChunks | internal/db/logbody.go:160-221 | every chunk of the row is found or stored, old rows of the table untouched; it fails only when the ids run out |
| LogStore.PayloadStore.Store | internal/db/logbody.go:94-135 | the stored log reads back every snapshot as captured, or shows only which there are when cleared; nothing of other logs changes |
| LogStore.RecordReadsBack | internal/db/logbody.go:94-398 | split, deduplicated, listed, encoded, decoded and assembled, a body is what was captured |
| LogWriter.InsertRow | internal/proxy/logging.go:568-640 | a row goes in under the next id and reads back, the rows before it as they were; it fails only when the ids run out |
| LogWriter.InsertLogBatch | internal/proxy/logging.go:545-694 | a batch is written whole, under the next ids, every row reading back; a failure leaves the tables as they were |
| LogWriter.BatchKeepsSound | internal/db/logbody.go:437-447 | a batch leaves every record decodable and every listed chunk stored |
| ChunkMarks.SetBit | internal/db/logbody.go:400-409 | setting one bit of a 64-bit word changes that bit only |
| ChunkMarks.ChunkMarks.Set | internal/db/logbody.go:400-414 | marking an id adds exactly that id to the marked set |
| ChunkMarks.ChunkMarks.MarkRecord | internal/db/logbody.go:418-431 | marks exactly the chunk ids the record lists up to the highest; an undecodable record is an error |
| Collector.MarkLogChunks | internal/db/logbody.go:472-509 | the marks are exactly the ids some stored record lists in that snapshot |
| Collector.CatchUp | internal/db/logbody.go:523-546 | adds exactly what records of newer logs list |
| Collector.FindUnmarked | internal/db/logbody.go:548-577 | the next unmarked ids in order, at most one batch, and how far the scan got; it always gets further |
| Collector.SweepLogChunks | internal/db/logbody.go:515-590 | deletes exactly the unmarked chunks of the scanned range and nothing else; on an undecodable record, nothing |
| Collector.CollectLogChunks | internal/db/logbody.go:448-467 | undisturbed, it succeeds and keeps exactly the chunks some record lists, bytes unchanged |
| LogSystem.StepKeeps | internal/db/logbody.go:437-590 | each write, drop, deletion, mark or sweep keeps every listed chunk stored and every log readable |
| LogSystem.NothingIsLost | internal/db/logbody.go:437-590 | in every interleaving, every record decodes, every chunk it lists is stored with its bytes, and every log not cleared reads back byte for byte |
| LogSystem.SweepSparesListed | internal/db/logbody.go:515-590 | a sweep, after catching up, deletes no chunk any record lists at that moment |
| LogSystem.SweepsOnlyGarbage | internal/db/logbody.go:515-590 | what a sweep anywhere in a run deleted, no record listed before or after it |
| LogSystem.CollectionCompletes | internal/db/logbody.go:448-467 | a chunk unlisted at the mark, and by every record until the sweep that passes it, is gone from then on |
| LogSystem.SweepsAreBounded | internal/db/logbody.go:457-465 | a collection sweeps at most once per chunk id the mark saw, whatever runs in between |
| LogSystem.CollectionGoesOn | internal/db/logbody.go:448-509 | in every reachable state a collection short of its highest id can sweep further, and a new one can begin |
| LogSystem.NewestAreKept | internal/db/log.go:614-699 | with writers appending between batches, no log among the newest keep ever written with snapshots loses its bodies |
| LogSystem.WrittenOnce | internal/db/logbody.go:437-447 | what was written under a log id stays what it was: ids are never handed out again |
| LogSystem.DeleteKeeps | internal/db/log.go:753-793 | deleting logs, with their snapshots and bodies, keeps every other log readable |
| BodyCleanup.FindThreshold | internal/db/log.go:659-670 | the row with exactly keepCount - 1 uncleared rows above it, or that there are too few |
| BodyCleanup.ClearOldLogBodiesBatch | internal/db/log.go:652-699 | drops the oldest uncleared logs outside the window, as many as a batch takes, and none inside; no other row changes |
| BodyCleanup.ClearOldLogBodies | internal/db/log.go:614-643 | terminates with exactly the newest keepCount uncleared logs left, and reports how many it dropped |
| BodyCleanup.KeepsExactlyIff | internal/db/log.go:659-670 | the policy is met exactly when it keeps at least one or there is nothing to keep: below 1 the newest row survives |
| BodyCleanup.NewestCount | internal/db/log.go:614-643 | the window is keepCount rows when there are so many |
| Capture.CaptureBody | internal/logbody/capture.go:46-69 | text is kept as its longest valid prefix within the budget, at most three bytes short of it; anything else as the budget's bytes; what is kept can be stored |
| Capture.ValidTextPrefix | internal/logbody/capture.go:73-102 | a whole body is text exactly when it is valid UTF-8; a beginning of one, when at most three bytes off its end it is valid and not empty |
| Capture.TextPrefixIsText | internal/logbody/capture.go:85-102 | a captured beginning of valid text is taken for text exactly when it holds the first character |
| Utf8.RuneIff | internal/logbody/capture.go:62-88 | a character is exactly the encoding of a Unicode scalar value, as section 3 of RFC 3629 gives it |
| Utf8.BoundaryIff | internal/logbody/capture.go:73-84 | in valid text a byte may start a character exactly where the text before it is valid |
| Utf8.FullRuneIff | internal/handlers/debug.go:188-197 | the bytes at the end are held back exactly when they are a proper beginning of a character |
| RuneSplitter.RuneSplitter.Push | internal/handlers/debug.go:183-201 | what goes out and what is held back are the bytes so far; at most three are held back |
| RuneSplitter.NothingIsLost | internal/handlers/debug.go:179-209 | for every chunking, the pieces and the rest joined are the stream |
| RuneSplitter.PiecesValidIff | internal/handlers/debug.go:179-209 | the pieces and the rest are all valid UTF-8 exactly when the stream is |
| RuneSplitter.PiecesOfPrefix | internal/handlers/debug.go:179-209 | while the stream is a beginning of valid text every piece is valid already, and at its end nothing is held back |
| Keys.KeyPicker.Pick | internal/proxy/keys.go:45-78 | the first usable key in rotation not sitting out, else the first usable one, else none; the rotation moves by one |
| Keys.ChosenMeaning | internal/proxy/keys.go:40-78 | never a refused key, and one sitting out only when marked so |
| Keys.KeyPicker.HasFresh | internal/proxy/keys.go:82-93 | whether any key is neither refused nor sitting out |
| Keys.FreshIffPicked | internal/proxy/keys.go:45-93 | at one instant a key is fresh exactly when the next pick returns one not sitting out, while the rotation does not break |
| Keys.RotationIff | internal/proxy/keys.go:61-66 | |keys| positions in a row are each key's once exactly when the 64-bit position does not wrap among them or their number divides 2^64 |
| Keys.PickFindsIff | internal/proxy/keys.go:61-78 | picking finds a key whenever there is one, for every set ruled out, under exactly that condition |
| Keys.EachKeyOnce | internal/proxy/keys.go:40-78 | |keys| picks in a row return each key once |
| Keys.KeyPicker.Bench | internal/proxy/keys.go:97-111 | only this key sits out, for one refusal more and at most five minutes |
| Keys.WaitsGrow | internal/proxy/keys.go:13-18 | waits double from ten seconds to the cap without Retry-After, are what it says with it, and end within five minutes |
| Keys.KeyPicker.Remaining | internal/proxy/keys.go:124-131 | the key sits out at every instant before that long, and not after |
| AttemptTrace.OneOutcomeIff | internal/handlers/proxy.go:522-538 | one row says how the request ended exactly when every stream that logged itself while held back is the one delivered |
| AttemptTrace.TwoOutcomes | internal/proxy/ssestream.go:189-201 | a stream that logs itself on one channel, then an answer from another: two rows say how the request ended |
| AttemptLog.Response.Close | internal/proxy/client.go:459-469 | a response's row is written once, marked retried or not, however often it is closed |
| AttemptLog.Response.Prime | internal/proxy/ssestream.go:147-201 | a stream that fails before content keeps its row pending, unless its account could not be remembered: then the row is written at once |
| AttemptLog.AttemptResult.Retried | internal/handlers/proxy.go:936-948 | the first verdict is the only one; an unanswered attempt's row is written marked retried |
| AttemptLog.AttemptResult.Concluded | internal/handlers/proxy.go:952-960 | writes the row of an attempt that got no answer; a response's is left to its delivery |
| AttemptLog.AbortLogGuard.LogAndDisarm | internal/handlers/proxy.go:348-358 | writes the request's own row, once |
| AttemptLog.Ask | internal/handlers/proxy.go:789-828 | the answer is the response's: refused by its status, served, or a stream held back that failed; a stream is read ahead exactly where it is to be held |
| AttemptTrace.RefusalsMean | internal/proxy/client.go:96-99 | exactly the statuses 400 to 499 but 408 and 429 rule a channel out, exactly 401 and 403 its key, and these and 429 turn a key away |
| AttemptRules.OrderMeans | internal/handlers/proxy.go:566-887 | events in an order that may happen never call what was ruled out, call nothing after a call that served, and stay within the retries |
| ProxyAttempts.Routes.SelectUpstream | internal/handlers/proxy.go:635-650 | the query names a channel not excluded, or that it names none for these exclusions, or that it failed, is recorded |
| ProxyAttempts.Routes.NextKey | internal/handlers/proxy.go:662-690 | the key is the one the rotation gives for the keys refused and those sitting out, or the one a continued response names |
| ProxyAttempts.Routes.Consider | internal/handlers/proxy.go:660-721 | a channel without a usable key is ruled out; one whose key sits out waits for the others; otherwise it is chosen with that key once built for and admitted, or ruled out, or its response's account has changed |
| ProxyAttempts.Routes.Admit | internal/handlers/proxy.go:692-721 | chosen when a request can be built, the account is the same, and, unless the channel is kept, its rate limit admits one more |
| ProxyAttempts.Routes.Choose | internal/handlers/proxy.go:631-721 | selection ends: on a channel and a key that may be called now, or where the request has to stop and why |
| ProxyAttempts.Routes.Pause | internal/handlers/proxy.go:763-783 | waits before the channel just called is called again, unless for another key; the client may go meanwhile |
| ProxyAttempts.Routes.AsksClient | internal/handlers/proxy.go:850-854 | a client seen gone ends the request; otherwise it goes on |
| ProxyAttempts.Routes.BenchKey | internal/handlers/proxy.go:836-848 | the refused key sits out for the time its refusals or Retry-After ask; the channel is kept exactly when another of its keys is fresh |
| ProxyAttempts.Routes.Try | internal/handlers/proxy.go:789-878 | one call is one event with its answer, in an order that may happen; it ends the request exactly when served or without retries left; success forgets the key's refusals and charges the channels that refused before |
| ProxyHandler.Replay | internal/handlers/proxy.go:588-595 | ends on the held stream even when it is also the last failure, whose row is not written twice |
| ProxyHandler.NothingLeft | internal/handlers/proxy.go:723-755 | the held stream, else the last failure, else a row with 429, 502 or 503 by what was met |
| ProxyHandler.EndOnLastCall | internal/handlers/proxy.go:854-862 | the last answer ends the request, unless the client holds an earlier stream's headers |
| ProxyHandler.NextAttempt | internal/handlers/proxy.go:621-783 | either the request is over, every row settled and its status written, or a channel and a key may be called now |
| ProxyHandler.CallOnce | internal/handlers/proxy.go:789-886 | a call ends the request when it was served, no retry is left or the client has gone, and only then |
| ProxyHandler.RunProxyAttempts | internal/handlers/proxy.go:566-887 | the attempts go on until served, out of retries, or for a reason the events give; what is delivered and every row follow from the events |
| ProxyHandler.Handle | internal/handlers/proxy.go:506-539 | for every upstream, routing and client: the request goes on until a call serves it, no retry is left, the client has gone, or routing has nothing but what was ruled out; the client receives what served, the last failed stream, or the last answer; each call has one row, and the rows not marked retried are one, plus one for each stream that logged itself and was not delivered; a request no call answers has a row with its status |
| Stats.FiledUnder | internal/db/stats.go:65-69 | a row is filed under the one whole hour it is in, with its channel and its model |
| StatsCounts.RequestsAndAttempts | internal/db/stats.go:38-55 | requests are the rows not marked retried, attempts all rows, token requests those requests with a token count |
| StatsCounts.ErrorsAndCancelled | internal/db/stats.go:40-53 | cancelled are the requests with 499; errors those without a status, or one outside 200 to 299 but 499; attempt errors the same of all rows |
| StatsCounts.StatusClasses | internal/db/stats.go:42-44 | 2xx, 4xx but 499, and 5xx or more, each counted by its own range |
| StatsCounts.Durations | internal/db/stats.go:45-55 | durations not negative are counted and summed, over requests and over attempts |
| StatsCounts.Tokens | internal/db/stats.go:56-58 | each token sum is over every row, one without a count adding nothing |
| StatsCounts.BoundsAreExtremes | internal/db/stats.go:47-48 | the bounds are the shortest and the longest duration of a request, and NULL when none had one |
| Stats.UpsertAdds | internal/db/stats.go:120-135 | the upsert, NULL bounds and all, is the same combination the rollup uses |
| Stats.PlusLaws | internal/db/stats.go:106-135 | counters combine in any order and grouping |
| Stats.FoldSplit | internal/db/stats.go:241-279 | splitting a condition in two loses no row and counts none twice |
| Stats.FoldBalanced | internal/db/stats.go:38-59 | whatever is counted, every request is a success, a failure or cancelled, and the average duration lies between the bounds |
| StatsStore.StatsStore.Rollup | internal/db/stats.go:106-116 | one line per hour, channel and model some row has, with the counters of its rows |
| StatsStore.StatsStore.AddStats | internal/db/stats.go:140-147 | the table becomes that of the rows filed before and the batch's |
| StatsStore.StatsStore.InsertBatch | internal/proxy/logging.go:679-688 | rows and their counts commit together: the table is always that of every row ever logged |
| StatsStore.IncrementalIsBatch | internal/db/stats.go:120-147 | however the rows are split into batches, upserting each batch gives the table one rollup of all of them gives |
| StatsStore.StatsStore.SumFacts | internal/db/stats.go:241-323 | the sum over the table's whole hours and the rows at the edges, in whatever order the lines come |
| StatsSpan.PartsCover | internal/db/stats.go:241-279 | every second of a span lies in exactly one of its parts, and no other second in any |
| StatsSpan.SoundAgrees | internal/db/stats.go:241-279 | reading a span counts exactly its rows, for any choice of channels, models or whole-hour buckets |
| StatsSpan.DetachedAgreesIff | internal/db/log.go:187-203 | whichever channels are deleted after a history was filed, reading a sound span counts its rows if and only if what is asked for does not tell the edges' rows from rows without a channel |
| StatsSpan.DetachedMiscounts | internal/db/log.go:187-203 | one edge row whose channel was deleted, and a filter by channel that tells it apart, are miscounted |
| StatsSpan.AgreementIff | internal/db/stats.go:241-279 | for every history this holds if and only if the span's end is none, or an hour or more from the epoch |
| StatsSpan.UnsoundMiscounts | internal/db/stats.go:246-249 | with an end within the first hour, a row past the end is counted |
| StatsSpan.BucketByTheHourIff | internal/db/logoverview.go:220-229 | in a whole-hour zone an hour lies in one whole-hour bucket exactly when it is not one that a bucket's edge before the epoch splits |
| StatsSpan.SeriesAgrees | internal/db/logoverview.go:220-232 | each bucket read from the table counts the rows it should, for rows in hours no edge splits |
| StatsSpan.SeriesAgreesIff | internal/db/logoverview.go:220-232 | for every history and span each bucket counts the rows it should if and only if the zone is less than one bucket behind UTC |
| StatsSpan.SplitHourMiscounts | internal/db/logoverview.go:223-232 | a bucket or more behind UTC, a row in the second after an edge before the epoch is missed |
| StatsSpan.OnlyRequestsShow | internal/db/logoverview.go:204-232 | retried attempts add nothing to the series, and a bucket shows exactly when a request fell in it |
| StatsSpan.LatencyBucketSeconds | internal/db/logoverview.go:102-112 | the narrowest step for about forty buckets, or whole weeks; whole hours unless half an hour suffices |
| Authentication.StepKeepsCredentials | internal/authstate/credential.go:146-274 | every step keeps cache, snapshot and calls resting on committed credentials, and the generation only grows |
| Authentication.StepKeepsQueue | internal/authstate/throttle.go:289-320 | the slot has a holder exactly when it is taken, and the waiting count is the number waiting |
| Authentication.ReturnsOnlyProved | internal/authstate/credential.go:201-274 | for every interleaving, a returned generation's one credential verifies the token, and it was the published generation at some moment of the call |
| Authentication.NeverOlder | internal/authstate/credential.go:201-248 | it is never older than the generation published when the call began |
| Authentication.GenerationsOnlyGrow | internal/authstate/credential.go:256-274 | rotations published out of order never take the generation or the snapshot back |
| Authentication.PublishedTakesEffect | internal/authstate/credential.go:256-274 | in every run a publication that is over has its credential, or a newer one, installed and published |
| Authentication.ClearedMeanwhile | internal/authstate/credential.go:256-274 | and emptied the cache as its last step |
| Authentication.NothingOlderAfter | internal/authstate/credential.go:201-274 | a call begun once a publication is over never returns an older generation |
| Authentication.RestsOn | internal/authstate/credential.go:201-248 | a returned generation rests on the cache holding the token for it, or on a verification after which it was still the published one |
| Authentication.AlonePublishes | internal/authstate/credential.go:256-274 | undisturbed, a publication installs its credential if it is the newest, empties the cache, and changes nothing else |
| Authentication.OvertakenPublishes | internal/authstate/credential.go:256-274 | one overtaken between its two looks at the generation still does |
| Authentication.RotationTakesEffect | internal/db/settings.go:155-174 | after a rotation is committed and published, a call passes exactly when its token verifies against the new hash, whatever was cached |
| Authentication.CachedPasses | internal/authstate/credential.go:201-212 | a cached token passes at once, whatever the throttle says and whoever has the slot |
| Authentication.SecondLookPasses | internal/authstate/credential.go:223-227 | a call that waited while another proved its token verifies nothing |
| Authentication.OneVerification | internal/authstate/throttle.go:283-320 | at most one call holds the verification slot, and at most eight wait for it |
| Authentication.AloneProvesIff | internal/authstate/credential.go:201-248 | undisturbed, a call returns the current generation exactly when its token verifies and is cached or admitted by the throttle, and leaves it cached |
| Authentication.CommittedOnce | internal/db/settings.go:155-174 | in every run a version's credential stays what it was committed as |
| Authentication.OneRotationWins | internal/db/settings.go:155-174 | of the rotations that expect one version at most one commits; after it any other leaves the whole state as it is |
| Authentication.TakesPublished | internal/authstate/credential.go:201-248 | a call takes its generation from the published one or keeps the one it has, whatever rotates |
| Throttle.BackoffDoubles | internal/authstate/throttle.go:236-251 | the delay doubles from a second to the cap and stays there, though the shift overflows |
| Throttle.Throttle.Admit | internal/authstate/throttle.go:143-167 | refused exactly while the caller's gate cools down or its own penalty runs; the other gate is not touched |
| Throttle.Throttle.Prune | internal/authstate/throttle.go:262-274 | room is made only in a full table, among the clients gone quiet and not penalised, and among all of these |
| Throttle.Throttle.RecordFailure | internal/authstate/throttle.go:183-232 | the table stays bounded, no other client loses a running penalty, a listed client's streak goes on, and loopback failures never count against remote callers |
| Throttle.StreakGoesOn | internal/authstate/throttle.go:210-232 | failures less than fifteen minutes apart add up, and from the sixth each blocks its client |
| Throttle.HundredthCloses | internal/authstate/throttle.go:187-201 | the hundredth failure within a minute closes the gate for thirty seconds; fewer leave it as it was |
| Health.RecoveryIsExact | internal/proxy/health.go:69-88 | recovering at one time and again later leaves what recovering once later does |
| Health.LooksChangeNothing | internal/proxy/health.go:69-180 | looks inserted anywhere in a trace change nothing seen afterwards |
| Health.TraceSound | internal/proxy/health.go:69-137 | scores stay between 0 and 100, and tracked ones below 100 |
| Health.RecoversByIntervals | internal/proxy/health.go:69-88 | k whole intervals after the last adjustment the score is k increments higher, up to full; before the first nothing changes |
| Health.NeverRecovers | internal/proxy/health.go:69-76 | without an increment, or with less than a second between recoveries, time changes nothing |
| Health.IntervalsRestart | internal/proxy/health.go:100-130 | a failure with a penalty, or a success that moves the score, starts the interval anew |
| Health.RemainingIs | internal/proxy/health.go:158-168 | a time is reported exactly for a recovering score of zero: what is left of the interval, rounded up to seconds |
| Health.UntrackedIsFull | internal/proxy/health.go:50-59 | an entry at full health behaves as none |
| Health.ScoresMove | internal/proxy/health.go:90-137 | a failure costs the penalty down to zero, a success earns the increment up to full, and time never lowers a score |
| Health.RecoversInTime | internal/proxy/health.go:158-168 | after the seconds reported a channel at zero has recovered |
| Health.AutoWeightManager.RecordFailure | internal/proxy/health.go:90-113 | one channel's entry becomes what a failure makes of it; no other changes |
| Health.AutoWeightManager.RecordSuccess | internal/proxy/health.go:115-137 | one channel's entry becomes what a success makes of it; no other changes |
| Health.AutoWeightManager.Snapshot | internal/proxy/health.go:140-180 | reports the score as of now, and leaves the entry as a look does |
| Quota.Tracker.Admit | internal/quota/tracker.go:86-109 | admits exactly while what is stored, what is metered and 4096 for each request held stay below the limit, and holds one reservation more |
| Quota.Tracker.Meter | internal/quota/tracker.go:113-127 | adds known usage to one token; no other token changes |
| Quota.Tracker.Settle | internal/quota/tracker.go:132-146 | drops settled usage of one token, never below zero, and its entry when idle |
| Quota.Reservation.Release | internal/quota/tracker.go:72-78 | gives back the hold once; a second release does nothing |
| QuotaRun.OvershootIsBounded | internal/quota/tracker.go:11-27 | in every run, however old the totals admission goes by, no more requests are in flight than limit / 4096 rounded up; the total stays below the limit plus that many real costs where no read missed usage settled since, and one more cost for each that did |
| QuotaRun.InFlightFits | internal/quota/tracker.go:11-27 | in every run no more requests are in flight than fit between the stored total and the limit at 4096 each |
| QuotaRun.RoomsAreFilled | internal/quota/tracker.go:86-109 | and so many can be in flight at once |
| QuotaRun.MissesIff | internal/middleware/auth.go:213-237 | an admission misses usage exactly when what it goes by is less than the usage there is |
| QuotaRun.WidthBoundsOvershoot | internal/middleware/auth.go:213-237 | with at most so many requests between their read of the total and their admission at once, the total of a run of any length stays within twice the limit and that many real costs more than fit |
| QuotaRun.StaleReadsOvershoot | internal/middleware/auth.go:213-237 | for every limit above the start and every cost: of n requests that read the total before the first is admitted all n get through at full cost, one after another |
| QuotaRun.BoundedIff | internal/quota/tracker.go:11-27 | over all runs the promised bound, or any bound, holds if and only if the limit was reached from the start or requests cost nothing |
| QuotaRun.StepKeeps | internal/quota/tracker.go:86-187 | what is used and what running requests may still cost stay within the bound at every step |
| ByteEdits.ApplyEdits | internal/proxy/jsonedit.go:112-130 | succeeds exactly when no edits overlap, in any order given; the result is the body with those ranges replaced, of the computed size |
| ByteEdits.OrderIsFree | internal/proxy/jsonedit.go:110-130 | edits that start apart mean the same in whatever order they come |
| ByteEdits.SortedEdits | internal/proxy/jsonedit.go:116-116 | sorting by start, stably, changes nothing about what the edits mean |
| BodyRewrite.ValueStart | internal/proxy/jsonedit.go:74-87 | finds the value past the colon and padding, or that there is no colon |
| BodyRewrite.EditsAreApart | internal/proxy/client.go:193-315 | the effort, model and usage edits together, nested and inserted ones included, never overlap or start together |
| BodyRewrite.EffortEdits | internal/proxy/client.go:193-224 | in order, an edit exactly for every place, nested or not, that states an effort the channel maps |
| BodyRewrite.ModelEdits | internal/proxy/client.go:229-247 | in order, an edit exactly for every model not the forwarded one, duplicates included |
| BodyRewrite.UsageEdits | internal/proxy/client.go:252-290 | in order, an edit exactly for every nested option not true, every options value that is no object, and every place the option is missing |
| BodyRewrite.RequestsStreaming | internal/proxy/client.go:318-326 | true exactly when the last "stream" is the literal true |
| BodyRewrite.PrepareUpstreamBody | internal/proxy/client.go:300-315 | the edits made are exactly the effort edits, the model edits when a model is forwarded, and the usage edits when a chat completion asks for a stream; every other byte stays, and anything but an object goes as it is |

## Left out

- Compression of stored chunks and snapshot metadata: packing and unpacking are taken as inverse, and a chunk row holds its bytes.
- The metadata table and its clean-up (`internal/db/logbody.go:138-155`, `internal/db/logbody.go:596-613`): they follow the chunk table's pattern with one row per snapshot.
- Migration of bodies stored by older versions, and the image rewriting of captured bodies.
- LogRecord.DecodeRecord: a damaged record that states a huge number of chunks, with a length and a captured size that pass the checks, makes the source fail at its allocation (`internal/logbody/record.go:154`) before any id is read; the model gives an error.
- LogRecord.Decoder.NextSlot: as LogRecord.DecodeRecord, it allocates nothing before reading the ids.
- SQL, drivers, retries on a locked database and free-page reclaiming: a transaction is one step, and one that fails leaves the tables unchanged.
- Collector.CollectLogChunks: is proved with nothing else running; what it does among writers is in LogSystem, where its mark and each of its sweeps is a step.
- LogSystem.DeleteKeeps: takes any set of logs to delete; which ones retention chooses is not modelled.
- ProxyHandler.Handle: starts where routing has been resolved; the checks before it, each of which writes the guard's row and returns, are not modelled. Headers sent and pings while a stream is held back are not modelled, nor are the log entry's fields other than whose row it is, its status and its retried mark. A row dropped from a full log queue is not modelled. The key picker is changed by this request only while it runs; in the source requests share one picker under a lock.
- ProxyAttempts.Routes.SelectUpstream: which channel routing draws, by weight and health, is left open; only that it is not an excluded one.
- ProxyAttempts.Routes.Choose: the channels there are do not change while one request runs; routing may answer differently each time, but only with one of them.
- A nil key picker, which takes the first key not refused and remembers nothing.
- StatsStore.StatsStore.AddStats: leaves out the name column, which keeps the latest name given, and rows without a readable time, which are filed nowhere. Times are at or after the epoch.
- StatsSpan.SoundAgrees: asks that the span's edge hours, whose rows are read from the logs themselves, are as they were logged: retention has not reached them, and no channel of theirs was deleted, which takes the channel from the rows and not from the table (`internal/db/log.go:187-203`, `internal/db/sql.go:93`). StatsSpan.DetachedAgreesIff is what holds after deletions.
- StatsSpan.SeriesAgrees: asks that no row is in an hour that a bucket's edge before the epoch splits; StatsSpan.SeriesAgreesIff says when there is none.
- Latency quantiles, rankings by model or token, and averages as floating point; `Stats.FoldBalanced` bounds the average by its sum and count.
- Throttle.Throttle.RecordFailure: the calls of the step system in Authentication ask the throttle through an open answer; the two are not composed.
- Authentication.ReturnsOnlyProved: the calls are steps over shared state rather than methods of an object, so that they interleave; how long a call takes, and fairness among those waiting, are not modelled.
- PHC string parsing, hashing of new credentials and the seeding of the fingerprint key: a cached token stands for its keyed fingerprint.
- Health.AutoWeightManager.Snapshot: the effective weight is a real number, and the seconds left are rounded up exactly. Mutual exclusion of the manager's methods is taken from its lock.
- QuotaRun.OvershootIsBounded: asks that the sums admission forms fit 64 bits, as QuotaRun.WidthBoundsOvershoot and QuotaRun.BoundedIff do; past that the code's sum wraps. Usage of requests admitted without a limit is not part of the run.
- BodyRewrite.PrepareUpstreamBody: how members are found, strings read and efforts mapped are parameters; the parser's member ranges are in order, apart and inside the object (objects as in section 4 of RFC 8259).
- Sliding-window rate limits, header filtering and redaction, redirects, the console, theming, backups and the command line: plumbing, or one-branch checks.
