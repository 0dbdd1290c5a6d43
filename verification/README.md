# Collector pipeline, verified

A model in Dafny of the collector's poll → diff → encode → queue → publish
pipeline, with proofs of what every run of it keeps. `dafny verify dfyconfig.toml`
checks everything.

Each component is modelled twice and the two are tied together. A *machine* is a
datatype of state with a function per atomic step; the main results are lemmas about
every list of steps, so about every interleaving. A *class* holds the fields the
program updates in place, and every method's contract equates the object's new state
with steps of the machine. Loops of the program are loops here, each proved against a
specification function whose own properties are proved as lemmas.

| file | subject |
|---|---|
| `Synth.dfy` | the engine: hold, seed, diff against the last good facet; projection to one (device, kind) |
| `FaultDiffer.dfy`, `IncidentDiffer.dfy`, `DetectorDiffer.dfy` | the three differs whose logic is more than field comparison |
| `Streams.dfy` | what a whole run's events say: faults, incidents, detector volumes |
| `Durable.dfy`, `DurableState.dfy`, `KeyCodec.dfy` | write-behind state over the key-value bucket; its object; its storage keys |
| `Loading.dfy` | what load reads out of any bucket, and when it reads a key's own value |
| `Polling.dfy` | a snapshot is the polls of its readings, the change hook included |
| `Restart.dfy`, `SecondEntries.dfy`, `Crashes.dfy` | engine and durable state composed: restarts, exactly when they are invisible, and lives that crash |
| `Publish.dfy`, `Drainer.dfy`, `Publisher.dfy` | the bounded queue, its drainer and the broker; the drain loop turn by turn, and why it ends; the object |
| `DedupWindow.dfy` | a broker that forgets ids after a window |
| `Occurrences.dfy` | sink, event id and publisher composed: each occurrence once |
| `Consumer.dfy` | from snapshots to the broker's stream: what its consumer rebuilds |
| `Sink.dfy` | the settlement of each event, and the accounting of sink and publisher together |
| `Tokens.dfy`, `Subject.dfy` | dot-separated subjects; templates, stream filters, boot validation |
| `SourceUrn.dfy`, `Ulid.dfy`, `EventId.dfy` | the source URN, the digest framing, the ULID packer, the event id |
| `Runner.dfy`, `PollLoop.dfy` | the poll machine of one device; runner and device tracker as objects |
| `LogShip.dfy`, `Heartbeat.dfy` | the log rate limiter; heartbeat slots |
| `Prelude.dfy`, `Model.dfy`, `Strings.dfy`, `Arithmetic.dfy` | shared vocabulary, domain types, string order and sorting, division facts |

## What is assumed

- Facets of durable kinds encode to non-empty bytes and decode back to themselves
  (`Restart.Faithful`); decoding yields a facet of the kind and type asked for.
- Configured device ids are distinct, and channels are distinct within one detector
  facet. Incidents and faults need no such assumption except for invariance under
  reordering, where entries sharing an id must be equal.
- The queue's capacity is at least 1. The stream results assume a broker that keeps its
  store and that a permanent refusal depends on the message alone. They assume distinct
  message ids, which `Occurrences.DistinctIdsExactlyWhen` ties to the events, and a broker
  that drops repeated ids however late, which `DedupWindow.WindowSufficesExactlyWhen`
  ties to the timing of retries.
- SHA-256, FNV, time formatting and upper-casing are arbitrary functions; where lowercase
  is spoken of, upper-casing is what it should be on ASCII.
- `Consumer` assumes that a consumer's decoding reads back the engine's events.

## Where the code differs from what is said of it

- `docs/adr/0020-broker-absence-is-latency.md` says that every drop is counted. An
  event `Enqueue` refuses is logged and not counted (`internal/app/app.go:354-356`).
  The model keeps refusals in a history, and `Sink.RefusedExactlyWhen` says when they
  happen: while draining, which nothing given by runners, heartbeat or shipper meets,
  since they have stopped by then (`internal/app/app.go:247-261`); or at any time, when
  an adapter names a device by an id that is no legal token and the template renders
  it. Boot validation checks the configured ids, and the runner does not compare them
  with the adapter's (`internal/runner/runner.go:177`).
- The same document says that the latest snapshot is kept while a device is held. The
  code ignores a held poll (`internal/synth/synth.go:146-151`), as the model does.
- The storage key's decoder is lenient: a key with stray low bits in its device part,
  which this program never writes, names a device it does write
  (`KeyCodec.CanonicalExactlyWhen`, `KeyCodec.SecondSpelling`). If such an entry is in
  the bucket and usable, load may seed from it at every boot and nothing corrects it, so
  a restart then repeats events. `SecondEntries.InvisibleExactlyWhen` is the exact
  condition, `SecondEntries.TwoSpellingsReplay` a bucket that fails it, and
  `Restart.LifeKeepsCanonical` shows that the program never makes one.
- The log limiter reads a window start at the zero instant as "no window": a clock
  that reads it is never limited. `LogShip.RateBoundExactlyWhen` is the exact condition.
- The comment on `Bindings` speaks of one filter for each distinct namespace; when no
  fixed token of the template holds the namespace, the list repeats the one filter
  (`Subject.ListRepeatsExactlyWhen`, `Subject.RepeatingList`).

## Model

| member | source | states |
|---|---|---|
| Restart.RestartsAreInvisible | internal/durable/durable.go:100-118 | Cut a run of polls into any number of lives, each ending with nothing pending, with keys listed in any order, the writer interleaved anyhow and any Puts failing on the way: every durable (device, kind) of which the first bucket holds no usable entry under another key emits exactly what one life that saw the same polls emits |
| Restart.RestartsMatchOneRun | internal/synth/synth.go:98-184 | The same against the plainest run there is: load once, seed every device, poll; the devices seen must be configured |
| Restart.LivesFold | internal/durable/durable.go:226-274 | Over a chain of clean lives from a bucket without a second usable entry, the stored facet and the events of a (device, kind) are its differ folded over all good readings, starting from what the first bucket held, and the last bucket has no second entry either |
| Restart.LifeFollows | internal/synth/synth.go:146-184 | In every state of a life, from any bucket and any listing order: the recorded encodings of a (device, kind) are those of its good readings, and its events and memory are its differ folded over them from what load seeded |
| Restart.LifeEvents | internal/synth/synth.go:98-184 | Without a second usable entry the events of a life are determined by the boot bucket and the readings not held, whether or not load has finished |
| Restart.LifeEventsFromLoad | internal/durable/durable.go:240-272 | From any bucket they are determined by the last usable entry listed and the readings not held |
| Restart.LifeKeepsOwn | internal/durable/durable.go:120-157 | A life, ended anywhere, never gives a (device, kind) a usable entry under another key |
| Restart.CleanLifeIsStored | internal/durable/durable.go:100-118 | A life that ends with nothing pending or unsettled leaves in the bucket, for each durable kind without a second entry, exactly the facet the engine remembers, which the next load will seed |
| Restart.CleanEndReachable | internal/durable/durable.go:97-118 | From any moment of a life that has seeded its devices, acknowledged writes alone reach a clean end, and change nothing remembered or emitted |
| Restart.CrashRestoresAnObservedState | internal/durable/durable.go:198-222 | Stopped anywhere, even mid-write, the bucket restores the memory the engine had after some prefix of its good readings, and says which; the next load seeds it |
| Restart.HeldPollsAreNeverTaken | internal/synth/synth.go:86-92 | Removing from a run every poll it held changes nothing at all of its final state, events and history |
| Polling.SnapshotIsItsReadings | internal/synth/synth.go:146-184 | At any moment of any life, applying a snapshot and recording what the change hook is told takes engine, events and durable state where polling its readings one by one takes them |
| Polling.ApplyAndRecord | internal/synth/synth.go:177-182 | `Apply` with the durable state as its hook: the specified events and memory, and every good durable facet recorded in order |
| Restart.LifeKeepsCanonical | internal/durable/durable.go:120-157 | If every key of the boot bucket is in the program's spelling, every key stored in every later state is, so no (device, kind) ever has a second entry |
| SecondEntries.InvisibleExactlyWhen | internal/durable/durable.go:127-157 | For a kind whose differ tells facets apart: restarts from a bucket are invisible for a (device, kind), over every chain of clean lives and every listing order, if and only if no other key of the bucket parses to it with a usable value |
| SecondEntries.SecondEntryReplays | internal/durable/durable.go:226-274 | Given any second usable entry and any reading, two clean lives each emit the change from that entry, and one life seeing the same two polls emits it once |
| SecondEntries.TwoSpellingsReplay | internal/durable/durable.go:120-157 | The same at a bucket of two keys, `YQ.` and `YR.` with one kind, whatever the two values are: the program keeps the first current and never corrects the second |
| SecondEntries.FaultsAreDiscerning | internal/synth/fault.go:17-44 | The fault differ tells facets apart, so the condition is exact for fault sets |
| SecondEntries.IncidentsAreDiscerning | internal/synth/perception.go:23-90 | And the incident differ, so it is exact for incidents too |
| Loading.LoadsOwnKeyExactlyWhen | internal/durable/durable.go:240-272 | In every listing order a (device, kind) is seeded with what its own key holds, if and only if no other usable key of the bucket parses to it with a different facet |
| Crashes.CrashesOnlyForget | internal/durable/durable.go:198-222 | After any chain of lives stopped anywhere, the bucket holds the memory of the surviving readings, and what was emitted is, life by life, what a collector that had taken only the survivors would emit for that life's readings |
| Crashes.LostReadingsAreReplayed | internal/durable/durable.go:198-222 | A life's events end with those of the readings its bucket lost, taken from the memory the next life starts with |
| Crashes.LostFacetsAreReplayed | internal/durable/durable.go:198-222 | If the next life's first good polls find what the lost ones found, at whatever times, its events begin with those of the lost readings again, but for their bases; for any kind whose differ uses the base only to stamp events |
| Streams.FaultsAreTimeBlind | internal/synth/fault.go:17-44 | The fault differ is such a one |
| Streams.IncidentsAreTimeBlind | internal/synth/perception.go:23-90 | And the incident differ |
| Crashes.FaultConsumerAfterCrash | internal/synth/fault.go:17-44 | A fault consumer that followed a life to its crash is right after the next good poll if and only if, wherever it and the bucket disagree about a fault, the poll sides with the consumer |
| Crashes.IncidentConsumerAfterCrash | internal/synth/perception.go:23-90 | The same for an incident consumer: right if and only if, wherever it and the bucket disagree about an incident, the poll differs from the bucket |
| Crashes.FaultsSurviveRestarts | internal/durable/durable.go:100-118 | Over any number of clean restarts, replaying raises and clears over the faults first stored gives those last stored, each fault raised and cleared in turn |
| Crashes.IncidentsSurviveRestarts | internal/durable/durable.go:100-118 | The same for incidents and their assessments |
| Durable.AlwaysCoherent | internal/durable/durable.go:141-157 | The per-key invariant of every interleaving of record, take and Put outcomes (stored, refused, stored but reported failed): where the latest encoding is, which observation the batch and the bucket hold, and the bound on acknowledged Puts |
| Durable.LatestIsKept | internal/durable/durable.go:283-322 | A recorded key's latest encoding is pending if the key is, else the unsettled batch value, else both marked written and in the bucket |
| Durable.FlushedBucketIsCurrent | internal/durable/durable.go:100-118 | With nothing pending and nothing unsettled, the bucket holds the latest encoding of each recorded key and is untouched at every other key |
| Durable.FlushStores | internal/durable/durable.go:97-118 | After any run since load and a flush that ends with nothing pending, the bucket holds the latest encoding of each recorded key and is untouched at every other |
| Durable.PutsNeverExceedChanges | internal/durable/durable.go:145-156 | For each key, acknowledged Puts never exceed the consecutive recorded encodings that differ |
| Durable.BucketWasObserved | internal/durable/durable.go:298-322 | At any moment the bucket holds what it held at boot or an encoding that was recorded, and which one is known |
| Durable.HistoryOnlyAdvances | internal/durable/durable.go:198-222 | As a run goes on, the history index of the bucket's value never decreases |
| DurableState.State.Record | internal/durable/durable.go:141-157 | The change hook is the machine's record step on the facet's key and encoding; an unencodable facet changes nothing |
| DurableState.State.TakePending | internal/durable/durable.go:283-296 | Empties pending, returns each value with what was written before, marks all written: the machine's take step |
| DurableState.State.Write | internal/durable/durable.go:300-322 | Settles every entry of a batch in some order, each by one Put, in the order the bucket answers them; reports failure exactly when one was not acknowledged, and otherwise queues nothing again |
| DurableState.State.PutOne | internal/durable/durable.go:302-320 | One entry is put once, and settled by how that Put ends |
| DurableState.State.Flush | internal/durable/durable.go:97-118 | Closing and flushing is a run of take and Put steps from the old state, and the number returned is what is left pending: none, unless all rounds were used and some Put of the flush went unacknowledged |
| DurableState.State.Round | internal/durable/durable.go:198-222 | One round of the writer takes everything pending and puts it; something is pending afterwards only if a Put of the round went unacknowledged |
| DurableState.State.Load | internal/durable/durable.go:226-274 | For any bucket, and any listing that holds its keys, in any order, with repeats and keys since deleted: `written` becomes the usable entries and each device is seeded, kind by kind, with its last usable entry listed |
| DurableState.State.SeedDevices | internal/durable/durable.go:270-272 | Every configured device is seeded with what was listed for it, and with nothing where nothing was |
| KeyCodec.KeyRoundTrip | internal/durable/durable.go:120-137 | Parsing the key of any byte string and kind gives them back; the device part has only letters, digits, `-` and `_`, and so no dot |
| KeyCodec.KeyInjective | internal/durable/durable.go:123-125 | Two (device, kind) pairs share a key only if they are equal |
| KeyCodec.SecondSpelling | internal/durable/durable.go:127-137 | For every kind there are two different keys that parse to the same entry, one of which the program never writes |
| KeyCodec.CanonicalExactlyWhen | internal/durable/durable.go:120-137 | A key that parses is in the program's spelling if and only if its device part has no carriage return or line feed and no stray low bits in its last group |
| Synth.Engine.Apply | internal/synth/synth.go:146-184 | New memory and events are the facet-by-facet run of the specification; the change hook hears exactly the good durable facets in order, the reject hook exactly the wrong-typed ones |
| Synth.Engine.Seed | internal/synth/synth.go:98-110 | The device's memory becomes the last usable facet of each kind, and its hold is released |
| Synth.SeedKeepsLast | internal/synth/synth.go:101-107 | Of the usable facets of a kind, the last is kept |
| Synth.SeedKeepsUsable | internal/synth/synth.go:101-107 | Nothing is kept of a kind without a usable facet |
| Synth.Engine.HoldUntilSeeded | internal/synth/synth.go:89-92 | Sets the hold and nothing else |
| Synth.Register | internal/synth/synth.go:62-84 | Succeeds exactly when no two differs share a kind; then every differ is found under its own kind |
| Synth.PollsProject | internal/synth/synth.go:146-184 | Over any interleaved polls, the events and final cell of a (device, kind) are its differ folded over only its own successfully read, right-typed facets in order |
| Synth.Projection | internal/synth/synth.go:154-182 | The same reading by reading, from any state |
| Synth.OnlyGoodReadingsMatter | internal/synth/synth.go:142-184 | Runs with the same good readings of a (device, kind) agree on its events and memory, whatever failed, absent, rejected or foreign readings surround them |
| Synth.FailedKindIsSilent | internal/synth/synth.go:162-176 | A kind a snapshot reports failed, or has no rightly typed facet of, emits nothing and keeps its memory, whatever facets of it the snapshot carries |
| Synth.ChangesExactly | internal/synth/synth.go:162-182 | The change hook is told of a facet exactly when the snapshot has it, of a durable diffed kind, rightly typed and not failed |
| Synth.RejectsExactly | internal/synth/synth.go:171-176 | A facet is rejected exactly when it is of a diffed kind, not failed, and of another type than its differ's |
| FaultDiffer.DiffFaults | internal/synth/fault.go:17-61 | The events are raises over the sorted current ids not held before, then clears over the sorted previous ids now gone, in whatever order the maps are ranged over |
| FaultDiffer.DiffSays | internal/synth/fault.go:17-44 | Every event carries the poll's base; a raise carries exactly the fault the device now reports under an id it did not before, a clear the id of one it no longer reports |
| Strings.KeysInOrder | internal/synth/fault.go:54-61 | Whatever order a map is ranged over, its sorted keys are the one ascending list of them |
| FaultDiffer.DiffReproduces | internal/synth/fault.go:17-44 | Replaying one poll's events over the previous fault ids gives exactly the current ids, and each event is a real transition |
| FaultDiffer.ResyncsExactlyWhen | internal/synth/fault.go:17-44 | From any set of faults a consumer may hold, one poll's events lead to the current ids if and only if, wherever the consumer and the differ's memory differ, the poll sides with the consumer |
| FaultDiffer.OrderIsInvisible | internal/synth/fault.go:46-61 | The events do not depend on the order the device lists its faults in |
| IncidentDiffer.DiffIncidents | internal/synth/perception.go:23-107 | The detected, updated and cleared loops compute the specified events, in whatever order the maps are ranged over |
| IncidentDiffer.DiffSays | internal/synth/perception.go:23-90 | Every event carries the poll's base; a detection exactly the incident now reported, an update its zone and assessment, a clear the zone last reported |
| IncidentDiffer.DiffReproduces | internal/synth/perception.go:23-90 | Replaying one poll's events over the previous assessments gives exactly the current ids with severity, speed, speed-reported and confidence; every update is a change, every detect is of an inactive id, every clear of an active one |
| IncidentDiffer.ResyncsExactlyWhen | internal/synth/perception.go:23-90 | From any assessments a consumer may hold, one poll's events lead to the current ones if and only if, wherever the consumer and the differ's memory differ, the poll differs from the memory |
| IncidentDiffer.OrderIsInvisible | internal/synth/perception.go:92-107 | The events do not depend on the order the sensor lists its incidents in |
| Streams.FaultStream | internal/synth/fault.go:17-44 | Over any polls of any devices, folding a device's raises and clears from its starting faults gives those of its last good poll, each fault raised and cleared in turn |
| Streams.FaultEventsSay | internal/synth/fault.go:17-44 | In any run, every raise carries a fault exactly as listed in the snapshot it is stamped with, and every clear is stamped with one that lacks the fault; never one that reports its fault set failed |
| Streams.IncidentStream | internal/synth/perception.go:23-90 | The same for incidents: ids and assessments of the last good poll, and per id detect, updates, clear |
| Streams.IncidentEventsSay | internal/synth/perception.go:23-90 | The same for detections, updates and clears of incidents |
| Streams.DetectorConservation | internal/synth/detector.go:34-84 | For a channel in every good reading, the reports meet end to start from the first good reading to the last, across failed polls, and their volumes sum to the counter's net advance plus its value at each reset |
| DetectorDiffer.Detector.DiffSamples | internal/synth/detector.go:34-74 | The events are those of the specification at the device's remembered time, and the poll's time is remembered whatever is emitted |
| DetectorDiffer.ReportCovers | internal/synth/detector.go:34-84 | For a channel in both samples there is one report, it spans exactly the two sample times, and its volume is the counter's advance or the value since a reset |
| DetectorDiffer.ReportSays | internal/synth/detector.go:34-84 | A report carries the poll's base, spans the two sample times, and each reading is of a sampled channel, with its occupancy now and its count since the sample before or the reset |
| DetectorDiffer.VolumeCollected | internal/synth/detector.go:55-68 | Over the loop, a channel's collected volume is its delta if it was sampled both times and 0 otherwise |
| DetectorDiffer.AnySortWillDo | internal/synth/detector.go:66-74 | Any rearrangement of the readings into channel order is the one reported, so an unstable sort cannot show |
| Publish.AlwaysAccounted | internal/publish/publish.go:315-436 | In every run the queue is the suffix of the accepted sequence not yet taken or evicted, within capacity; the counters tally the fates of the rest; only the in-flight event is undecided and everything after it was evicted |
| Publish.EveryEventIsAccountedFor | internal/publish/publish.go:231-256 | At every moment the four counters, the event in flight and the queue sum to the events accepted |
| Publish.DrainSettlesEverything | internal/publish/publish.go:282-308 | After Drain the four counters alone sum to the events accepted |
| Publish.AlwaysStreamed | internal/publish/publish.go:315-404 | With distinct ids, the broker's stream is at every moment exactly the accepted events whose fate is published, plus the in-flight one once it has landed |
| Publish.ExactlyOnce | internal/publish/publish.go:213-404 | Under any lost acknowledgements, messages that arrive after their attempt was reported failed, and failures, the stream is free of duplicates, in acceptance order, contains every event counted as published, and holds at most one more: the one in flight or cut short by the stop, in last place |
| Publisher.Publisher.Enqueue | internal/publish/publish.go:231-256 | Refuses exactly while draining; otherwise appends, evicting the oldest exactly when full, and never touches what is in flight |
| Publisher.Publisher.TakeNext | internal/publish/publish.go:415-436 | One look at the queue: takes the oldest event if there is one; with none, returns if draining and waits otherwise |
| Publisher.Publisher.Rest | internal/publish/publish.go:328-346 | The end of a backoff or of the wait in `next`: on with the same event in hand, or, only on the hard stop, out with what was in hand counted |
| Publisher.Publisher.TryPublish | internal/publish/publish.go:379-402 | Settles exactly a refused or acknowledged event; the stream gains the message at most once; otherwise the event stays in flight and the streams are to be provisioned again |
| Publisher.Publisher.PublishOnce | internal/publish/publish.go:379-403 | Always makes an attempt, ending as the broker has it: refused or acknowledged, the event is settled, counted and, if acknowledged, delivered; otherwise it stays in hand through the backoff |
| Publisher.Publisher.EnsureStreams | internal/publish/publish.go:355-371 | Attempts to provision unless drained empty, which returns at once; proceeds exactly when that worked; keeps what is in flight |
| Publisher.Publisher.OneTurn | internal/publish/publish.go:355-403 | One turn takes exactly the steps a turn has in the weather given: what others do between its critical sections, whether provisioning works, how the attempt ends, whether a stop is seen |
| Publisher.Publisher.DrainLoop | internal/publish/publish.go:315-404 | Takes exactly the steps of turn after turn until the drainer returns or the weather ends |
| Publisher.Publisher.Drain | internal/publish/publish.go:282-308 | Once the drainer has returned, nothing is queued or in flight and the four counters sum to the events ever accepted; in calm weather it returns within a turn for each event outstanding and one more, and drops nothing |
| Drainer.CalmDrainFinishes | internal/publish/publish.go:282-404 | If streams can be provisioned and attempts are acknowledged, a draining publisher returns within a turn for each event outstanding and one more, all of them published or found unpublishable and none dropped, whatever others do meanwhile |
| Drainer.TurnAttempts | internal/publish/publish.go:355-381 | With something to send, a turn that finds its streams provisioned, or provisions them, makes an attempt |
| Drainer.IdleTurnsAreExcused | internal/publish/publish.go:355-381 | A turn without an attempt failed to provision, or began with nothing to send |
| Publisher.ExitMeansClosed | internal/publish/publish.go:355-359 | The drainer returns only after draining has begun |
| DedupWindow.WindowSufficesExactlyWhen | internal/publish/publish.go:203-226 | On a broker that remembers ids only for a window, in any run at any times, the stream is free of duplicates if and only if every repeat of an id, late arrivals included, comes within the window of its landing; it is then the stream of a broker that never forgets |
| DedupWindow.NoDuplicatesExactlyWhen | internal/publish/publish.go:203-226 | The same for any list of timed deliveries |
| Sink.Sink.EncodeAndEnqueue | internal/app/app.go:322-368 | The loop over the emitters settles the event exactly as specified: it is the one step of the sink on counters, log and publisher, and nothing else changes |
| Sink.Sink.Submit | internal/publish/publish.go:231-242 | Refuses exactly when the subject cannot be rendered or the publisher is draining; otherwise the rendered message is accepted |
| Sink.SettlesExactly | internal/app/app.go:322-368 | Exactly when an event ends as no emitter (all decline), encode error (the first that does not decline fails), no source (it claims, and the device kind has none), or is the publisher's |
| Sink.AcceptedMessage | internal/app/app.go:337-354 | An accepted event's message has the claimed ce-type and the event's device id rendered as its subject, the claimed data, and the id of source, ce-type, time and identity, or data where there is no identity |
| Sink.AcceptedIsRouted | internal/publish/publish.go:231-236 | With boot validation passed, an accepted event's subject, whatever its device, is the template filled in token by token, every token legal, and the filter of its namespace captures it |
| Sink.StreamIsRouted | internal/publish/publish.go:213-404 | In every run of a booted collector, every message in the broker's stream is that of an event given to the sink and is captured by its namespace's filter |
| Sink.Sink.Receive | internal/app/app.go:181-185 | A batch of events is settled one by one, in order |
| Sink.FirstClaimIsFirst | internal/app/app.go:324-331 | The first emitter in chain order that does not decline decides, and no emitter means all declined |
| Sink.AlwaysBalanced | internal/app/app.go:322-368 | In every interleaving the log holds the settlement of each event given, the three counters are its tally, and the accepted sequence is the messages of its acceptances in order |
| Sink.EachEventEndsOnce | internal/app/app.go:322-368 | The i-th event given has the one settlement its encoding, its source and the publisher's draining give it; if accepted, it has an acceptance index no other event has, whose message is its own and has exactly one fate or one place in the queue |
| Sink.EveryEventEndsOnce | internal/app/app.go:322-368 | The totals of the same: encode errors, no source, no emitter, refused, published, evicted, unpublishable, dropped at shutdown, in flight and queued sum to the events given at every moment; after Drain the last two are gone |
| Sink.PublisherRuns | internal/publish/publish.go:231-436 | Seen from the publisher, a run of the whole pipeline is a run of its machine whose offers are the accepted settlements, so its results carry over |
| Sink.RefusedExactlyWhen | internal/app/app.go:337-357 | With boot validation passed, any event at all is refused exactly when an emitter claims it, its device kind has a source, and either the publisher is draining or the device id it carries is no legal token and the template renders it |
| Sink.RefusalsExactlyWhen | internal/app/app.go:322-368 | Over whole runs of a booted collector: which of the events given were refused, each by that condition at the time it was given |
| Sink.RefusedBeforeDrainExactlyWhen | internal/app/app.go:247-261 | In every run in which Drain has not begun, an event has been refused exactly when it would be published and its device id cannot be rendered |
| Sink.RefusedExactlyWhenDraining | internal/app/app.go:337-357 | With boot validation passed, an event of a configured device or of none is refused exactly when an emitter claims it, its device kind has a source, and the publisher is draining |
| Sink.NothingRefusedBeforeDrain | internal/app/app.go:322-368 | In every run of a booted collector in which Drain has not begun and every event given is of a configured device or of none, nothing has been refused |
| Occurrences.DistinctIdsExactlyWhen | internal/cloudevents/eventid.go:18-47 | In every run, short of a digest collision, the accepted messages have distinct ids if and only if the accepted events are different occurrences: of different source, type, millisecond or identity |
| Occurrences.OccurrencesArePublishedOnce | internal/publish/publish.go:213-404 | A run of the whole pipeline that accepts different occurrences puts none in the stream twice and every published one in it |
| Consumer.StreamTellsEverything | internal/app/app.go:322-368 | If nothing is dropped, ids are distinct and messages can be read back, what is read from the broker's stream is exactly the engine's events given to the sink, in order and once each |
| Consumer.ConsumerHoldsFaults | internal/synth/fault.go:17-44 | Then a consumer of the stream that replays raises and clears holds the faults of the device's last good poll, whatever was polled, lost, retried and deduplicated on the way |
| Consumer.ConsumerHoldsIncidents | internal/synth/perception.go:23-90 | And one that replays incident events holds its last good poll's ids and assessments |
| Subject.New | internal/subject/subject.go:92-144 | Builds the specified template, or fails on an illegal identity, an illegal or reserved var, or a bad template, whatever order the vars are ranged over |
| Subject.CheckVars | internal/subject/subject.go:106-121 | Accepts exactly the vars whose names are not reserved and whose values are legal tokens |
| Subject.ParseTokens | internal/subject/subject.go:150-192 | The loop agrees with part-by-part parsing, and fails at the first bad part |
| Subject.BuiltIsWellFormed | internal/subject/subject.go:92-144 | Every template built has a token, and only legal literals |
| Subject.Render | internal/subject/subject.go:196-231 | Fails exactly on a malformed ce-type or an illegal device token that the template uses; otherwise joins one text for each token |
| Subject.RenderedTokens | internal/subject/subject.go:196-251 | Splitting a rendered subject gives back exactly the template's tokens: no value smuggles in a dot |
| Subject.RenderFillsIn | internal/subject/subject.go:92-231 | A rendered subject is the template's text, part by part, with each placeholder replaced by what it names: a part of the ce-type, the device or the site, an identity token, a var, or the default prefix |
| Subject.PartParsesExactlyWhen | internal/subject/subject.go:150-192 | A part of a template is accepted exactly when it is a legal token without braces or one known name in braces |
| Subject.DecomposeIs | internal/subject/subject.go:242-251 | A ce-type of four non-empty dot-free parts decomposes into them in order |
| Subject.BindingFor | internal/subject/subject.go:314-337 | The loop computes the filter of the tokens before the first that varies |
| Subject.Bindings | internal/subject/subject.go:274-294 | Succeeds exactly when every ce-type decomposes and binds; then the list is ascending and a filter occurs in it once for each distinct namespace that has it |
| Subject.FiltersEqualExactlyWhen | internal/subject/subject.go:311-337 | Two namespaces have one filter if and only if they are one namespace or no fixed token holds the namespace |
| Subject.ListRepeatsExactlyWhen | internal/subject/subject.go:267-294 | The list repeats a filter if and only if no fixed token holds the namespace and there are at least two namespaces; then all its entries are the one filter |
| Subject.RepeatingList | internal/subject/subject.go:267-294 | Such a list: a literal and then the service, with two namespaces, lists one filter twice |
| Subject.Check | internal/subject/subject.go:345-374 | The inner checks succeed exactly when the subject renders to legal tokens inside its namespace's filter |
| Subject.ValidateCETypes | internal/subject/subject.go:345-374 | Accepts exactly when every listed ce-type passes for every configured device and for no device |
| Subject.ValidateBindable | internal/subject/subject.go:306-309 | Probing one namespace succeeds exactly when every namespace binds, which is when the first token does not vary |
| Subject.WithinNeverFails | internal/subject/subject.go:377-382 | For anything that renders and binds, the within-binding check holds |
| Subject.AcceptedMeansRoutable | internal/subject/subject.go:345-374 | After acceptance every listed ce-type renders for every configured or empty device to exactly as many legal tokens as the template has, and its filter captures it |
| Subject.PassesExactlyWhen | internal/subject/subject.go:345-374 | What validation refuses is exactly an unbindable template, a malformed ce-type, or an illegal text in a position the template renders |
| Subject.CapturedByItsFilter | internal/subject/subject.go:311-337 | The broker's token matching captures each legal subject by the filter of its own namespace |
| Subject.FiltersDoNotOverlap | internal/subject/subject.go:274-337 | Two filters of an accepted configuration are identical or capture no subject in common |
| Subject.StreamNamesCollideExactlyWhen | internal/publish/publish.go:100-103 | However characters upper-case, two legal namespaces get one stream name exactly when the filter does not hold the namespace or the namespaces are alike in upper case |
| Subject.FiltersShareNameExactlyWhen | internal/publish/publish.go:90-103 | Two different filters share a name exactly when the filter holds the namespace and the two namespaces differ in letter case only |
| Subject.LowercaseNamesAreDistinct | internal/publish/publish.go:100-103 | For namespaces of ASCII characters without upper-case letters, one stream name means one filter |
| Subject.DotlessI | internal/publish/publish.go:100-103 | Beyond ASCII it fails: `i` and `ı` are lowercase, have two filters wherever the filter holds the namespace, and one stream name |
| Tokens.SplitJoin | internal/subject/subject.go:150-231 | Splitting the join of dot-free tokens gives them back |
| SourceUrn.SourceRoundTrip | internal/cloudevents/subject.go:27-99 | For a valid tenant and a mapped device kind the source URN parses back to entity kind, region, agency, unit and id, colons in the id included |
| SourceUrn.SourcesCollideExactlyWhen | internal/cloudevents/subject.go:53-99 | Two events share a source exactly when they share device kind, tenant triple and effective id |
| SourceUrn.SourceNamesTheDevice | internal/cloudevents/subject.go:79-99 | Within a tenant, with non-empty ids, the source determines the device kind and the device |
| SourceUrn.HashInput | internal/cloudevents/eventid.go:36-46 | The loop feeds the four fields with a separator between each two |
| SourceUrn.FramingIsInjective | internal/cloudevents/eventid.go:36-46 | When source, type and time hold no separator, the hashed bytes determine all four fields, whatever bytes the identity has |
| SourceUrn.SeparatorInSourceIsAmbiguous | internal/cloudevents/eventid.go:16 | A separator in the source lets two different events hash the same bytes |
| Ulid.Encode | internal/cloudevents/eventid.go:58-81 | The nested loops produce the 26 symbols of the five-bit groups of the padded 128-bit value |
| Ulid.Group | internal/cloudevents/eventid.go:68-79 | The inner loop accumulates the number its five bits spell |
| Ulid.SymbolIsCrockford | internal/cloudevents/eventid.go:8-10 | The symbol of each digit is that of the Crockford alphabet |
| Ulid.TextSpellsValue | internal/cloudevents/eventid.go:58-81 | The text is the 26 base-32 digits of ms·2^80 + randomness, with the time's low 48 bits, and its first digit is at most 7 |
| Ulid.SameTextSameValue | internal/cloudevents/eventid.go:58-81 | Two texts are equal exactly when the 128-bit values are |
| Ulid.TextsSortAsValues | internal/cloudevents/eventid.go:58-81 | String order is numeric order |
| Ulid.UlidIsInjective | internal/cloudevents/eventid.go:58-81 | For times in the 48-bit range the text determines the time and the randomness |
| Ulid.LaterSortsLater | internal/cloudevents/eventid.go:58-81 | In that range a later millisecond sorts later, whatever the randomness |
| Ulid.TimeWraps | internal/cloudevents/eventid.go:60-62 | Outside it, times 2^48 ms apart encode alike |
| EventId.EventID | internal/cloudevents/eventid.go:36-47 | The id is the ULID of the floor millisecond and the first ten digest bytes of the framed event |
| EventId.SameIdExactlyWhen | internal/cloudevents/eventid.go:18-47 | Short of a digest collision, two events share an id exactly when source, type, millisecond and identity agree, whoever observed them |
| EventId.IdsSortByTime | internal/cloudevents/eventid.go:36-47 | Occurrences at least a millisecond apart have ids in time order |
| Runner.Safe | internal/runner/runner.go:136-229 | The invariant of every interleaving of polls, deadlines, late returns, panics and shutdown |
| Runner.NeverOverlaps | internal/runner/runner.go:184-211 | At most one Read of an adapter is ever running |
| Runner.OnlyFreshResultsApply | internal/runner/runner.go:184-211 | Each snapshot applied comes from a Read started in that same poll |
| Runner.NothingAppliesTwice | internal/runner/runner.go:184-211 | Snapshots are applied in poll order, at most one a poll, and no Read's twice |
| Runner.ReachabilityAlternates | internal/runner/runner.go:136-182 | Reachability events strictly alternate starting with unreachable, and the last one is unreachable exactly while failures are counted |
| Runner.CountsAgree | internal/stats/devices.go:41-59 | The runner's failure count is always the device tracker's |
| Runner.ReportsAreEdges | internal/runner/runner.go:136-229 | In every run the reachability events are exactly the changes in the sequence of verdicts, read off how each `Read` ended: an error is a failure unless stopping, a snapshot a success, a panic or neither snapshot nor error nothing; the failure counts are its trailing failures and the applied snapshots as many as its successes |
| Runner.DeliveryAnswers | internal/runner/runner.go:142-181 | What delivering a result does, by how `Read` ended: an error counts in runner and tracker and reports the first; a panic or nothing at all counts one adapter fault and touches nothing else; a snapshot resets the counts, reports recovery and is applied |
| Runner.EverPolledLatches | internal/stats/devices.go:61-64 | Readiness, once reached, is kept by every later step |
| PollLoop.PollRunner.PollOnce | internal/runner/runner.go:136-182 | One poll takes exactly the steps a poll has, given the reads that end meanwhile and whether the deadline comes first; it returns exactly the reachability events it adds, changes the engine exactly when a snapshot is applied, by that snapshot with the device kind stamped, and touches no other device's entry |
| PollLoop.PollRunner.StartRead | internal/runner/runner.go:190-202 | No read is started exactly when an abandoned one is still running |
| PollLoop.PollRunner.Await | internal/runner/runner.go:203-211 | The read's result is received if it has come and the deadline has not; else the read is abandoned |
| PollLoop.PollRunner.Receive | internal/runner/runner.go:142-181 | By how `Read` ended: a snapshot without error is applied and recovery reported, an error is reported if it is the first and not stopping, a panic or nothing at all is one adapter fault |
| PollLoop.PollRunner.Abandon | internal/runner/runner.go:207-210 | The deadline leaves the read pending, fails the poll, and applies nothing |
| PollLoop.PollRunner.Fail | internal/runner/runner.go:153-168 | Counts in runner and tracker together and reports only the first failure; silent when stopping |
| PollLoop.Devices.PollOK | internal/stats/devices.go:41-48 | Resets one device's count, stamps its success, sets the latch, and leaves every other device as it was |
| PollLoop.Devices.PollFailed | internal/stats/devices.go:52-59 | Counts one failure, keeps the last success, and leaves every other device and the latch as they were |
| LogShip.RateBound | internal/logship/logship.go:134-147 | With a non-decreasing clock, any span of length L admits at most limit·(⌊L/window⌋ + 2) records, whatever was logged before |
| LogShip.RateBoundExactlyWhen | internal/logship/logship.go:134-147 | A clock's readings keep that bound in every run exactly when the zero instant is not among them |
| LogShip.ShippedWithinBound | internal/logship/logship.go:113-147 | So do the records logged in any span of any run that are shipped, then or later |
| LogShip.EveryRecordIsAccountedFor | internal/logship/logship.go:81-147 | Under any interleaving of loggers, their sends and the collector, each record at or above the floor has one fate: those sent, in the order of their sends, are the ones taken off the channel and then those on it; those limited or finding the channel full are as many as LogsSuppressed; the rest are between admission and send |
| LogShip.InOrderExactlyWhen | internal/logship/logship.go:113-147 | Records are shipped in the order logged exactly when no logger overtakes another between admission and send |
| LogShip.ShortSpanBound | internal/logship/logship.go:134-147 | Any span shorter than one window admits at most twice the limit |
| LogShip.WindowAdmitsUpToLimit | internal/logship/logship.go:134-147 | Within one open window every record is admitted until the limit is reached, and none after |
| LogShip.ZeroInstantNeverLimits | internal/logship/logship.go:138-141 | A clock stuck at the zero instant admits everything |
| LogShip.Handler.AdmitNow | internal/logship/logship.go:135-147 | Admits and moves the window as specified |
| LogShip.Handler.Handle | internal/logship/logship.go:81-132 | Not overlapped, a record at or above the floor is put on the channel exactly when admitted with room, and LogsSuppressed grows by one exactly when it is not |
| LogShip.Handler.Accounts | internal/logship/logship.go:81-132 | Between calls of one goroutine, the records at or above the floor are those taken, those on the channel and those suppressed, the first two in the order logged |
| LogShip.Handler.Receive | internal/logship/logship.go:73-75 | Takes the oldest shipped record off the channel, and nothing else |
| Heartbeat.PhaseFor | internal/app/heartbeat.go:17-21 | The phase is the one number in [0, interval) congruent to the hash |
| Heartbeat.NextBeat | internal/app/heartbeat.go:27-35 | Before and after the epoch, with truncating remainder, the result is the next slot and the loop turns at most once |
| Heartbeat.NextSlotIsLeast | internal/app/heartbeat.go:23-35 | It is the least instant strictly after now congruent to the phase, at most one interval away |
| Heartbeat.BeatsAreSpaced | internal/app/heartbeat.go:23-35 | Iterating advances by exactly one interval each time |
| Heartbeat.SameCadenceFromAnyBoot | internal/app/heartbeat.go:10-35 | The first beat after any later boot is a beat the earlier life would have made |

## Left out

- Encode and decode of concrete facets: JSON and protobuf bytes are arbitrary, subject to the round trip above.
- The signal, DMS, DMS-environment, CCTV, traffic-interval and zone-interval differs: the engine and restart results hold of them as arbitrary functions of previous and current facet, but their own field comparisons are not modelled.
- A Put that is stored only after a later Put of the same key was reported: outcomes are settled by the time the writer sees them.
- A broker that loses its store: its stream would start again from nothing.
- DurableState.State.Write: within the method no record intervenes; records between Puts are covered by the machine, where they may fall anywhere.
- DurableState.State.Flush: the window is a number of rounds, so that it may close with keys left is modelled, but how long a round takes is not.
- DurableState.State.Load: specified once the listing and every read have succeeded; a failed attempt is retried from nothing and has no effect to model.
- LogShip.Handler.Handle: within the method no other goroutine takes a step; overlapping calls are covered by the machine, where a send may fall anywhere after its admission.
- Publisher.Publisher.DrainLoop: runs for as many turns as there is weather for; while the broker stays away it is not claimed to return, and the program's does not either.
- Machine words in the ULID packer: shifts and masks are written as division and remainder.
- Time: instants and durations are unbounded integers of nanoseconds; saturation and overflow of the 64-bit types are not modelled.
- Text: subjects, ids and namespaces are sequences of characters, and upper-casing is an arbitrary map of characters; bytes that are no valid text are not modelled.
- Locks, wake channels, tickers and backoff durations: they appear as the atomicity and the nondeterministic choice of steps.
- The NATS and TLS client, credentials and URL redaction, configuration loading, the management HTTP surface, device adapters, heartbeat metrics and log attribute flattening.
- The enum, identity and ce-type tables of the wire emitters: an emitter is an arbitrary function that fails, declines or claims.
