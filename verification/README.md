# bazNTMS: models and proofs

This project models the self-contained algorithms and protocols of the bazNTMS hub, agent and load
generator, and proves what they promise over all inputs, all runs or all reachable states. Each module
follows one component of the program. Where the program changes state in place, the model is a class or a
method over arrays that is proved against a specification; concurrent protocols are state machines whose
runs interleave the steps of all participants freely.

| component | files |
|---|---|
| Streaming removal of `<think>` blocks, and the whole-string version | `ThinkFilter.dfy`, `ThinkStrip.dfy` |
| Flow codecs: bytes, NetFlow v5, v9/IPFIX with templates, sFlow, and the generator that prints them | `Wire.dfy`, `NetFlow5.dfy`, `Templates.dfy`, `TemplateRoundTrip.dfy`, `FlowGen.dfy`, `FlowRuns.dfy`, `FlowStreams.dfy`, `RecordLaws.dfy`, `SFlow.dfy`, `SFlowRoundTrip.dfy`, `SFlowSamples.dfy` |
| The UDP collector's reader, workers and buffers | `Collector.dfy` |
| Log chain, Merkle roots, sealer and verifier | `LogChain.dfy`, `Merkle.dfy`, `Evidence.dfy`, `Sealer.dfy`, `SealChains.dfy`, `SealedDay.dfy`, `LateHours.dfy`, `DisorderedRuns.dfy`, `SealRace.dfy`, `SignedBundles.dfy` |
| Delivery: JetStream store-writer, agent queue, shared CA | `Queue.dfy`, `AgentQueue.dfy`, `Pki.dfy` |
| Recurring jobs | `Calendar.dfy`, `Recurrence.dfy`, `Scheduler.dfy`, `CivilDates.dfy` |
| Analytics: baseline, incidents, capture counters, limiters, detectors, SNI | `Baseline.dfy`, `Incidents.dfy`, `Capture.dfy`, `Limits.dfy`, `Detectors.dfy`, `Alarms.dfy`, `Sni.dfy` |
| Shared: optional values, arithmetic, text | `Wrappers.dfy`, `Numbers.dfy`, `Text.dfy` |

Hashes are parameters; the only thing assumed of them, where it is needed, is that no two of the strings
that were actually hashed collide. Signatures and time stamps are relations. Clocks are integers.

## Where the code falls short of its promise

Each point is a lemma with the exact condition.

- The hashed text of a log record joins its fields with `|` and does not escape it. A record is fixed by its
  text exactly when none of its seven text fields holds a `|` (`CanonIsUnique`), so the records of an accepted
  bundle are fixed by its last hash exactly when all of them are like that (`AcceptedIsPinned`,
  `TamperEvidenceIsExact`, `TamperUnseen`). The sequence number is not hashed at all (`SequenceIsFree`).
- An odd list of leaves shares its Merkle root with the list that repeats the last leaf (`RepeatedLeaf`); the
  record count in the checkpoint is what excludes it.
- "Latest checkpoint" is the one with the greatest bucket, not the last one saved: after the clock is set
  back two checkpoints name the same predecessor (`SetBackForks`, and `ForkedRun` for such a run). With a clock
  that never goes back the chains are linear (`LinearChains`).
- A record is stamped before it waits for its turn to be appended, an hour's checkpoint is never rebuilt, a
  failed one is retried only during the next hour, the daily seal is due at 00:05, and the verifier starts both
  chains at the empty string. So with one sealer, and unless something hashed collides, the bundle of a day is
  accepted exactly when its records come first in the whole log, each of them arrived before its hour was
  checkpointed, no earlier hour has a checkpoint, and no hour of the day was checkpointed after the seal
  (`AcceptedExactlyWhen`). Each of the four can fail
  (`EdgeRun`, `StragglerRun`, `EarlierHourRun`, `LateRun`), and no day with records but the first of a log can
  meet the first. The first day meets all if its records arrive in order and in time and no hourly step fails
  (`FirstDayAccepted`).
- Every replica seals, without asking whether it leads, and the check for an existing checkpoint and its saving
  are separate statements. A bucket gets two checkpoints exactly when one replica saves it between the check
  and the save of another (`AtMostOneExactlyWhen`); two replicas at the full hour do, and then no bundle of
  that day is accepted (`TwinsRejected`). A single sealer never does (`OneSealer`, `AtMostOne`).
- The 16-bit lengths of v9 and IPFIX sets and of IPFIX messages wrap: the record counts that survive are
  exactly those of `Fits` (`FitsIsExact`). An sFlow datagram is read back exactly up to 4096 samples and a v5
  one up to 65535 records.
- The minutes of an `interval:` are multiplied to 64-bit nanoseconds. A job is not moved past the sweep exactly
  when the product modulo 2^64 has its top bit set, or does not fill up the second that has begun
  (`MovedPast`); 153722867 minutes are the most that never do (`OrdinaryIntervals`), one more always does, and
  `interval:153722868` is a spec like any other (`FirstToWrap`, `IntervalSpec`).
- The comment in `LoadOrCreateCA` says that a generator that fails gives the lock file back. It does so for
  all errors up to the writing of the key, but not for a failed write of `ca.crt`, nor after a crash
  (`WhoAbandons`); then no replica ever gets a CA (`AbandonedForGood`).
- One address can fail nine times within a window, not five: the bound is 2 * maxAttempts - 1
  (`FailuresAreLimited`), and it is reached (`NineFit`).
- The comment at the end of `checkAgentBandwidth` says that the counters of agents that went offline are
  cleaned up; the code drops only those of agents that are no longer listed, and an offline agent keeps its run.

## Model

| member | source | states |
|---|---|---|
| `ThinkFilter.PartialSuffixLen` | internal/ai/openai.go:338-349 | the held length is that of the longest suffix that a later chunk could complete to the tag |
| `ThinkFilter.IndexFold` | internal/ai/openai.go:331-333 | the first occurrence in any letter case, or -1 exactly when there is none |
| `ThinkFilter.NoTagBeforeHeld` | internal/ai/openai.go:288-349 | once no whole tag is left, no tag can start before the held suffix, whatever text follows |
| `ThinkFilter.HeldIsNeeded` | internal/ai/openai.go:288-317 | nothing shorter could be held: some continuation makes all held text vanish |
| `ThinkFilter.FilterThinkStream` | internal/ai/openai.go:288-317 | one call emits, and keeps in the carry, exactly what the one-pass scan needs for any text that follows, and emits as early as possible |
| `ThinkFilter.FlushThinkStream` | internal/ai/openai.go:321-328 | the flush returns the scan of the carry and empties it |
| `ThinkFilter.StreamFiltered` | internal/ai/openai.go:195-233 | for every text and every way of cutting it, the emitted pieces join to one left-to-right scan of the uncut text |
| `ThinkFilter.StreamTwice` | internal/ai/openai.go:195-233 | two cuttings of one text emit the same text |
| `ThinkStrip.StripThink` | internal/ai/ai.go:208-225 | the rescanning loop ends, its result is trimmed and holds no opening tag, and a text without one only loses its outer spaces |
| `ThinkStrip.StripTwice` | internal/ai/ai.go:208-225 | a second pass changes nothing |
| `ThinkStrip.OutsideSurvives` | internal/ai/ai.go:208-225 | for any number of closed blocks, their tags in any letter case, with plain text between them and perhaps a block that is never closed at the end: all the plain text survives in order, up to its outer spaces |
| `ThinkStrip.StreamKeepsOutside` | internal/ai/openai.go:288-317 | the stream filter emits the same for such a text |
| `Wire.BeUint` | internal/flows/template.go:183-189 | a field of any length reads as its number modulo 2^64 |
| `Wire.ProtoNameInjective` | internal/flows/nfv5.go:273-296 | different protocol numbers never print alike |
| `Templates.ParseTemplate` | internal/flows/template.go:80-111 | parses a definition field by field in bounds, or reports failure exactly when it does not fit |
| `Templates.DecodeRecord` | internal/flows/template.go:117-180 | applies the fields in order under the template and stays in bounds; what that means, element by element, is `RecordLaw` |
| `RecordLaws.RecordLaw` | internal/flows/template.go:117-180 | under any template a row comes out exactly when both addresses are given; source and destination are the values of the last element 8 or 27 and 12 or 28, and ports, protocol, octets, packets and time those of the last element that gives them, the time only within the window around the receive time |
| `RecordLaws.EveryFieldShows` | internal/flows/template.go:117-180 | under a template that names each part of a row at most once, in any order, every field shows in its own part of the row |
| `RecordLaws.NoRow` | internal/flows/template.go:117-180 | a record too short for its template, or under one with a field of variable length, gives no row |
| `Templates.TemplateCache.LearnTemplates` | internal/flows/nfv9.go:19-62 | a template set leaves the cache with each of its definitions under the pair's own key, the last one winning |
| `Templates.TemplateCache.DecodeData` | internal/flows/nfv9.go:19-62 | a data set yields one row per whole record, and none for unknown, zero-length or variable-length templates |
| `Templates.TemplateCache.ParseV9` | internal/flows/nfv9.go:19-62 | on arbitrary bytes the offset loop stays in bounds, ends, and has the effect of the set-by-set meaning |
| `Templates.TemplateCache.ParseIPFIX` | internal/flows/ipfix.go:18-65 | the same with the message-length clamp and enterprise fields |
| `TemplateRoundTrip.RecordLength` | internal/flows/template.go:80-111 | the stored record length is the sum of the field lengths, or -1 exactly when some field is of variable length |
| `TemplateRoundTrip.RecordSplits` | internal/flows/template.go:117-180 | a record laid out field after field is taken apart into the same values |
| `TemplateRoundTrip.SetsRead` | internal/flows/nfv9.go:19-62 | any printed sequence of template, data, option and padded sets means what it was printed from, each data set under the template its pair defined last |
| `TemplateRoundTrip.MessageRead` | internal/flows/ipfix.go:18-65 | a printed v9 or IPFIX message with its header has the meaning of its sets |
| `FlowGen.EncodeFlowRecord` | cmd/bazntms-loadgen/flowgen.go:220-228 | writes exactly the record's 21 bytes in place |
| `FlowGen.BuildV9` | cmd/bazntms-loadgen/flowgen.go:232-273 | the buffers filled in place are the v9 message of the record list |
| `FlowGen.BuildIPFIX` | cmd/bazntms-loadgen/flowgen.go:277-313 | the buffers filled in place are the IPFIX message of the record list |
| `FlowRuns.RecordDecodes` | internal/flows/template.go:117-180 | a generated record decodes to its row under the generated template |
| `FlowRuns.GeneratedRead` | cmd/bazntms-loadgen/flowgen.go:232-313 | a generated datagram that fits yields all its records in order if it carries or follows its pair's template, and no row otherwise |
| `FlowRuns.TooLong` | cmd/bazntms-loadgen/flowgen.go:232-313 | a datagram whose length field wraps loses rows |
| `FlowRuns.FitsIsExact` | cmd/bazntms-loadgen/flowgen.go:232-313 | exactly the record counts that fit survive the trip, for every content |
| `FlowStreams.Parse` | internal/flows/nfv5.go:183-199 | each datagram goes to the parser its version bytes name; only v9 and IPFIX touch the templates |
| `FlowStreams.Collect` | internal/flows/nfv5.go:134-199 | any datagrams, dispatched one after the other on one shared cache, compute the run |
| `FlowStreams.Isolation` | internal/flows/template.go:80-180 | on arbitrary bytes in any interleaving, each (exporter, domain) pair gets the templates and rows it would get alone |
| `FlowStreams.MessagesRead` | internal/flows/nfv9.go:19-62 | in any interleaving of v9 and IPFIX messages with arbitrary, changing template definitions, and of other datagrams, each message is decoded under exactly what its own pair has defined last before it |
| `FlowStreams.StreamRead` | internal/flows/nfv9.go:19-62 | so in any interleaving of generated datagrams and others, data before its template yields nothing and data after it exactly its records, and the cache holds exactly the announced templates |
| `FlowStreams.Schedule` | cmd/bazntms-loadgen/flowgen.go:78-129 | exporters are served in turn and the k-th datagram of each carries the template for k < 3 or k a multiple of 400 |
| `FlowStreams.ScheduledStream` | cmd/bazntms-loadgen/flowgen.go:53-129 | any number of senders on one address that follow the schedule and lose nothing are decoded from their first datagrams on, however their datagrams interleave, protocols without templates included |
| `NetFlow5.ParseV5` | internal/flows/nfv5.go:213-271 | the record loop yields the announced records as far as they are there |
| `NetFlow5.FlowTimeIsSane` | internal/flows/nfv5.go:213-271 | whatever the exporter's clocks say, a row is dated within the week before it was received |
| `NetFlow5.EveryRecordShows` | internal/flows/nfv5.go:213-271 | any datagram gives as many rows as it announces and holds; the i-th row shows, by the offsets of the format, the addresses, ports, protocol and counters of the i-th record, dated as long before the header's second as the flow ended before the sending, or at the receive time if that is in the future or more than a week past |
| `NetFlow5.BuildV5` | cmd/bazntms-loadgen/flowgen.go:188-208 | the buffer filled in place is the v5 datagram of the record list |
| `NetFlow5.DatagramRead` | cmd/bazntms-loadgen/flowgen.go:188-208 | reading it back gives the records its 16-bit count announces |
| `NetFlow5.RoundTrip` | internal/flows/nfv5.go:213-271 | every record comes back, in order, exactly when there are fewer than 65536 |
| `NetFlow5.Dispatched` | internal/flows/nfv5.go:183-199 | a generated v5 datagram reaches the v5 parser |
| `SFlow.ParseEthernet` | internal/flows/sflow.go:165-176 | skips any number of VLAN tags in bounds |
| `SFlow.DecodeRawPacketRecord` | internal/flows/sflow.go:123-162 | one row for an IPv4 frame, with ports for TCP and UDP, or none |
| `SFlow.AppendSFlowSample` | internal/flows/sflow.go:73-118 | appends the rows of the sample's records, in order, stopping at the first that does not fit; what a plain and an expanded sample mean is `FlowRead` |
| `SFlow.ParseSFlow` | internal/flows/sflow.go:21-70 | on arbitrary bytes the reader stays in bounds and the rows are those of the announced samples |
| `SFlowRoundTrip.XdrWriter.RawAligned` | cmd/bazntms-loadgen/flowgen.go:386-391 | pads with zeros to the next multiple of four |
| `SFlowRoundTrip.BuildSFlowFlowSample` | cmd/bazntms-loadgen/flowgen.go:336-373 | writes the sample with its record and header nested and padded |
| `SFlowRoundTrip.BuildSFlow` | cmd/bazntms-loadgen/flowgen.go:317-334 | writes the datagram of the sample list |
| `SFlowRoundTrip.SampleRead` | internal/flows/sflow.go:73-162 | a written sample reads back as one row: same addresses and ports, packets the rate, octets the frame length times the rate |
| `SFlowRoundTrip.DatagramRead` | internal/flows/sflow.go:21-70 | reading a written datagram gives the samples it announces, or none above 4096 |
| `SFlowRoundTrip.RoundTrip` | internal/flows/sflow.go:21-70 | one row per sample, in order, exactly when there are at most 4096 samples |
| `SFlowSamples.FrameRead` | internal/flows/sflow.go:165-176 | a frame with any number of VLAN tags of either type gives back its ethertype and payload |
| `SFlowSamples.Ip4Read` | internal/flows/sflow.go:179-194 | an IPv4 packet with options of any length gives back its protocol, addresses and payload |
| `SFlowSamples.RecRead` | internal/flows/sflow.go:123-162 | a printed record gives one row for an IPv4 packet, with ports exactly for TCP and UDP that hold them, and none for other packets, other header protocols and other record types |
| `SFlowSamples.FlowRead` | internal/flows/sflow.go:73-118 | a printed sample of either layout, with any source, interfaces, drops and records, gives the rows of its records in order: packets the rate, octets the frame length times the rate; a rate of zero counts as one, and more than 256 records give none |
| `SFlowSamples.PlainIsExpanded` | internal/flows/sflow.go:73-118 | the plain and the expanded sample of one flow give the same rows |
| `SFlowSamples.DatagramRead` | internal/flows/sflow.go:21-70 | a printed datagram of an IPv4 or IPv6 agent, with plain, expanded and other samples mixed, gives the rows of its flow samples in order, or none above 4096 samples |
| `SFlowRoundTrip.DispatchIsSound` | internal/flows/nfv5.go:161-199 | each protocol is chosen exactly by its own version field, so no v5, v9 or IPFIX datagram is taken for sFlow |
| `SFlowRoundTrip.GeneratedDispatch` | internal/flows/nfv5.go:183-199 | every generated datagram reaches the parser of its own protocol |
| `Collector.StepKeeps` | internal/flows/nfv5.go:105-132 | every step keeps one owner per buffer and the balance of datagrams |
| `Collector.RunKeeps` | internal/flows/nfv5.go:72-132 | in every interleaving each buffer has exactly one owner, and the datagrams read are those processed, those dropped on a full queue and those in flight, unchanged |
| `Collector.ClosedIsEmpty` | internal/flows/nfv5.go:203-210 | when Close returns nothing is in flight and every buffer is back |
| `Collector.CloseReturnsSoon` | internal/flows/nfv5.go:203-210 | after the connection is closed every step of the reader or a worker uses up some of what is left |
| `Collector.SomeStepIsPossible` | internal/flows/nfv5.go:203-210 | until Close can return, some reader or worker can move: no deadlock |
| `Merkle.MerkleRoot` | internal/compliance/merkle.go:23-43 | the loop computes the root of the tree with the last node of an odd layer duplicated |
| `Merkle.SmallTrees` | internal/compliance/merkle.go:23-43 | the roots of no, one, two and three leaves, written out |
| `Merkle.RootBinding` | internal/compliance/merkle.go:23-43 | equally many digests with the same root are the same, even against a list with shorter entries |
| `Merkle.RepeatedLeaf` | internal/compliance/merkle.go:23-43 | an odd list shares its root with the list that repeats its last leaf |
| `Merkle.GrownRoot` | internal/compliance/merkle.go:23-43 | adding a leaf that is not there yet changes the root, unless the root loops back to itself |
| `Merkle.DifferentRoots` | internal/compliance/merkle.go:23-43 | lists of any lengths with different first leaves that are no nodes have different roots |
| `Merkle.RootFixesList` | internal/compliance/merkle.go:23-43 | lists of any lengths with the same root are the same, if their leaves are all different and the first ones are no nodes |
| `Merkle.NoLoopOverTrees` | internal/compliance/merkle.go:23-43 | a root above such leaves does not loop, over two levels of trees |
| `LogChain.HexRoundTrip` | internal/compliance/verify.go:224-226 | decoding the hex text of a digest gives the digest back |
| `LogChain.CanonText` | internal/store/compliance.go:52-58 | the hashed text is the hash before it, the time stamp and the seven text fields in their order, with separators between |
| `LogChain.CanonBinds` | internal/store/compliance.go:52-58 | records without a separator in front of the message are fixed by their hashed text |
| `LogChain.CanonIsUnique` | internal/store/compliance.go:52-58 | exactly the records without a separator in any text field are fixed by their hashed text |
| `LogChain.ChainsAgree` | internal/compliance/verify.go:105-152 | two verified chains that meet in one hash agree all the way back |
| `LogChain.HashesDiffer` | internal/store/compliance.go:52-58 | no two records of an intact chain have the same hash |
| `LogChain.TamperEvidence` | internal/compliance/verify.go:105-152 | passing bundles that end in the same hash hold the same records, if no two of their records can be confused |
| `LogChain.TamperUnseen` | internal/store/compliance.go:52-58 | a record with a separator can be swapped for a different one in a passing bundle, same hashes and all |
| `LogChain.TamperEvidenceIsExact` | internal/store/compliance.go:52-58 | exactly the bundles free of the separator are pinned down by their last hash |
| `LogChain.SequenceIsFree` | internal/store/compliance.go:52-58 | the sequence number can be rewritten without a trace |
| `Evidence.CheckRecords` | internal/compliance/verify.go:108-126 | stops at the first record whose link or hash is wrong and names it |
| `Evidence.CheckHours` | internal/compliance/verify.go:128-152 | the hours pass exactly when each checkpoint's count and root match its records; the last bad bucket is reported |
| `Evidence.CheckLinks` | internal/compliance/verify.go:154-166 | passes exactly when the hourly checkpoints form one chain from the empty root |
| `Evidence.CheckDays` | internal/compliance/verify.go:167-208 | passes exactly when every daily root is that of the hourly roots, every stamp holds the digest of its root, and the key accepts the signature of every signed day for its own day name, root, count, predecessor and time and the number of hourly checkpoints in its range |
| `Evidence.VerifyBundle` | internal/compliance/verify.go:105-210 | accepts exactly the good bundles; each part of the report says what it checked, and an accepted report that every record is linked and hashed right, that the key accepts every signed day's manifest, and that every stamp holds its root's digest |
| `Evidence.AcceptedIsPinned` | internal/compliance/verify.go:105-210 | exactly the accepted unmasked bundles free of the separator are, among accepted ones, pinned down by their last hash |
| `SignedBundles.SealIsSigned` | internal/compliance/sealer.go:157-238 | in every run the signature of a seal is over its day name, root, count, number of hours, predecessor and time |
| `SignedBundles.SignedDayIsSealed` | internal/compliance/verify.go:185-207 | if the key accepts only manifests of seals, every signed day of an accepted bundle is one that was sealed: same root, count, predecessor, time and day name, and as many hours |
| `SignedBundles.StampFixesRoot` | internal/compliance/verify.go:176-184 | a stamp that holds the digest of one root is accepted for no other |
| `SignedBundles.SealTimes` | internal/compliance/sealer.go:72-102 | under any clock a day is sealed by a tick from five minutes to an hour after its end, at that time |
| `SignedBundles.SealCounts` | internal/compliance/sealer.go:157-238 | a seal's count is the number of logged records in the hours it was made from, if none of them came late |
| `SignedBundles.LogIsSent` | internal/store/compliance.go:72-111 | in every run the log holds the records that were sent, unchanged and in order, numbered from one on |
| `SignedBundles.SignedRoots` | internal/compliance/verify.go:128-205 | the hourly roots of an accepted signed day are those that were sealed, in order |
| `SignedBundles.SignedHours` | internal/compliance/verify.go:105-210 | so hour by hour it holds exactly the record digests that the sealed checkpoints cover |
| `SignedBundles.SignedRecordsWereLogged` | internal/compliance/verify.go:105-210 | and every record it shows in one of its hours was logged, at the same place and after the same records |
| `Sealer.Store.AppendComplianceLog` | internal/store/compliance.go:72-111 | a record is appended under the time stamp it came with, with the hash of the one before it and its own |
| `Sealer.HourlyCheckpoint` | internal/compliance/sealer.go:106-143 | saves at most one checkpoint of the hour's records, naming the latest root, and nothing for an empty or sealed hour |
| `Sealer.DailySeal` | internal/compliance/sealer.go:157-238 | seals the day's hourly roots once, with stamp and signature, and nothing for an empty or sealed day |
| `SealChains.TickKeeps` | internal/compliance/sealer.go:72-102 | one turn of the loop, with any of its steps failing, keeps the record chain, the two checkpoint chains and their buckets |
| `SealChains.AtMostOne` | internal/compliance/sealer.go:106-238 | even with a jumping clock, the ticks of one sealer, repeated at will, save at most one checkpoint per kind and bucket |
| `SealChains.LinearChains` | internal/compliance/sealer.go:106-238 | under a clock that never goes back both kinds form one linear chain with ascending buckets |
| `SealChains.SetBackForks` | internal/store/compliance.go:225-241 | a clock set back makes two checkpoints name the same predecessor |
| `SealChains.ForkedRun` | internal/store/compliance.go:225-241 | a run in which that happens |
| `SealChains.HoursCounted` | internal/compliance/sealer.go:106-143 | in every run, under any clock, a checkpoint covers exactly the records of its hour that came before it, and its count falls short by the number of those that came after |
| `SealRace.Undisturbed` | internal/compliance/sealer.go:106-238 | check, read and save, left alone, are the checkpoint of one sealer |
| `SealRace.AtMostOneExactlyWhen` | internal/compliance/sealer.go:106-238 | in every interleaving of any number of sealers, a bucket gets a second checkpoint exactly when another sealer saves it between one's check and save |
| `SealRace.OneAtATime` | internal/compliance/sealer.go:106-238 | if no two sealers are ever at work on one bucket, it is saved at most once |
| `SealRace.OneSealer` | internal/compliance/sealer.go:72-102 | a single sealer saves each bucket at most once, whatever fails and whenever records arrive |
| `SealRace.TwinsRejected` | cmd/bazntms-hub/main.go:465-477 | two replicas at the full hour are overtaken, and the day's bundle is rejected |
| `SealedDay.HoursGood` | internal/compliance/verify.go:128-152 | the hours of a day pass exactly when no record of it came after its hour's checkpoint |
| `SealedDay.HoursLinked` | internal/compliance/verify.go:154-166 | the hours of a day form a chain from the empty root exactly when no earlier hour has a checkpoint |
| `SealedDay.OnlyFrontIsGood` | internal/compliance/verify.go:108-126 | the records of a day form a chain from the empty hash only if they come first in the log |
| `SealedDay.SealedDayAccepted` | internal/compliance/verify.go:105-210 | the unmasked bundle of a day is accepted, manifest signature included, if its records come first and in time, its hours are the first, and none came after the seal |
| `SealedDay.DisorderRejected` | internal/compliance/verify.go:105-210 | it is rejected if a record came after its hour's checkpoint, an earlier hour has one, or its records do not come first |
| `LateHours.LateHourRejected` | internal/compliance/sealer.go:72-102 | an hour checkpointed after its day's seal makes the bundle fail, unless something hashed collides |
| `LateHours.AcceptedExactlyWhen` | internal/compliance/verify.go:105-210 | in every run of one sealer, exactly the days in order are accepted, unless something hashed collides |
| `LateHours.PromptNoLateHour` | internal/compliance/sealer.go:72-102 | if no hourly step fails and records arrive before the first tick of a later hour, no hour is ever late |
| `LateHours.PromptIsPunctual` | internal/compliance/sealer.go:72-102 | records that arrive before the first tick of a later hour never come after their hour's checkpoint |
| `LateHours.FirstDayAccepted` | internal/compliance/verify.go:105-210 | the first day of a log is accepted when its records arrive in order and in time and no hourly step fails |
| `DisorderedRuns.LateRun` | internal/compliance/sealer.go:72-102 | a failed hourly step alone, or a slow record alone, leads to an hour after the seal |
| `DisorderedRuns.StragglerRun` | cmd/bazntms-hub/main.go:574-590 | a record stamped just before the full hour can come after its hour's checkpoint |
| `DisorderedRuns.EdgeRun` | cmd/bazntms-hub/main.go:574-590 | a record stamped just before midnight can come after one of the next day |
| `DisorderedRuns.EarlierHourRun` | cmd/bazntms-hub/main.go:574-590 | or right behind the day's first record, which then does come first while its hour does not |
| `Calendar.MonthsAdjoin` | internal/scheduler/recurrence.go:113-115 | months follow each other without a gap, across leap years and year ends, so the day before the next first is the month's last |
| `Calendar.LaterMonth` | internal/scheduler/recurrence.go:80-96 | a later month starts after the end of an earlier one |
| `Recurrence.SplitJoin` | internal/scheduler/recurrence.go:24 | splitting a spec loses nothing |
| `Recurrence.NextDaily` | internal/scheduler/recurrence.go:36-45 | the least time strictly after `after` at that hour and minute |
| `Recurrence.NextWeekly` | internal/scheduler/recurrence.go:47-67 | the least such time on that weekday; the loop never runs out |
| `Recurrence.NextMonthly` | internal/scheduler/recurrence.go:69-97 | the least such time on that day of the month, clamped to the month's end; the loop never runs out |
| `Recurrence.NextRun` | internal/scheduler/recurrence.go:23-111 | fails exactly for bad specs; otherwise the interval's sum or the least matching time strictly after `after` |
| `Recurrence.NextIsUnique` | internal/scheduler/recurrence.go:23-99 | the next run is unique |
| `CivilDates.DayNumberLaw` | internal/scheduler/recurrence.go:59-65 | the day number of every date by a closed formula in year, month and day |
| `CivilDates.Zeller` | internal/scheduler/recurrence.go:59-65 | the weekday of every date is that of Zeller's congruence |
| `CivilDates.UnixEpoch` | internal/scheduler/scheduler.go:72-85 | the first day of 1970 is a Thursday and day 719528, from whose midnight Unix seconds are counted |
| `CivilDates.DailySpec` | internal/scheduler/recurrence.go:36-45 | the printed spec of every daily time is read as that time |
| `CivilDates.WeeklySpec` | internal/scheduler/recurrence.go:47-58 | so is that of every weekday name and time |
| `CivilDates.MonthlySpec` | internal/scheduler/recurrence.go:68-81 | so is that of every day of the month and time |
| `CivilDates.MondayMorning` | internal/scheduler/recurrence.go:47-67 | weekly:mon:07:00 after Tuesday 2026-09-08 at ten is Monday 2026-09-14 at seven |
| `Recurrence.IntervalRange` | internal/scheduler/recurrence.go:26-34 | an interval adds exactly its minutes up to the largest a duration holds, and the next larger one goes back |
| `Recurrence.IntervalSpec` | internal/scheduler/recurrence.go:23-34 | every positive number of minutes that an int holds has a spec |
| `Scheduler.Scheduler.RunJob` | internal/scheduler/scheduler.go:87-114 | updates the job's own row: run time, next run, outcome; no other row |
| `Scheduler.Scheduler.Sweep` | internal/scheduler/scheduler.go:72-85 | runs each due job exactly once, in id order, whatever its missed runs, and touches no other; a replica that does not lead touches nothing |
| `Scheduler.DueOnce` | internal/store/scheduled_jobs.go:45-49 | the due list names no job twice |
| `Scheduler.MovedPast` | internal/scheduler/scheduler.go:72-114 | a job is moved strictly past the sweep exactly when its spec is good and its interval's product modulo 2^64 is below 2^63 and fills up the second that has begun; it is due again at once exactly when not, and the time it goes back to lies after 1970 |
| `Scheduler.OrdinaryIntervals` | internal/scheduler/recurrence.go:26-34 | intervals of up to 153722867 minutes never wrap |
| `Scheduler.FirstToWrap` | internal/scheduler/recurrence.go:26-34 | the spec of the next larger interval is accepted and never moves its job on |
| `Queue.StoreWriter.SaveTelemetry` | internal/queue/queue.go:278-319 | succeeds exactly when none of the interface, connection and non-empty traffic, L7, DNS and subnet writes fails, and then has made them in order, with the two optional ones between if they succeed; otherwise it stops at the first required write that fails |
| `Queue.DoneIsStored` | internal/queue/queue.go:266-350 | a message whose calls are all done has left in the store what it needs |
| `Queue.StoreWriter.Handle` | internal/queue/queue.go:266-350 | one delivery: refused if it cannot be understood, acked if its required writes succeed, else retried |
| `Queue.HandledKeeps` | internal/queue/queue.go:266-384 | handling one delivery, dead-lettering from the ninth on included, keeps that an ack rests on the required writes and a termination on a copy or an undecodable message |
| `Queue.FlushedKeeps` | internal/queue/queue.go:250-264 | so does the batch write, for every message of the batch |
| `Queue.StoreWriter.FlushFlows` | internal/queue/queue.go:250-264 | one write for the batch, then every message acked or every one retried |
| `Queue.StoreWriter.WorkBatch` | internal/queue/queue.go:209-245 | one fetch is a run of such steps; a cancelled one leaves its flow messages unhandled |
| `Queue.RunKeeps` | internal/queue/queue.go:209-384 | every interleaving of publications, deliveries, handlings and batch writes keeps what each message's fate rests on |
| `Queue.AckedIsStored` | internal/queue/queue.go:266-350 | an acked telemetry message has its interfaces and connections in the store, and each non-empty section of traffic, L7, DNS and subnets; an acked flow message its rows, within one write; an acked syslog message its event; no other message is acked |
| `Queue.TermedIsBadOrCopied` | internal/queue/queue.go:352-384 | a termed message cannot be understood or has its copy |
| `Queue.LostExactlyWhen` | internal/queue/queue.go:352-384 | a decodable message that is never stored, every delivery of which ended in the handler, is missing from the dead-letter subject exactly when the copy failed at deliveries 9 and 10 |
| `AgentQueue.Client.WithFailover` | internal/agent/agent.go:106-122 | succeeds exactly when some hub accepts, and sticks to the first that does, in cyclic order from the active one |
| `AgentQueue.EveryHubIsTried` | internal/agent/agent.go:106-122 | the cyclic order reaches every hub of the pool |
| `AgentQueue.Client.Drain` | internal/agent/agent.go:373-385 | compacting into the same array keeps exactly the failed batches in order |
| `AgentQueue.Client.Send` | internal/agent/agent.go:373-399 | every batch is in exactly one of delivered, queued and dropped; the queue is in order, at most 100 long, and newer than all that was dropped |
| `AgentQueue.LedgerStep` | internal/agent/agent.go:373-399 | a Send moves batches between those places without losing or doubling one |
| `Pki.StepKeeps` | internal/pki/pki.go:64-152 | every file step of every replica keeps the invariant of the race |
| `Pki.OneCA` | internal/pki/pki.go:64-152 | in any interleaving with failures, crashes and restarts all replicas that return hold the same matching pair, the one on disk |
| `Pki.CertIsFinal` | internal/pki/pki.go:64-135 | once ca.crt is there, ca.key is complete, matches and never changes again |
| `Pki.GetsTheCA` | internal/pki/pki.go:64-152 | the owner of the lock file that takes its three steps, and a replica at a new try that takes two when the pair is complete, return that pair, whatever the others do |
| `Pki.LoserGetsWinnersCA` | internal/pki/pki.go:64-152 | a replica that lost the race returns the winner's CA if it starts a try after the winner has returned and does not crash |
| `Pki.AbandonedForGood` | internal/pki/pki.go:64-135 | a lock file that is left behind keeps every replica from a CA for good |
| `Pki.WhoAbandons` | internal/pki/pki.go:76-132 | the owner leaves it behind exactly when it did not remove it |
| `Baseline.CombineBaseline` | internal/alert/anomaly.go:451-493 | one row per key and bucket with a positive weight, from exactly its own sub-totals |
| `Baseline.OrderDoesNotMatter` | internal/alert/anomaly.go:451-493 | the order of the sub-totals does not matter |
| `Baseline.OlderCountsHalf` | internal/alert/anomaly.go:464-476 | a sub-total that is one half-life older adds half as much to each weighted sum of its slot, and as much to the plain count |
| `Baseline.VarianceIsSpread` | internal/alert/anomaly.go:477-493 | mean and variance are the weighted ones of the samples behind the sub-totals |
| `Baseline.NoClamp` | internal/alert/anomaly.go:477-493 | if every sub-total satisfies N * SumSq >= Sum^2 the variance needs no clamp, and M2 over N is that variance |
| `Baseline.SamplesCauchySchwarz` | internal/alert/anomaly.go:477-493 | sub-totals of real samples satisfy it |
| `Baseline.PlainPooling` | internal/alert/anomaly.go:451-493 | without a half-life the row is that of all the slot's samples pooled |
| `Incidents.ClusterInWindow` | internal/incident/rules.go:143-165 | on a time-sorted cluster a largest set of suspicious alerts that span at most the window |
| `Incidents.Has` | internal/incident/rules.go:44-81 | succeeds exactly when all kinds occur near some anchor; returns per kind the most severe, then newest, near one anchor |
| `Incidents.TwoKinds` | internal/incident/rules.go:44-81 | with two kinds: exactly when some pair lies within the window |
| `Incidents.EvidenceIsClose` | internal/incident/rules.go:44-81 | the evidence spans at most twice the window |
| `Incidents.RiskScore` | internal/incident/rules.go:175-201 | the score is 55, 55, 40, 35 or 30 by rule, plus 25 or 10 by severity, five per alert after the second up to twenty and five per critical alert, at most 100 |
| `Incidents.Mk` | internal/incident/rules.go:83-107 | the evidence in time order, its ends, the highest of the rule's own severity and the evidence's, and their score |
| `Incidents.MatchRules` | internal/incident/rules.go:35-139 | each rule is reported, once, exactly when it applies, with evidence that backs it, a new target before a known threat, rated from the rule's own severity on and scored; rule 5 exactly when a large enough set exists |
| `Sni.TlsSni` | internal/agent/l7.go:95-153 | in bounds on arbitrary bytes; the loop computes the walk over the extensions |
| `Sni.SanitizeHost` | internal/agent/l7.go:186-200 | empty, or a bounded name with a dot or colon and no forbidden character |
| `Sni.PrefixYieldsSameOrNothing` | internal/agent/l7.go:95-153 | on any bytes, a cut yields the same name or none |
| `Sni.HelloRead` | internal/agent/l7.go:95-153 | a well-formed ClientHello yields its host name exactly when the cut leaves the server_name extension whole, whatever extensions surround it |
| `Capture.Engine.Process` | internal/capture/engine.go:315-441 | after any packets every counter is the tally of the packets: in and out bytes and packets per host, bytes per port, counts per protocol, the current second |
| `Capture.Engine.RollBucket` | internal/capture/engine.go:443-451 | starts a new second and keeps the last 120 |
| `Capture.Engine.ApplyDns` | internal/capture/dns.go:89-127 | tracked names are counted exactly, a name goes untracked only when the table is full, and keeps all its answered addresses or four |
| `Capture.EndpointsStep` | internal/capture/engine.go:375-407 | one packet adds twice its length to the hosts' bytes and one to their packets, also when source and destination are the same |
| `Capture.PortsStep` | internal/capture/engine.go:409-424 | one TCP or UDP packet adds twice its length to the ports' bytes, also when the ports are the same |
| `Capture.Conservation` | internal/capture/engine.go:315-451 | the conserved sums and the bounds in every reachable state |
| `Limits.AuthManager.AllowAttempt` | internal/server/auth.go:254-267 | refuses while the block lasts, and counts afresh after the window |
| `Limits.FailureKeeps` | internal/server/auth.go:269-280 | recording a failure keeps the entry consistent with the times of the failures: any nine in a row and the next span a window, and a full count has become a block |
| `Limits.AuthManager.Login` | internal/server/auth.go:114-172 | an address is refused exactly while its block lasts, success clears it, other addresses are untouched, and the failures stay spaced |
| `Limits.SpacedFit` | internal/server/auth.go:254-280 | times of which any k + 1 in a row span the width never put more than k into a half-open window |
| `Limits.FailuresAreLimited` | internal/server/auth.go:254-280 | at most 2 * maxAttempts - 1 failures of one address in any half-open window without a success |
| `Limits.NineFit` | internal/server/auth.go:254-280 | that many do occur |
| `Limits.Triager.Allow` | internal/ai/triage.go:56-72 | refuses exactly when the limit was admitted in the last hour; the in-place filter loses no admission that counts |
| `Limits.AdmissionsAreLimited` | internal/ai/triage.go:56-72 | at most maxPerHr admissions in any half-open hour |
| `Detectors.FiresOncePerRun` | internal/alert/alert.go:416-441 | exactly once per maximal run over the threshold that is long enough, at its need-th evaluation |
| `Detectors.FiresOnlyInRuns` | internal/alert/alert.go:416-441 | and never outside such a run |
| `Detectors.FiredForGood` | internal/alert/alert.go:416-441 | what has fired does not depend on later evaluations |
| `Detectors.Manager.CheckBandwidth` | internal/alert/alert.go:416-441 | the counters are run lengths; a disabled rule or stopped capture ends the run; fires when the run reaches the needed length |
| `Detectors.Manager.CheckAgentBandwidth` | internal/alert/alert.go:610-661 | the same per agent: offline agents keep their run, unlisted ones lose it, a disabled rule evaluates nothing |
| `Detectors.AgentFiresNow` | internal/alert/alert.go:610-661 | a direction fires exactly when the evaluation just made completes its run |
| `Detectors.Manager.CheckIfaceUtil` | internal/alert/iface.go:32-102 | the same per interface and direction; an interface that was not evaluated in this check has no counter, a failed device list changes nothing |
| `Detectors.IfaceFiresNow` | internal/alert/iface.go:32-102 | an interface fires exactly when the reading just made completes its run |
| `Detectors.OnlyEvaluatedIfacesCount` | internal/alert/iface.go:97-102 | a counter belongs to an interface whose last evaluation was over the threshold, and is the length of its longest tail of such evaluations |
| `Detectors.Manager.StandDown` | internal/alert/alert.go:349-356 | a replica that does not lead ends the hub's and the interfaces' runs and keeps the agents' |
| `Alarms.OneAlarmPerLongRun` | internal/alert/alert.go:416-441 | over any evaluations there are as many alarms as maximal runs that are long enough |
| `Alarms.WatchHub` | internal/alert/alert.go:416-441 | over any samples under a fixed configuration, one alarm per direction and long run |
| `Alarms.WatchAgents` | internal/alert/alert.go:610-661 | over any rounds, one alarm per agent, direction and long run; offline rounds are passed over, unlisted ones end a run |
| `Alarms.WatchIfaces` | internal/alert/iface.go:32-102 | over any rounds, one alarm per interface, direction and long run; failed rounds are passed over |

## Left out

- ThinkFilter.StreamFiltered: letters outside ASCII, where the two ways of folding case that the code mixes disagree.
- ThinkStrip.StripThink: compared with the stream filter only on texts with no other `<` outside their blocks, because it rescans across the seam of a removed block.
- Templates.TemplateCache.ParseV9: v9 and IPFIX share one cache, so the isolation is between (exporter, domain) pairs, not between the two protocols of one pair.
- SFlow.ParseSFlow: the printed form of addresses is the address itself; the text of the agent address is a parameter.
- Collector.RunKeeps: what OnFlows does with the rows, and the metrics other than the queue_full count.
- Evidence.VerifyBundle: masked bundles are covered by the contract, but not by the theorems about sealed days, and neither are bundles of several days.
- SignedBundles.SignedRecordsWereLogged: unmasked bundles whose hours all lie in the signed day, and records without a separator in their text fields; that the key accepts nothing but seals is a hypothesis.
- SealedDay.SealedDayAccepted: zones whose offset is not a whole number of hours, records removed by retention, and several sealers, whose duplicates are in SealRace.
- LateHours.AcceptedExactlyWhen: the rejecting half assumes that nothing that was hashed collides, neither two texts, nor two nodes, nor a text with a node.
- SealRace.AtMostOneExactlyWhen: reading the records or hours and reading the latest checkpoint are one step.
- FlowStreams.Collect: each datagram is parsed in one step; workers that take turns inside a datagram are not modelled.
- Sealer.DailySeal: the export to write-once storage.
- Recurrence.NextRun: zones with daylight saving; on a fixed offset only.
- Scheduler.Scheduler.Sweep: a failed query (the sweep does nothing) and a failed update (the job is due again).
- Queue.RunKeeps: messages that age out of the stream or are pushed out by its size limit.
- Queue.StoreWriter.Handle: the clamping of a batch's time stamp.
- AgentQueue.Client.Send: a queue file that cannot be written, and posts that arrive although their reply is lost.
- Pki.OneCA: files that someone else removes or changes; a proper prefix of a PEM text is taken not to parse.
- Baseline.CombineBaseline: rounding; the sums are over the reals.
- Incidents.MatchRules: titles, reasons, summaries, site and key of a match.
- Sni.SanitizeHost: case folding and spaces outside ASCII.
- Capture.Engine.Process: the decoding of layers and of DNS messages, and the wrap-around of 64-bit counters.
- Limits.AuthManager.Login: password checks, sessions and audit, and the legacy logins that are refused by policy without being counted.
- Detectors.Manager.CheckBandwidth: alert texts, notification, silences and automatic resolution.
- HTTP handlers, WebSocket hub, single sign-on, ticketing, mail and chat plumbing, and the frontend.
- pcap, eBPF, ETW, SNMP and firewall access, which are calls into libraries that are not part of this model.
- Report rendering, metrics, configuration loading, logging, prompts and GeoIP tables.
