# StreamMix, modelled and proved

A Dafny model of the parts of StreamMix whose correctness is not visible in any one function: the
relay's fan-out under concurrency, the publisher's session over reconnects, the composition of the
two, the failed-login limiter, playback scheduling, the mixer and its audio graph, and the codecs
that the Go, C++ and TypeScript sides must agree on. `dafny verify dfyconfig.toml` checks it all.

## How it is organised

- **Relay.** `SubscriberQueue` is one viewer's queue and the three selects of a delivery.
  `RelayProtocol` is a channel as a transition system whose steps are the sections under the
  channel mutex, the single selects, the receives and the steps of an unsubscribe; its invariant is
  proved for every schedule. `RelayGuarantees` and `RelayIsolation` draw the consequences.
  `RelayRegistry` adds the directory, the handlers' lookup-then-claim and the reaper. `RelayHub` has
  the objects themselves, with their fields updated in place.
- **Publisher.** `PublisherChunks` is the capture callback and `AudioFrames` the way of one of its
  packets; `PublisherSession` the queue and connection state machine over all interleavings;
  `PublisherClient` its guarantees and the client object. `EndToEnd` runs publisher, connections and relay together, and `EndToEndDelivery` says
  which frames a viewer is handed.
- **Timing.** `AuthLimiter` and `PlaybackScheduler`: objects, and exact bounds over unbounded runs.
- **Mixer.** `MixerGraph` gives a graph of audio nodes its meaning as signals; `MixerState` is the
  content script's maps under any events and page loads; `ContentScript` is the script as an object,
  each closure proved to do the step that `MixerState` reasons about.
- **Codecs.** `FrameCodec` is the wire frame, with one file per language proved against it
  (`FrameCodecCpp`, `FrameCodecGo`, `FrameCodecTs`); `Slugs`, `CommandLine`, `TrackListJson` and
  `Announcement` go from the command line through the relay to the viewer's track list; `Base64Url`
  and `Handshake` from the token to the relay's answer.

Classes and methods model the code as written, loops included; functions are their specifications;
lemmas say what the specifications are good for. In the transition systems an event that is not
enabled changes nothing, so every sequence of events is a schedule.

## Where the code does less than it says

Each is proved, by a concrete run or input, or as the exact condition under which the code keeps
the promise, or both.

- A delivery to a full queue evicts a packet even if the reader has made room since; it loses one
  unless the reader empties the queue first (`EvictionAfterDrainLosesAPacket`,
  `DisturbedDeliveryLosesAtMostOne`).
- "Those frames always lead": a packet enqueued right after the clear is written before HELLO, and an
  overflow can drop HELLO (`AudioCanPrecedeHello`, `HelloLeadsIff`, `AnnouncementLeadsIff`).
- A sweep between a handler's lookup and its claim deletes the channel under it, and a second
  publisher can then hold the same id (`SweepInTheWindowAllowsTwoPublishers`). Over whole runs the
  exact condition is given for all handlers being on the registered channel
  (`RegisteredIffNeverOrphans`), which implies one publisher per id (`OnePublisherPerId`); for two
  publishers it is given at a state (`TwoPublishersIff`).
- The limiter's comment says sliding window; its window is anchored at the first failure, and a
  request reads the clock before it takes the lock. With c requests in flight, up to
  c·threshold + c(c − 1)/2 + threshold − 2 failures fall into a window length that is not empty; the
  threshold is kept only for a threshold of two and serialised requests (`FailureBound`, `BoundIsTight`,
  `SerialBoundIff`, `ThresholdIff`).
- Three things end a ban before its time, all by requests that were in flight when it began: a
  failure whose clock was read before the ban, a failure after the window, and a success. Only with
  serialised requests are all further ones denied for the cooldown (`BanHoldsIff`, `BansHoldIff`,
  `StaleFailureShortensTheBan`, `LateFailureLiftsTheBan`, `SuccessLiftsTheBan`).
- The TypeScript encoder says it never produces a frame the decoder would reject; it does not look
  at the type (`UnknownTypeIsEncoded`, `AcceptedIffTypeKnown`, `RoundTripIff`). Its range checks let
  NaN through, which is stored as zero (`EncodesTsIff`, `NaNPasses`).
- The publisher accepts custom labels longer than the 64 bytes that the track-list decoders allow,
  as long as their slug is short. A list that outgrows a frame is sent as an empty packet, on which
  the relay drops the publisher, on every connection (`AnnouncementArrives`, `LongLabelsFail`).
- The printer of the track list does not escape labels, so one with quotes never arrives as it is,
  and can arrive as two tracks (`ArrivesUnchangedIff`, `LabelSplitsIntoTwo`).
- Saving a streamer's settings keeps only the tracks listed at that moment, and a mute made by solo
  is not saved (`SaveThenReload`, `SoloIsNotSaved`).
- A track whose slug is "constructor" gets no usable gain, since the preference lookup finds an
  inherited property (`OnlyConstructorIsUndefined`, `ConstructorHasNoGain`).

## Model

| member | source | states |
|---|---|---|
| `SubscriberQueue.DeliverAloneDropsOldest` | relay/internal/channel.go:136-157 | With nobody else at the queue, the three selects are exactly "drop the oldest, push the new", one drop counted per eviction |
| `SubscriberQueue.EvictionAfterDrainLosesAPacket` | relay/internal/channel.go:144-151 | A read between the selects makes the delivery evict a packet although there is room; the concrete case |
| `SubscriberQueue.ReadHandsOver` | relay/internal/server.go:202-211 | A receive hands over a packet exactly if that packet is what the connection has received more; it reports the end exactly on a closed drained queue and blocks exactly on an open empty one |
| `SubscriberQueue.DeliveryToLeaver` | relay/internal/channel.go:124-157 | A delivery leaves a flagged queue alone, ends without a trace at a closed one, and an eviction after the close is still counted |
| `SubscriberQueue.StepsKeepAccepted` | relay/internal/channel.go:146-147 | Neither a read nor an eviction changes the list of packets the queue ever accepted |
| `SubscriberQueue.ReceivedPlusEvicted` | relay/internal/channel.go:16-23 | Every packet that left the queue was either received or evicted |
| `SubscriberQueue.ReceivedIsOrdered` | relay/internal/channel.go:80-86 | Dropping evicted packets from an increasing list leaves an increasing sublist of it |
| `RelayProtocol.InitOk` | relay/internal/channel.go:48-55 | A new channel satisfies the invariant |
| `RelayProtocol.PublisherStepOk` | relay/internal/channel.go:63-78 | Claim and release keep the invariant: slot taken exactly while there is a holder, at most one |
| `RelayProtocol.BeginCastOk` | relay/internal/channel.go:115-122 | Taking the snapshot into the reused scratch slice keeps the invariant, whatever order the map yields |
| `RelayProtocol.SubscribeOk` | relay/internal/channel.go:87-97 | A subscription joins at the current end of the history and keeps the cap |
| `RelayProtocol.UnsubBeginOk` | relay/internal/channel.go:100-102 | Deleting the registration under the lock keeps the invariant |
| `RelayProtocol.UnsubFlagOk` | relay/internal/channel.go:103-105 | The flag is set after the deletion and before the close |
| `RelayProtocol.UnsubCloseOk` | relay/internal/channel.go:106-108 | The close happens once, under the same lock |
| `RelayProtocol.ReadOk` | relay/internal/server.go:202-209 | A receive by a viewer's connection, also on a closed queue, keeps the invariant |
| `RelayProtocol.DeliverKeepsSeat` | relay/internal/channel.go:136-157 | Each select extends or keeps the unbroken stretch of the history a queue has accepted |
| `RelayProtocol.CasterStepShape` | relay/internal/channel.go:121-129 | The broadcaster iterates over the snapshot it took even though it reads the shared scratch buffer outside the lock, and the seat it serves lacks exactly the packet in flight |
| `RelayProtocol.StepOk` | relay/internal/channel.go:63-157 | Every atomic step of publishers, broadcasters, viewers and unsubscribes keeps the invariant |
| `RelayProtocol.RunOk` | relay/internal/channel.go:63-157 | Every schedule of those steps keeps it |
| `RelayGuarantees.HandedOutIsReceived` | relay/internal/server.go:202-211 | Over any run, the packets that the receives of a connection returned, in order, are exactly those that left its queue unevicted |
| `RelayGuarantees.ViewerSeesSubsequence` | relay/internal/channel.go:80-86 | In every schedule, the packets handed to the connection followed by those queued are a strictly increasing list of positions broadcast after the viewer joined; only evictions are missing |
| `RelayGuarantees.OpenQueueIsLatestBlock` | relay/internal/channel.go:136-157 | An open queue is the contiguous block of the history that ends at the last delivered packet, at most sendBuf long, and offered = handed out + queued + dropped |
| `RelayGuarantees.LastSelectNeverFails` | relay/internal/channel.go:150-155 | The branch "still could not queue" is unreachable in every schedule |
| `RelayGuarantees.NothingEntersAfterClose` | relay/internal/channel.go:99-109 | `send` is closed at most once, stays closed, and from then on only loses packets at the front |
| `RelayGuarantees.OneBroadcastAtATime` | relay/internal/channel.go:115-130 | One holder, one broadcast in flight, and the scratch buffer still equals its snapshot |
| `RelayGuarantees.SlotMatchesHolder` | relay/internal/channel.go:60-71 | A claim succeeds exactly when no handler holds the channel |
| `RelayGuarantees.ComingAndGoing` | relay/internal/channel.go:74-109 | A released channel can be claimed again at once; a viewer gets an empty queue of its own exactly while there is room; an unsubscribe leaves the registration gone and the queue flagged and closed, all else as it was |
| `RelayGuarantees.CastStepProgresses` | relay/internal/channel.go:124-129 | The broadcaster can always take its next step and it uses up budget |
| `RelayGuarantees.BroadcastFinishes` | relay/internal/channel.go:112-130 | Under every schedule the steps a broadcast takes never exceed its initial budget |
| `RelayGuarantees.BroadcastBound` | relay/internal/channel.go:112-130 | From its snapshot on, a broadcast is done after 4·subscribers + 1 of its own steps, whatever the readers do |
| `RelayIsolation.StepIsLocal` | relay/internal/channel.go:124-157 | One step of the relay, seen from one viewer, is at most one step of a sequential queue |
| `RelayIsolation.RunIsLocal` | relay/internal/channel.go:112-157 | A whole run projected to one viewer is a run of that sequential queue |
| `RelayIsolation.SameOwnEventsSameQueue` | relay/internal/channel.go:112-114 | Two runs that agree on a viewer's own events leave it the same queue, receipts and drops, whoever else is there |
| `RelayIsolation.OthersReadsAreInvisible` | relay/internal/channel.go:112-114 | Another viewer reading or not reading changes nothing the broadcaster or this viewer can observe |
| `RelayIsolation.DisturbedDeliveryLosesAtMostOne` | relay/internal/channel.go:140-156 | For any number of reads between the selects of a delivery to a full queue: the exact queue afterwards and whether a packet was lost |
| `RelayRegistry.StepOk` | relay/internal/registry.go:50-93 | Every step of lookups, handlers and a sweep keeps caps, slots and directory sound |
| `RelayRegistry.RunOk` | relay/internal/registry.go:50-93 | So does every run |
| `RelayRegistry.EveryObjectIsSound` | relay/internal/registry.go:50-65 | In every run with sweeps: per channel object at most one publisher, slot taken iff held, subscribers exactly the joined ones, both caps respected |
| `RelayRegistry.VisitLeavesNoTrace` | relay/internal/server.go:92-105 | A handler gets the registered channel, or a new one; it joins exactly if slot or cap allow; and when it leaves, nothing of it is left |
| `RelayRegistry.QuietSweepIsReap` | relay/internal/registry.go:84-93 | A sweep that nobody interferes with removes, in any order of visiting, exactly the channels without publisher and subscriber |
| `RelayRegistry.ValidIdIff` | relay/internal/registry.go:17-17 | An id is valid exactly if it is "twitch:" or "kick:" and 1 to 64 small letters, digits or underscores |
| `RelayRegistry.StepRegistered` | relay/internal/registry.go:84-93 | A step keeps every handler on a registered object exactly when it does not delete a channel some handler has looked up |
| `RelayRegistry.RegisteredIffNeverOrphans` | relay/internal/server.go:92-101 | Over a run, every handler stays on the registered object of its id exactly when no sweep deletes a looked-up channel |
| `RelayRegistry.QuietSweepsNeverOrphan` | relay/internal/registry.go:84-93 | No sweep deletes a looked-up channel if none starts within a lookup-to-claim window |
| `RelayRegistry.OnePublisherPerId` | relay/internal/server.go:92-101 | As long as no sweep deletes a looked-up channel, each id has at most one publisher and all parties of the id share one object |
| `RelayRegistry.TwoPublishersIff` | relay/internal/server.go:92-101 | From any state between sweeps that has room for a channel of the id: without a further deletion two publishers can come to hold the id exactly if a publisher whose channel was deleted under it is still there |
| `RelayRegistry.SweepInTheWindowAllowsTwoPublishers` | relay/internal/server.go:92-101 | Without that condition it fails: a run in which two publishers hold the same id |
| `RelayHub.Subscriber.TrySend` | relay/internal/channel.go:140-142 | A non-blocking send: queued, would block, or (closed) panics |
| `RelayHub.Subscriber.DropHead` | relay/internal/channel.go:145-149 | The non-blocking receive of the second select, with its drop count |
| `RelayHub.Subscriber.Receive` | relay/internal/channel.go:80-83 | A receive drains what is buffered and then reports the close |
| `RelayHub.SilentViewerKeepsNewest` | relay/internal/channel.go:80-86 | However many packets a viewer that does not read misses, it is left with the newest sendBuf ones in order and the rest are counted |
| `RelayHub.Channel.constructor` | relay/internal/channel.go:48-55 | A channel starts without publisher and subscribers |
| `RelayHub.Channel.ClaimPublisher` | relay/internal/channel.go:63-71 | Takes the slot exactly when it is free |
| `RelayHub.Channel.ReleasePublisher` | relay/internal/channel.go:74-78 | Frees the slot and nothing else |
| `RelayHub.Channel.Subscribe` | relay/internal/channel.go:87-97 | Adds a fresh empty subscriber unless the cap is reached |
| `RelayHub.Channel.Unsubscribe` | relay/internal/channel.go:99-109 | Removes, flags and closes exactly that subscriber, once |
| `RelayHub.Channel.Deliver` | relay/internal/channel.go:136-157 | The queue afterwards is the drop-oldest delivery of the specification |
| `RelayHub.Channel.TakeSnapshot` | relay/internal/channel.go:116-121 | The reused scratch slice holds every subscriber exactly once |
| `RelayHub.Channel.Broadcast` | relay/internal/channel.go:115-130 | Every subscriber's queue gets exactly one delivery of the packet and nothing else changes |
| `RelayHub.Registry.constructor` | relay/internal/registry.go:38-45 | An empty directory with exactly the configured caps and queue depth |
| `RelayHub.Registry.GetOrCreate` | relay/internal/registry.go:50-65 | The existing channel, a new one with the registry's limits under the cap, or the error, with the directory unchanged otherwise |
| `RelayHub.Registry.Reap` | relay/internal/registry.go:84-93 | Deletes exactly the idle channels |
| `RelayHub.Registry.Snapshot` | relay/internal/registry.go:68-80 | One entry per registered channel with its statistics |
| `RelayHub.Server.Publish` | relay/internal/server.go:92-147 | From claim to deferred release: every viewer is offered exactly the messages up to the first without the magic, in order; the counters match; a refused publisher changes nothing |
| `PublisherChunks.NothingLostOrReordered` | publisher/src/main.cpp:171-181 | Chunks followed by the remainder are the input; every chunk is 1920 samples, the remainder fewer |
| `PublisherChunks.ChunksOfConcatenation` | publisher/src/main.cpp:177-181 | Cutting the stream anywhere does not change the chunks or the remainder |
| `PublisherChunks.EmissionsNumbered` | publisher/src/main.cpp:184-191 | Packets are numbered from one without gaps, modulo 2^32, skipping chunks the encoder rejects |
| `PublisherChunks.PayloadsAreEncodings` | publisher/src/main.cpp:179-190 | The payloads are, in order, exactly what the encoder gave for each chunk after the ones before it, its failures left out |
| `AudioFrames.PacketTravels` | publisher/src/main.cpp:179-191 | Every packet of a pipeline that has at most 4096 bytes is encoded, forwarded by the relay, and decodes to the number of its place and the payload the encoder gave for it; a longer one is not encoded |
| `AudioFrames.ChunkLastsOneFrame` | extension/src/audio/scheduler.ts:14-14 | The frame length of the scheduler is the duration of a chunk at 48 kHz |
| `PublisherChunks.TrackPipeline.constructor` | publisher/src/main.cpp:94-101 | A fresh pipeline has consumed nothing |
| `PublisherChunks.TrackPipeline.OnCapture` | publisher/src/main.cpp:168-193 | After any batch, buffer, encoded chunks and numbered packets are functions of the whole stream so far |
| `PublisherChunks.TrackPipeline.EncodeOne` | publisher/src/main.cpp:179-191 | One turn of the loop takes the first 1920 samples and numbers the packet if there is one |
| `PublisherChunks.SplitDoesNotMatter` | publisher/src/main.cpp:168-193 | Two pipelines fed the same stream in different batches have encoded, numbered and kept the same |
| `PublisherSession.PushOk` | publisher/src/ws_client.cpp:101-109 | An enqueue, overflow included, keeps the session invariant |
| `PublisherSession.ClearOk` | publisher/src/ws_client.cpp:125-128 | The clear starts a connection at the current end of the log |
| `PublisherSession.AnnounceOk` | publisher/src/main.cpp:120-135 | HELLO and TRACK_LIST enter like any other packet and are remembered |
| `PublisherSession.TakeOk` | publisher/src/ws_client.cpp:55-64 | Taking the front for writing keeps the invariant |
| `PublisherSession.WriteDoneOk` | publisher/src/ws_client.cpp:67-75 | A write that succeeds counts as sent, one that fails is lost |
| `PublisherSession.RunOk` | publisher/src/ws_client.cpp:55-160 | Every interleaving of capture threads, service thread and connection events keeps the invariant |
| `PublisherClient.NoStaleAudio` | publisher/src/ws_client.h:24-30 | Whatever is written on a connection was enqueued after that connection's clear and before any later clear, in order |
| `PublisherClient.EveryPacketAccountedFor` | publisher/src/ws_client.cpp:101-109 | enqueued = queued + sent + dropped + cleared + lost + being written, and the queue stays within 256 |
| `PublisherClient.StreamIsWhatWasSent` | publisher/src/ws_client.cpp:67-73 | The successful writes of a connection are a prefix of its writes, all but at most the last |
| `PublisherClient.HelloBeforeTrackList` | publisher/src/ws_client.cpp:120-130 | HELLO is never written after TRACK_LIST, and only packets enqueued between clear and HELLO can precede it |
| `PublisherClient.HelloLeadsIff` | publisher/src/ws_client.h:26-30 | HELLO is the first write exactly when as many packets slipped in before it as overflow had dropped |
| `PublisherClient.AnnouncementLeadsIff` | publisher/src/ws_client.h:26-30 | In every run: those two are the first two writes exactly when what slipped in before each is what the overflow had dropped by its write |
| `PublisherClient.UndisturbedAnnouncementLeadsIff` | publisher/src/ws_client.h:26-30 | With nothing between clear, HELLO and TRACK_LIST, they lead exactly if at most 254 packets arrive before the first write and 255 before the second |
| `PublisherClient.AudioCanPrecedeHello` | publisher/src/main.cpp:117-119 | "Always lead" fails: a run in which an audio packet is written before HELLO |
| `PublisherClient.GoesDown` | publisher/src/ws_client.cpp:67-75 | A lost connection is counted once and a failed attempt not at all; a failed write adds nothing to what the relay can read; then the client is down |
| `PublisherClient.ComesUpAgain` | publisher/src/ws_client.cpp:120-130 | From wherever it is down, a handshake brings it up on a new connection with HELLO and TRACK_LIST alone in the queue |
| `PublisherClient.WebSocketClient.constructor` | publisher/src/ws_client.h:33-33 | A client starts disconnected with an empty queue |
| `PublisherClient.WebSocketClient.Enqueue` | publisher/src/ws_client.cpp:101-116 | Drops the front at 256 packets, appends, counts; a step of the session |
| `PublisherClient.WebSocketClient.StartConnecting` | publisher/src/ws_client.cpp:142-160 | TryConnect with either outcome |
| `PublisherClient.WebSocketClient.OnEstablished` | publisher/src/ws_client.cpp:120-130 | Alone, it leaves exactly HELLO and TRACK_LIST queued; a run of four steps of the session |
| `PublisherClient.WebSocketClient.ClearTheQueue` | publisher/src/ws_client.cpp:125-128 | Empties the queue and opens a connection record |
| `PublisherClient.WebSocketClient.TakeFront` | publisher/src/ws_client.cpp:55-64 | Takes the front packet, if any, and reports whether more wait |
| `PublisherClient.WebSocketClient.OnWritten` | publisher/src/ws_client.cpp:67-75 | The outcome of a write |
| `PublisherClient.WebSocketClient.MarkDisconnected` | publisher/src/ws_client.cpp:132-140 | Down again; a reconnect is counted only if it had been connected |
| `PublisherClient.WebSocketClient.ReconnectTick` | publisher/src/ws_client.cpp:212-230 | Tries exactly when disconnected, not connecting and due; the next try follows the backoff table, reset while connected |
| `EndToEnd.RunOk` | docs/AUDIO_PROTOCOL.md:136-136 | The invariants of publisher, session, connection and relay hold together in every interleaving |
| `EndToEnd.HistoryIsOrdered` | relay/internal/server.go:122-146 | What the relay broadcasts, over all connections of one publisher process, is in the order of enqueuing |
| `EndToEnd.SeqIncreasesEndToEnd` | docs/AUDIO_PROTOCOL.md:136-136 | In every interleaving of capture threads, both drop-oldest queues, reconnects and relay steps, the audio frames of a track reach a viewer in strictly increasing SEQ (fewer than 2^32 frames) |
| `EndToEndDelivery.LogIsWhatWasEncoded` | publisher/src/main.cpp:177-191 | In every run the audio packets of a track that were enqueued carry, in order, exactly the numbers of its frames whose encoding succeeded, the k-th frame having number k |
| `EndToEndDelivery.ViewerGetsEncodedFrames` | docs/AUDIO_PROTOCOL.md:136-136 | In every run, the frames of a track that a viewer's connection is handed are a strictly increasing selection of those numbers |
| `EndToEndDelivery.FramesArrive` | relay/internal/server.go:122-147 | For every n there is a run, from the first connection attempt on, at whose end a viewer has been handed the frames 1 to n of a track |
| `AuthLimiter.FailedAuthLimiter.constructor` | relay/internal/ratelimit.go:32-39 | A limiter starts with no entries |
| `AuthLimiter.FailedAuthLimiter.Allowed` | relay/internal/ratelimit.go:43-59 | Denies exactly during a ban; an elapsed ban deletes the entry |
| `AuthLimiter.FailedAuthLimiter.RecordFailure` | relay/internal/ratelimit.go:63-83 | Opens, restarts or extends the window and bans at the threshold |
| `AuthLimiter.FailedAuthLimiter.RecordSuccess` | relay/internal/ratelimit.go:86-90 | Forgets the address |
| `AuthLimiter.RunOk` | relay/internal/server.go:69-90 | In every run with at most c requests between check and outcome, their clock readings and lock sections interleaved in any order: times lie in the past, only a full count is a ban, and during a ban fewer than c are in flight |
| `AuthLimiter.LetInIff` | relay/internal/ratelimit.go:43-59 | In any reachable state a request is turned away exactly before the end of a ban; afterwards the ban is forgotten; a request that leaves without an outcome changes nothing else |
| `AuthLimiter.PotentialStep` | relay/internal/ratelimit.go:63-83 | No step of any request, with however old a time, adds to the failures in a given interval without using up as much of what may still come |
| `AuthLimiter.FailureBound` | relay/internal/ratelimit.go:13-15 | With at most c requests in flight and without a success, any closed interval as long as the window holds at most c·threshold + c(c − 1)/2 recorded failures, and threshold − 2 more if the window is not empty |
| `AuthLimiter.MostFailuresIs` | relay/internal/ratelimit.go:13-15 | That number in closed form, from the rounds in which old times shorten one ban after another |
| `AuthLimiter.BoundIsTight` | relay/internal/ratelimit.go:63-83 | For every c and every policy with a threshold of two or more and a cooldown longer than the window, a run attains that number |
| `AuthLimiter.NeverMoreThanIff` | relay/internal/ratelimit.go:61-62 | All runs with c requests in flight keep to n failures in a window length exactly if n is at least that number |
| `AuthLimiter.NoBoundWithSuccesses` | relay/internal/ratelimit.go:86-90 | With successes of the same address in between there is no bound: a run for every number of failures |
| `AuthLimiter.OverlappingRequestsExceedTheBound` | relay/internal/server.go:69-90 | For every such policy and any two or more requests in flight a run exceeds what serialised requests can reach by more than the threshold |
| `AuthLimiter.SerialBoundIff` | relay/internal/server.go:69-90 | What serialised requests can reach, 2·threshold − 2 or the threshold if the window is empty, holds of all runs exactly when requests are serialised |
| `AuthLimiter.ThresholdIff` | relay/internal/ratelimit.go:13-15 | "Threshold within Window" as a bound on every window length holds exactly for serialised requests and a threshold of two or an empty window |
| `AuthLimiter.FailuresInAWindow` | relay/internal/ratelimit.go:72-82 | Of serialised requests: one window has at most the threshold of failures, numbered without a gap, windows start more than a window length apart, and after the failure that completes the threshold the next comes no sooner than the cooldown |
| `AuthLimiter.ThresholdKeptIff` | relay/internal/ratelimit.go:72-82 | In a given serialised run, whether failures within a window length keep to the threshold, by their places on each side of the window start |
| `AuthLimiter.BanStands` | relay/internal/ratelimit.go:13-15 | Without a success, and with failures only at times from the ban to the end of its window, a ban keeps standing, never gets shorter, and nobody is let in |
| `AuthLimiter.BanHoldsIff` | relay/internal/ratelimit.go:72-90 | A ban denies every further request for the cooldown exactly as long as no request of the address succeeds and no failure is recorded with a time before the ban or after its window |
| `AuthLimiter.InFlightAtTheBan` | relay/internal/server.go:69-90 | Whoever is in flight while such a ban stands was so when it began, and fewer than c were |
| `AuthLimiter.SerialBanHolds` | relay/internal/ratelimit.go:13-15 | Serialised requests are denied for the whole cooldown, successes included |
| `AuthLimiter.StaleFailureShortensTheBan` | relay/internal/ratelimit.go:64-65 | With two or more in flight, for every such policy: a failure whose clock was read a millisecond before the ban and recorded after it shortens the ban |
| `AuthLimiter.SuccessLiftsTheBan` | relay/internal/ratelimit.go:86-90 | With two or more in flight, for every such policy: the success of a request that was in flight lifts the ban |
| `AuthLimiter.LateFailureLiftsTheBan` | relay/internal/ratelimit.go:72-77 | With two or more in flight, for every such policy with a cooldown of two milliseconds or more: a failure a millisecond after the window lifts the ban |
| `AuthLimiter.BansHoldIff` | relay/internal/ratelimit.go:13-15 | All bans of all runs, with successes and times in any order, hold for their cooldown exactly when requests are serialised |
| `PlaybackScheduler.StartIsMaximum` | extension/src/audio/scheduler.ts:30-47 | The k-th start is the maximum over j ≤ k of now_j + (k−j+1)·F |
| `PlaybackScheduler.LeadAndSpacing` | extension/src/audio/scheduler.ts:4-8 | Starts lead the clock by a frame and never overlap |
| `PlaybackScheduler.StartsAreLeast` | extension/src/audio/scheduler.ts:4-8 | No schedule with that lead and spacing starts any frame earlier |
| `PlaybackScheduler.LatencyIffBunched` | extension/src/audio/scheduler.ts:32-36 | The added latency stays within (B+1)·F exactly if arrivals have bunched up by at most B frames |
| `PlaybackScheduler.ScheduledLane.constructor` | extension/src/audio/scheduler.ts:25-27 | Cursor zero, nothing live |
| `PlaybackScheduler.ScheduledLane.Enqueue` | extension/src/audio/scheduler.ts:30-48 | Starts the buffer at the specified time and keeps it live |
| `PlaybackScheduler.ScheduledLane.OnEnded` | extension/src/audio/scheduler.ts:41-45 | Removes exactly the ended source |
| `PlaybackScheduler.ScheduledLane.Close` | extension/src/audio/scheduler.ts:49-55 | Stops all live sources and forgets them |
| `MixerGraph.Clamp01IsNearest` | extension/src/audio/graph.ts:163-168 | A gain is the nearest number from 0 to 1, and silence for what is no finite number |
| `MixerGraph.SpeakerSignal` | extension/src/audio/graph.ts:4-19 | The destination plays the scaled broadcast, minus the tracks one delay ago, plus the user mix |
| `MixerGraph.SharedDelayPreservesMeaning` | extension/src/audio/graph.ts:21-25 | Summing, delaying once and inverting equals delaying and inverting every track |
| `MixerGraph.Cancellation` | extension/src/audio/graph.ts:18-19 | With broadcast = r + delayed tracks the output is b·r + (b−1)·delayed + user mix, so cancellation is exact iff b = 1 |
| `MixerGraph.SliderChangesOneLane` | extension/src/audio/graph.ts:27-28 | A user gain changes only its own lane |
| `MixerGraph.BaseLayout` | extension/src/audio/graph.ts:82-87 | The built graph has the wiring of the drawing |
| `MixerGraph.ProvisionLayout` | extension/src/audio/graph.ts:111-121 | Adding a track keeps the wiring |
| `MixerGraph.RetireLayout` | extension/src/audio/graph.ts:127-134 | Removing a track keeps the wiring of the others |
| `MixerGraph.AudioGraph.constructor` | extension/src/audio/graph.ts:63-100 | The initial graph |
| `MixerGraph.AudioGraph.AddTrack` | extension/src/audio/graph.ts:107-125 | Idempotent; a new track has its own node and gain one half |
| `MixerGraph.AudioGraph.RemoveTrack` | extension/src/audio/graph.ts:127-134 | Removes exactly that track |
| `MixerGraph.AudioGraph.SetTrackGain` | extension/src/audio/graph.ts:140-144 | Sets the clamped gain of one track, or nothing for an unknown one |
| `MixerGraph.AudioGraph.SetBroadcastGain` | extension/src/audio/graph.ts:146-148 | Sets the clamped broadcast gain only |
| `MixerGraph.AudioGraph.SetOffsetMs` | extension/src/audio/graph.ts:152-156 | Clamps to 0..30000 at both ends, non-finite to zero, and changes only the delay |
| `MixerState.OnlyConstructorIsUndefined` | extension/src/store/prefs.ts:75-88 | A setting lacks a gain exactly for a track named "constructor" that has not been given one |
| `MixerState.Precedence` | extension/src/store/prefs.ts:75-88 | The setting of a track: its own in the streamer's map, else for a preset category the global one of the category, else half gain and unmuted |
| `MixerState.NewTrackStarts` | extension/src/content/index.ts:206-217 | After a track list a new track has, in the saved settings, the slider, the mute and the audible level, what that precedence gives for the first entry with its slug |
| `MixerState.ResetStarts` | extension/src/content/index.ts:149-161 | After a reset a track has its preset's global setting or the default, whatever the streamer's map says |
| `MixerState.AgreesMeans` | extension/src/content/index.ts:83-98 | The agreement in terms of the maps: equal key sets, saved gain = gain, lanes on their entry nodes, and level = clamp01(muted ? 0 : gain) for every slug but "constructor" |
| `MixerState.ChangeOk` | extension/src/content/index.ts:112-121 | A slider changes its track's gain, saved gain and level and nothing of the others |
| `MixerState.ToggleMuteOk` | extension/src/content/index.ts:122-129 | A mute changes its track's mute, saved mute and level only |
| `MixerState.SoloOk` | extension/src/content/index.ts:130-138 | A solo mutes exactly the others and leaves the settings |
| `MixerState.ResetOk` | extension/src/content/index.ts:149-162 | A reset gives every listed track its global or built-in default |
| `MixerState.ApplyTrackListOk` | extension/src/content/index.ts:190-221 | After a track list exactly its slugs are in every map; survivors untouched, new ones on new nodes and lanes with their stored setting, lanes of the gone closed |
| `MixerState.SurvivorsUntouched` | extension/src/content/index.ts:207-207 | A track in both lists keeps gain, mute, level, node and lane |
| `MixerState.IndexTracksAre` | extension/src/content/index.ts:224-228 | An id stands for the slug of the last entry with that id |
| `MixerState.EnsureLaneOk` | extension/src/content/index.ts:171-188 | At most one lane per track, on its entry node |
| `MixerState.RouteOk` | extension/src/content/index.ts:235-241 | A frame of a listed track goes to an open lane that feeds that track's current node; others are ignored |
| `MixerState.RunOk` | extension/src/content/index.ts:104-245 | After any track lists, panel events, audio frames, saves and page loads everything agrees |
| `MixerState.SaveThenReload` | extension/src/content/index.ts:163-167 | After save and reload every track listed at the save has its gain and saved mute back; overrides of unlisted tracks are gone |
| `MixerState.PanelSurvivesReload` | extension/src/content/index.ts:112-188 | A moved slider, a toggled mute and a reset are there again after save and reload, for every listed track |
| `MixerState.AudioOpensLane` | extension/src/content/index.ts:235-242 | A frame of a listed track opens its lane, as long as there is a decoder |
| `MixerState.SoloIsNotSaved` | extension/src/content/index.ts:130-138 | A mute that came from a solo does not survive save and reload |
| `MixerState.ConstructorHasNoGain` | extension/src/store/prefs.ts:81-82 | A track named "constructor" starts silent with an undefined gain and unmutes to one half |
| `ContentScript.Script.constructor` | extension/src/content/index.ts:68-102 | A page starts with empty maps and the stored preferences |
| `ContentScript.Script.OnChange` | extension/src/content/index.ts:112-121 | The closure does the Slider step of the specification |
| `ContentScript.Script.OnMuteToggle` | extension/src/content/index.ts:122-129 | The closure does the MuteToggle step |
| `ContentScript.Script.OnSoloToggle` | extension/src/content/index.ts:130-138 | The closure does the SoloToggle step |
| `ContentScript.Script.OnReset` | extension/src/content/index.ts:149-162 | The closure does the ResetClicked step |
| `ContentScript.Script.OnSaveStreamer` | extension/src/content/index.ts:163-167 | The closure stores the current settings, all of them and nothing else |
| `ContentScript.Script.EnsureLane` | extension/src/content/index.ts:171-188 | Returns the lane of a slug, created on demand |
| `ContentScript.Script.ApplyTrackList` | extension/src/content/index.ts:190-221 | The two loops do the TrackList step on maps and graph |
| `ContentScript.Script.IndexTracks` | extension/src/content/index.ts:225-228 | Rebuilds the id map |
| `ContentScript.Script.OnTrackList` | extension/src/content/index.ts:231-234 | Index and apply: the whole TrackList step |
| `ContentScript.Script.OnAudio` | extension/src/content/index.ts:235-241 | The Audio step and the lane the frame is handed to |
| `FrameCodec.EncodesIff` | docs/AUDIO_PROTOCOL.md:30-82 | A frame is encoded exactly if it is of one of the eight types on track 0 to 8 with at most 4096 bytes of payload, and then byte for byte as documented: magic, three bytes, length, SEQ and time in network order, payload |
| `FrameCodec.ValueOfBigEndian` | shared/cpp/src/proto/header.cpp:24-59 | Reading back the base-256 digits of a number in range gives the number |
| `FrameCodec.BigEndianOfValue` | shared/cpp/src/proto/header.cpp:24-59 | Writing the value of n bytes gives the bytes |
| `FrameCodec.DecodeEncode` | shared/go/header.go:16-17 | Every frame that encodes decodes to itself |
| `FrameCodec.EncodeDecode` | shared/go/header.go:41-44 | Every byte string that decodes is the encoding of the result |
| `FrameCodec.DecodableIffEncoding` | shared/go/header.go:41-44 | The decodable byte strings are exactly the encodings |
| `RelayHub.ForwardedUpToFirstBad` | relay/internal/server.go:122-147 | Forwarded are, unchanged, exactly the messages before the first one that is not binary or does not begin with the bytes 53 4d 58 31 |
| `RelayHub.FramesAreForwarded` | relay/internal/server.go:134-142 | The relay's magic check passes every encoded frame, and its default size limit admits it |
| `FrameCodecCpp.WriteU16BE` | shared/cpp/src/proto/header.cpp:24-27 | Writes the two digits in place, rest untouched |
| `FrameCodecCpp.WriteU32BE` | shared/cpp/src/proto/header.cpp:29-34 | Writes the four digits in place, rest untouched |
| `FrameCodecCpp.WriteU64BE` | shared/cpp/src/proto/header.cpp:36-40 | The shift loop writes the eight digits in place |
| `FrameCodecCpp.ReadU16BE` | shared/cpp/src/proto/header.cpp:42-44 | The big-endian value of two bytes |
| `FrameCodecCpp.ReadU32BE` | shared/cpp/src/proto/header.cpp:46-51 | The big-endian value of four bytes |
| `FrameCodecCpp.ReadU64BE` | shared/cpp/src/proto/header.cpp:53-59 | The shift loop computes the big-endian value of eight bytes in a 64-bit register |
| `FrameCodecCpp.EncodeFrame` | shared/cpp/src/proto/header.cpp:63-86 | The bytes, or the error kind, of the specification |
| `FrameCodecCpp.DecodeFrame` | shared/cpp/src/proto/header.cpp:88-126 | The frame, or the error kind, of the specification, on every input |
| `FrameCodecGo.EncodeFrame` | shared/go/header.go:18-39 | The bytes, or the error kind, of the specification |
| `FrameCodecGo.DecodeFrame` | shared/go/header.go:45-87 | The frame, or the error kind, of the specification, on every input |
| `FrameCodecGo.EncodeFingerprint` | shared/go/messages.go:108-113 | Ten bytes: hash and window, big-endian |
| `FrameCodecGo.FingerprintFormat` | docs/AUDIO_PROTOCOL.md:139-152 | Eight bytes of hash and two of window, in network order |
| `FrameCodecGo.FingerprintRoundTrip` | shared/go/messages.go:108-123 | A payload decodes to a fingerprint exactly if it is its encoding |
| `FrameCodecTs.EncodeFrame` | shared/ts/src/header.ts:25-58 | The bytes or the error kind of this encoder, on any JavaScript numbers |
| `FrameCodecTs.DecodeFrame` | shared/ts/src/header.ts:64-109 | The same frame and the same error kind as the other two decoders, on every input |
| `FrameCodecTs.AcceptedIffTypeKnown` | shared/ts/src/header.ts:21-24 | "Never produces a frame the decoder would reject" holds exactly when the stored type is known |
| `FrameCodecTs.UnknownTypeIsEncoded` | shared/ts/src/header.ts:25-58 | A frame of type 6 is encoded, and its bytes are rejected |
| `FrameCodecTs.EncodesTsIff` | shared/ts/src/header.ts:25-43 | Encoded is exactly what has at most 4096 bytes of payload and every number in its range, fractions included, or NaN; infinities are refused |
| `FrameCodecTs.NaNPasses` | shared/ts/src/header.ts:32-43 | NaN passes every range check of the encoder and is stored as zero |
| `FrameCodecTs.StoredByte` | shared/ts/src/header.ts:49-54 | A type that is not an integer is cut off toward zero and wrapped around |
| `FrameCodecTs.RoundTripIff` | shared/ts/src/header.ts:21-24 | The frame comes back unchanged exactly when type, track, flags and seq are integers and the type is a known one |
| `FrameCodecTs.AgreesOnWireFrames` | shared/ts/src/header.ts:25-58 | On wire-width fields this encoder agrees with the others except that it lets any type through |
| `Slugs.WordsOfJoin` | shared/go/categories.go:36-36 | Splitting a dash-joined list of words gives the words back, so the regular expression is unambiguous |
| `Slugs.ScansIffMatches` | shared/cpp/src/proto/categories.cpp:12-28 | The scanner's conditions are exactly the regular expression |
| `Slugs.IsValidSlug` | shared/cpp/src/proto/categories.cpp:12-28 | Accepts exactly the language of the regular expression within 1..64 characters |
| `Slugs.SlugIsEmptyOrMatches` | shared/go/categories.go:47-72 | The slug of any text is empty, exactly if there is no letter or digit, or in the language |
| `Slugs.SlugLetterByLetter` | publisher/src/cli.cpp:49-65 | Letter by letter: capitals become small, letters and digits are kept, and anything else only separates, by a single dash between two of them |
| `Slugs.SlugFixesMatches` | shared/go/categories.go:47-72 | Every valid slug is its own slug |
| `Slugs.SlugIsIdempotent` | shared/ts/src/categories.ts:29-41 | Taking the slug twice is taking it once |
| `Slugs.SlugOfLabel` | publisher/src/cli.cpp:47-63 | The C++ loop computes lower case, maximal runs, joined with dashes |
| `Slugs.Sluggify` | shared/go/categories.go:49-72 | The Go loops compute the same on ASCII |
| `CommandLine.ParseTrackArg` | publisher/src/cli.cpp:15-70 | The track of the specification, or a rejection |
| `CommandLine.CustomTrackIff` | publisher/src/cli.cpp:29-65 | A custom argument is accepted exactly when its label has a slug of 1 to 64 characters |
| `CommandLine.PresetTrack` | publisher/src/cli.cpp:20-66 | Each of the eight presets with any non-empty process is accepted with exactly that process, its own slug and its name with a capital |
| `CommandLine.AcceptedArgs` | publisher/src/cli.cpp:20-66 | Nothing else is accepted: an accepted argument is put together again from its parts |
| `CommandLine.TrackOfOk` | publisher/src/cli.cpp:42-69 | Every accepted track has a valid slug, a known category, a label and a process |
| `CommandLine.ParseArgs` | publisher/src/cli.cpp:93-138 | The argument loop computes the specification, every error included |
| `CommandLine.AcceptedConfig` | publisher/src/cli.cpp:131-137 | An accepted command line has 1 to 8 tracks numbered 1..n in order, a bitrate in range and no empty field |
| `CommandLine.AcceptedIff` | publisher/src/cli.cpp:93-138 | A command line is accepted exactly if it consists of known flags with acceptable values, names a relay, a channel and a token, and one to eight tracks; the last value of a flag counts |
| `CommandLine.FirstComplaint` | publisher/src/cli.cpp:93-138 | A command line that is not well formed is answered by the complaint about its first bad argument, whatever comes after it |
| `TrackListJson.BitrateStored` | publisher/src/cli.cpp:110-115 | --bitrate n is stored as n from 16 to 128 and refused otherwise |
| `TrackListJson.AtoiReads` | publisher/src/cli.cpp:110-115 | Reading a number undoes writing it, with a sign or blank in front, and ignores what follows |
| `CommandLine.TracksInOrder` | publisher/src/cli.cpp:116-123 | The tracks are those of the --track values, one for one and in order |
| `TrackListJson.BuildTrackListPayload` | publisher/src/main.cpp:75-89 | The printing loop yields the text of the specification |
| `TrackListJson.PrintedText` | publisher/src/main.cpp:75-89 | The literal JSON text of two tracks |
| `TrackListJson.ParsePrint` | publisher/src/main.cpp:75-89 | Parsing what was printed gives the tracks back |
| `TrackListJson.NumberParses` | publisher/src/main.cpp:75-89 | Any id is read back as printed; one with a superfluous zero is not a number |
| `TrackListJson.Validate` | shared/go/messages.go:73-97 | Accepts exactly lists of at most 8 tracks with distinct ids 1..8, valid slugs, known categories and labels of at most 64 bytes |
| `TrackListJson.PrintedAcceptedIff` | shared/go/messages.go:68-98 | Of what can be printed, accepted are exactly the lists of at most eight tracks with different ids from 1 to 8, valid slugs, known categories and labels of at most 64 characters |
| `TrackListJson.DecodeTrackList` | shared/go/messages.go:68-99 | Size, shape, then content, with the error kind of each |
| `TrackListJson.CollectTracks` | shared/ts/src/messages.ts:71-91 | The viewer's loop, in its own order, accepts exactly the same lists and returns them |
| `TrackListJson.DecodeTrackListTs` | shared/ts/src/messages.ts:68-92 | The viewer's decoder agrees with the Go one on every text of the modelled shape |
| `TrackListJson.PrintAsBytes` | publisher/src/main.cpp:88-88 | What is printed survives the way through bytes |
| `Announcement.PrintedLength` | publisher/src/main.cpp:75-89 | The exact size of the payload, from slugs, categories and labels |
| `Announcement.ForwardedIffFits` | publisher/src/main.cpp:129-135 | A list that does not fit a frame is enqueued as an empty packet, on which the relay ends the connection after HELLO; one that fits is forwarded and decodes to what was printed |
| `Announcement.AnnouncementArrives` | publisher/src/main.cpp:120-135 | For every accepted command line whose custom labels are printable ASCII without quotes and backslashes: cut off at the relay, rejected by the viewer or shown with the same tracks in order, by an explicit condition; shown exactly when every label has at most 64 bytes |
| `Announcement.ArrivesUnchangedIff` | publisher/src/main.cpp:75-89 | For every accepted command line with ASCII labels, the viewer gets exactly the configured tracks if and only if the custom labels are printable, free of quotes and backslashes, and at most 64 bytes long |
| `Announcement.LabelSplitsIntoTwo` | publisher/src/main.cpp:84-84 | Labels are printed without escaping: for any two plain labels there is one that contains both, is accepted as one track if its slug is short enough, and reaches the viewer as two tracks |
| `Announcement.LongLabelsFail` | publisher/src/cli.cpp:29-65 | Each of the three happens: an accepted custom label of one letter and n spaces is shown up to 63, rejected up to 4032, and cuts the publisher off beyond |
| `Base64Url.DecodeEncode` | relay/internal/auth.go:36-38 | Unpadded URL base64 of any bytes decodes to them |
| `Base64Url.SextetsOf` | relay/internal/auth.go:36-38 | Three bytes are one 24-bit number written as four sextets, and at the end the missing bits are zero |
| `Base64Url.AlphabetIs` | relay/internal/auth.go:36-38 | The sextets stand for A-Z, a-z, 0-9, "-" and "_" |
| `Base64Url.DecodableIff` | relay/internal/auth.go:53-64 | Decodable is exactly what, line breaks apart, consists of those letters with none alone in the last group |
| `Handshake.MacInputInjective` | relay/internal/auth.go:83-91 | Two (channel, expiry) pairs never share a MAC input |
| `Handshake.MacInputIs` | relay/internal/auth.go:83-91 | The channel, a zero byte, and the expiry as eight bytes of two's complement in network order |
| `Handshake.MintToken` | relay/internal/auth.go:27-41 | The token of a valid channel that expires ttl from now, to the second; none for an invalid one |
| `Handshake.Sign` | relay/internal/auth.go:83-91 | The fields fed to the hash in order |
| `Handshake.VerifyToken` | relay/internal/auth.go:45-81 | Accepts exactly well-formed unexpired tokens of that channel with the right MAC |
| `Handshake.TokenLength` | relay/internal/auth.go:46-48 | A minted token has at most 151 bytes, under the limit of 512 |
| `Handshake.MintedAcceptedIff` | relay/internal/auth.go:43-45 | A minted token opens exactly the channel it was minted for, exactly until it expires |
| `Handshake.TokenLives` | relay/internal/auth.go:31-74 | A token with a lifetime of whole seconds is accepted exactly until that many seconds have passed |
| `Handshake.UrlEncode` | publisher/src/main.cpp:39-56 | The byte loop computes the percent-encoding |
| `Handshake.UnescapeEscape` | publisher/src/main.cpp:39-56 | Query unescaping undoes it, for all byte strings |
| `Handshake.EscapedIs` | publisher/src/main.cpp:39-56 | Kept are letters, digits and "-_.~:"; any other byte becomes "%" and two capital hexadecimal digits |
| `Handshake.QueryRoundTrip` | publisher/src/main.cpp:141-142 | The relay reads from the query exactly the channel and token that were written into it |
| `Handshake.PairReads` | relay/internal/server.go:76-77 | A piece of any query is a key and a value, each unescaped; one with a semicolon or a bad escape counts for nothing |
| `Handshake.FirstValueCounts` | relay/internal/server.go:76-77 | Of repeated keys the first readable one counts, and a missing key reads as empty |
| `Handshake.Authorise` | relay/internal/server.go:76-90 | The answer of the specification to any query |
| `Handshake.HandshakeRoundTrip` | relay/internal/server.go:76-90 | A publisher with any configured channel and a minted token is admitted exactly when the channels agree and the token is unexpired |
| `Handshake.AdmittedHasMac` | relay/internal/auth.go:20-21 | Whoever is admitted showed a token whose own expiry is still ahead, with the MAC of that channel and that expiry |

## Left out

- RelayHub.Channel.Broadcast: sequential, as one thread sees it; the interleavings are those of RelayProtocol. The same holds for the other methods of the classes beside a transition system.
- PublisherClient.WebSocketClient.OnEstablished: sequential; what other threads enqueue between its parts is covered by the runs of PublisherSession.
- AuthLimiter.FailureBound: runs without a success of that address (with one there is no bound, NoBoundWithSuccesses), under a clock that does not run back, a threshold of at least two and a cooldown longer than the window.
- AuthLimiter.BanHoldsIff: the same clock and policies, with successes; the one process-wide clock is taken to advance in whole milliseconds.
- Announcement.AnnouncementArrives: labels with quotes, backslashes or control characters are covered by ArrivesUnchangedIff and LabelSplitsIntoTwo; labels beyond ASCII are not modelled.
- EndToEnd.SeqIncreasesEndToEnd: is about one publisher process on one channel object, and only about audio frames; HELLO and TRACK_LIST repeat SEQ 0 and 1 on every connection. That a connection delivers a prefix of what was written, in order, is assumed of TCP and the WebSocket libraries.
- TrackListJson.DecodeTrackList: reads the one shape that the publisher prints, with printable ASCII strings free of escapes; white space, other key orders, escapes and other UTF-8 text, which the JSON library accepts, are outside the model.
- TrackListJson.DecodeTrackListTs: the same; beyond that shape the two decoders differ, for instance in additional keys and in counting a label's length.
- Slugs.Sluggify: ASCII labels only; lower-casing and stripping of combining marks beyond ASCII follow library tables that differ between the three languages.
- Handshake.MintToken: the clock is a parameter, and the expiry must fit 64 bits; the keyed hash is an arbitrary function to 32 bytes, and comparison in constant time is plain equality.
- CommandLine.ParseArgs: integers in --bitrate are unbounded, while atoi leaves overflow undefined.
- MixerGraph.SpeakerSignal: signals are functions of real time, so rounding, block processing, and the ramps and look-ahead of a browser's audio engine are not modelled; the graph is static while a signal is evaluated.
- PlaybackScheduler.StartIsMaximum: times are reals; rounding of the cursor is not modelled.
- MixerState.RunOk: whether a decoder can be created is fixed for a run, the panel shows only listed tracks and its sliders give finite numbers; the level of a track named "constructor" is left open.
- Packet, byte, drop and reconnect counters are unbounded where the code has 64-bit ones; SEQ does wrap at 2^32.
- The relay's metrics page, health check, subscribe handler's socket loop, configuration, logging and client-address parsing.
- Starting and stopping of the WebSocket client, URL splitting, the watchdog thread and the socket library.
- Audio capture, the Opus codec (an encoder is any function of the chunks so far) and the browser's decoder wrapper.
- HELLO, TRACK_META, STATS, SUB_TRACKS and ERROR payloads, which are checked one field at a time.
- The mixer panel, popup, player lookup, page detection, the OBS plugin and deployment files.
