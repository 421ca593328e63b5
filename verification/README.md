# GoBNC, verified

A Dafny model of the parts of the GoBNC bouncer that are hard to get right, with proofs of what they
promise. GoBNC is split into a *keeper*, which owns the uplink sockets and survives restarts, and a
*brain*, which holds the protocol and session logic and attaches to the keeper. Verify everything with
`dafny verify dfyconfig.toml`.

What is modelled:

- **Line delivery** (`Ring`, `Delivery`, `DeliveryInvariant`, `DeliveryRuns`, `DeliveryLog`,
  `DeliveryRecovery`, `DeliveryEvents`, `Resume`, `Blob`): the ring of numbered lines, the lossy live
  feeds, the fan-in that recovers from the ring, the acked resume watermark, and the blob store.
- **The request tracker** (`TrackerQueue`, `Tracker`, `TrackerInvariant`, `TrackerLedger`, `TrackerRuns`,
  `TrackerAsks`, `TrackerReplies`, `TrackerDrop`, `TrackerRoute`, `TrackerObject`, `ModeLetters`): who gets
  which numeric, which enquiries share an exchange, and when a held line may be written.
- **SASL ownership** (`SaslOwnership`, `SaslExclusion`, `SaslProgress`): bouncer-driven against
  client-driven AUTHENTICATE on one uplink, and that exchanges end.
- **Registration** (`Registration`, `RegistrationRuns`, `RegistrationSasl`, `RegistrationNicks`,
  `NickLadder`, `Authenticate`): CAP, SASL, the welcome burst, nick errors, re-authentication,
  AUTHENTICATE chunking.
- **The wire codec** (`Text`, `Codec`, `CodecLaws`, `CodecTable`, `Isupport`, `IsupportTable`): parse,
  encode, re-tag, tag escapes, and the RPL_ISUPPORT splitter and merger.
- **Flood pacing** (`LinePacer`, `ByteBucket`) and **CHATHISTORY paging** (`Paging`, `PagingAnswers`,
  `PagingSessions`).

How it is modelled. A protocol with several goroutines is a step machine: every mutex section of the
code is one action, and a theorem about runs quantifies over every interleaving (`Delivery`, `Resume`,
`SaslExclusion`, and the tracker's theorems). An object that one call updates in place is a class whose
methods are proved to take its value where the step or function takes it (`Ring.LineRing`,
`Blob.BlobStore`, `TrackerObject.RequestTracker`, `LinePacer.Pacer`, `ByteBucket.TokenBucket`,
`Isupport.Support`). Code that returns new values is functions.

Assumptions. At most one read loop pushes at a time (Dial does not overlap an unfinished Close). uint64
counters do not overflow. A casemapping is an arbitrary function from strings to strings. Durations are
integers of nanoseconds; byte tokens and seconds are reals. A `char` is a byte. Go's map iteration order
is arbitrary: an input of a step, or a free choice in a method. The wall clock is an input. The tables of
end and reply numerics of the tracker are inputs, so its theorems hold for any tables. A MODE queue is
keyed by the pair of target and normalised letters; the code joins them with a NUL byte, which cannot
occur in either. The tracker's `id` of a request stands for the identity of the Go pointer. Its ledger
counts the line handed to Begin: the caller adds the label tag and the WHOX token to it afterwards and
joins the WHOIS nicks still needed into one line (internal/session/downstream.go:451-491), while the model
has one line per nick. SCRAM is a function of the account and the challenges so far, although the library
draws a nonce, so equality of replayed and live runs is up to that nonce. Client ids are never reused.

Findings. Some promises hold only under a condition the code does not enforce; each is stated as an
if-and-only-if, with a run or an input on which it fails:

- A fan-in leaves a gap when a live read takes a line published after one its feed had dropped
  (`DeliveryRuns.FanInOrder`, `DeliveryRuns.LateServiceLeavesGap`). Go's `select` does not prevent that.
- An overflow is recovered from the ring unless more lines than the ring holds came after the last one
  sent (`DeliveryRecovery.OverflowKillExact`). With feed and ring both 8192 deep, as shipped, an overflow
  serviced before a further read always kills the attach, once a line has been sent and the feed holds only
  lines not yet sent (`DeliveryRecovery.DeepFeedAlwaysKills`). Each line read in order before it is serviced
  makes room for one more (`DeliveryRecovery.JammedServed`); the gap above appears from the first read past
  what the full feed held (`DeliveryRecovery.JammedGap`).
- A disconnect is forwarded after all lines published before it, unless the feed has dropped one of them
  that the last catch-up did not send (`DeliveryEvents.EventFollowsLines`): then it overtakes that line
  (`DeliveryEvents.EventOvertakesLine`).
- The watermark points into a gap when somebody subscribes or closes between an unacked eviction and the
  self-close that would reset it (`Resume.TimelyExact`, `Resume.ResumeInvExact`,
  `Resume.LateSubscriberIsKilled`, `Resume.CloseKeepsStaleWatermark`).
- Even with the watermark sound, an attach is killed when the line after its resume point is evicted between
  reading the watermark and reading the ring (`Resume.AttachKilledExact`): by a self-close
  (`Resume.SelfCloseKillsAttach`), or by an ack that moves the watermark on (`Resume.AckKillsAttach`).
- SASL exchanges can overlap exactly after an AUTHENTICATE that passes during registration, after a failure,
  while the bouncer's exchange runs or is still to start (`SaslExclusion.ExclusionExact`). That takes both a
  client that the session has closed but whose connection is still being written to, and a server that
  reports a failure before granting sasl (`SaslExclusion.ClosedClientOverlaps`); either alone is harmless
  (`SaslExclusion.NeverOverlap`, `SaslExclusion.NeverOverlapDisciplined`).
- "SASL required" does not keep the bouncer from registering unauthenticated. Once AUTHENTICATE has been sent,
  CAP END goes out exactly on a 903 or 907 before the welcome, on a CAP NAK, on a CAP ACK that does not name
  sasl, or on a last CAP LS with nothing to request (`RegistrationSasl.NoCapEndUnauthenticated`); the CAP lines
  bypass the exchange that is under way (`RegistrationSasl.NakBypassesSasl`).
- AUTHENTICATE chunking loses a last byte `+` that stands alone in its chunk
  (`Authenticate.ReceiveExact`); base64 text is never affected (`Authenticate.Base64RoundTrip`).
- RPL005 promises lines under maxLen bytes, but a token that is too long gets a line of its own over
  it, and so does a long nick with no tokens at all (`Isupport.AnnouncementUnderLimit`,
  `Isupport.LongTokenOverflows`).
- Re-applying pushes changes a key that they only append to, and no other (`Blob.ReplayExact`,
  `Blob.AppendReplayDoubles`).

## Model

| member | source | states |
|---|---|---|
| `Ring.LineRing.constructor` | internal/keeper/ring.go:55-60 | an empty ring of the given capacity, or of the default one when that is not positive |
| `Ring.LineRing.Push` | internal/keeper/ring.go:65-79 | the log grows by the line, the circular array still holds exactly the last min(pushes, cap) lines with dropped + len equal to the pushes (`Valid`), and an eviction is reported iff one happened |
| `Ring.LineRing.EvictOldest` | internal/keeper/ring.go:66-71 | forgetting the oldest slot leaves the other slots in order |
| `Ring.LineRing.Since` | internal/keeper/ring.go:86-106 | exactly the retained lines numbered above the argument, in order, or a gap report iff it is nonzero and its successor is older than everything retained |
| `Ring.LineRing.LastSeq` | internal/keeper/ring.go:109-116 | the number of the last line ever pushed, or 0 |
| `Ring.SinceExact` | internal/keeper/ring.go:81-106 | on a numbered log the gap report is exact, and without one the backlog is the contiguous tail of everything pushed |
| `DeliveryInvariant.StepInv` | internal/keeper/listener.go:716-842 | every action of read loop, fan-in, acks, closes and other sessions keeps the delivery invariant |
| `DeliveryRuns.FanInOrder` | internal/keeper/listener.go:732-842 | for every interleaving the lines of one fan-in are unaltered, strictly increasing and above the resume point, and they are gap-free iff no live read skipped a line its feed dropped |
| `DeliveryRuns.FanInContiguous` | internal/keeper/listener.go:716-842 | when overflows are serviced in time, what was sent is a slice of the uplink's log that starts right after the resume point, or, when that is 0, at the oldest line the ring retained at the catch-up that started it |
| `DeliveryRuns.DrainedIsCaughtUp` | internal/keeper/listener.go:753-842 | a live, drained feed that did not overflow has delivered everything published |
| `DeliveryRuns.KillExact` | internal/keeper/listener.go:716-730 | an attach is killed iff a catch-up finds lastSent nonzero and lastSent+1 evicted; from 0 it starts at the oldest retained line |
| `DeliveryRuns.LateServiceLeavesGap` | internal/keeper/keeper.go:387-414 | for every depth of feed, the run in which line depth is followed by line depth + 2, because the overflow was looked at late |
| `DeliveryLog.LogExact` | internal/keeper/keeper.go:627-683 | the log of a run is what the read loop took off the uplink in that order: each line with its text, its time, its number and the connection it came in on |
| `DeliveryLog.SentExact` | internal/keeper/listener.go:716-842 | every line sent to the brain is the line its number says, text, time and connection |
| `DeliveryLog.TextsSent` | internal/keeper/listener.go:753-842 | with overflows serviced in time the texts sent are a contiguous part of the texts taken |
| `DeliveryLog.WatermarkStep` | internal/keeper/keeper.go:287-301 | an ack raises the watermark to the number acked, the self-close of a current connection clears it, and nothing else touches it |
| `DeliveryRecovery.WaitKilledExact` | internal/keeper/listener.go:716-730 | the catch-up of a waiting fan-in is killed iff it has a last line and more lines than the ring holds came after it, whatever ran in between |
| `DeliveryRecovery.OverflowKillExact` | internal/keeper/listener.go:776-790 | an overflow is recovered from, whatever runs between resubscribing and reading the ring, unless more lines than the ring holds came after the last one sent |
| `DeliveryRecovery.DeepFeedAlwaysKills` | internal/keeper/keeper.go:351-357 | with a feed at least as deep as the ring and full of unsent lines, an overflow serviced before any further read always kills an attach that has sent something |
| `DeliveryRecovery.JammedServed` | internal/keeper/listener.go:776-799 | after k reads off a jammed feed, with other actions in between, nothing is lost, and servicing the overflow then kills iff more lines than the ring holds came after the k-th |
| `DeliveryRecovery.JammedGap` | internal/keeper/listener.go:791-799 | the first read past what a jammed feed held leaves a gap |
| `DeliveryEvents.EventFollowsLines` | internal/keeper/listener.go:800-839 | in every prompt run, when an event is forwarded every line published before it has been sent iff the feed has dropped none of them that was not sent by the last catch-up, so always without an overflow |
| `DeliveryEvents.EventOvertakesLine` | internal/keeper/listener.go:819-839 | for every depth of feed, the run in which a disconnect goes out before the connection's last line is recovered |
| `Resume.RecoverableIsSince` | internal/keeper/keeper.go:255-301 | the watermark can be resumed from iff Since does not report a gap |
| `Resume.TimelyExact` | internal/keeper/keeper.go:627-683 | an action keeps resumption possible iff it is timely: acked before evicted, no subscription and no close during a pending self-close |
| `Resume.ResumeInvExact` | internal/keeper/keeper.go:639-683 | resumption is possible in that sense iff Since(DeliveredSeq) succeeds once the read loop has finished the line it is at |
| `Resume.ResumeNeverGaps` | internal/keeper/keeper.go:287-301 | in every timely run Since(DeliveredSeq) succeeds whenever the read loop is between lines or down |
| `Resume.AttachKilledExact` | internal/keeper/listener.go:425-435 | an attach from the watermark is killed iff that is not 0 and the line after it is evicted by the time the ring is read, whatever runs between choosing, subscribing and catching up |
| `Resume.AttachSurvives` | internal/keeper/listener.go:753-770 | in a timely run it is not killed, whatever runs in between, as long as every line read meanwhile finds the watermark where it was and no self-close beginning |
| `Resume.SelfCloseKillsAttach` | internal/keeper/keeper.go:642-683 | the timely run in which a self-close between the choice and the subscription kills the attach |
| `Resume.AckKillsAttach` | internal/keeper/keeper.go:287-293 | the timely run in which a late ack and one more line do |
| `Resume.WatermarkOnlyGrows` | internal/keeper/keeper.go:287-293 | the watermark never decreases except for the reset to 0 by the no-subscriber close |
| `Resume.LateSubscriberIsKilled` | internal/keeper/keeper.go:642-683 | the run in which a late subscriber defeats the self-close and is killed |
| `Resume.CloseKeepsStaleWatermark` | internal/keeper/keeper.go:508-534 | the run in which a close leaves the watermark pointing into the gap |
| `Blob.BlobStore.constructor` | internal/keeper/blob.go:41-43 | an empty store that agrees with an empty log |
| `Blob.BlobStore.Push` | internal/keeper/blob.go:47-72 | the store stays exactly what its log of pushes resolves to, keys and order slice agree without duplicates, in first-push order |
| `Blob.BlobStore.RemoveFromOrder` | internal/keeper/blob.go:62-70 | cutting the deleted key out keeps the first-push order of the rest |
| `Blob.BlobStore.Snapshot` | internal/keeper/blob.go:76-87 | every present key once, in first-push order, with the value its pushes resolve to |
| `Blob.BlobStore.Clear` | internal/keeper/blob.go:92-97 | back to the empty log |
| `Blob.ReplayExact` | internal/keeper/blob.go:47-72 | re-applying any applied suffix of pushes leaves a key's value unchanged iff the suffix does not touch the key or does more than append to it |
| `Blob.ReplayIsIdempotent` | internal/keeper/blob.go:47-72 | re-applying an applied suffix of Replace and Delete pushes leaves every key's value unchanged |
| `Blob.AppendReplayDoubles` | internal/keeper/blob.go:50-54 | re-applying an Append doubles the value |
| `TrackerQueue.DropClientExact` | internal/session/tracker.go:1078-1144 | a request survives dropClient iff somebody else waits, and its destinations are then the old list minus that client, with order, labels and rewrites kept |
| `TrackerQueue.SweepClientExact` | internal/session/tracker.go:1054-1076 | one queue after dropQueueClient: the old exchanges in order, each without the client, empty ones gone |
| `TrackerQueue.SweepOwnerExact` | internal/session/tracker.go:1329-1346 | the same for the serial queues' own loop, where nothing is coalesced |
| `TrackerQueue.AgeExact` | internal/session/tracker.go:1238-1252 | a request outlives ten minutes by not one nanosecond |
| `Tracker.SelectsIsOk` | internal/session/tracker.go:541-702 | whichever branch of the router fires, it names an exchange that is pending |
| `TrackerInvariant.FlightStep` | internal/session/tracker.go:322-464 | every step keeps the in-flight invariant of all queues and the distinctness of waiters |
| `TrackerInvariant.SweepFlight` | internal/session/tracker.go:1270-1295 | dropping or expiring requests keeps a queue's in-flight discipline, releasing a new head |
| `TrackerInvariant.PopFlight` | internal/session/tracker.go:924-964 | so does answering the head |
| `TrackerRuns.LedgerStep` | internal/session/tracker.go:322-519 | every step keeps the books: written, held and discarded partition what was registered |
| `TrackerRuns.InFlight` | internal/session/tracker.go:404-463 | in every reachable state each queue's head is written; in WHOIS, STATS, NAMES and hold-write queues nothing else is; two written requests of a kind with a server argument never name different servers; waiters of a request are distinct |
| `TrackerRuns.WritesConserved` | internal/session/tracker.go:924-964 | in every reachable state a request with a line has been written exactly once with its own line, or is held, or was removed while held; the three counts add up to the registered ones |
| `TrackerRuns.SharesIffSameForm` | internal/session/tracker.go:387-419 | a WHOIS, STATS or NAMES enquiry registers and writes nothing iff its target is already asked about in the same local or remote form |
| `TrackerAsks.CoalesceJoins` | internal/session/tracker.go:1099-1121 | a client that does not wait yet is put behind those who do, with its own label and token, and with the injected querytype stripped unless it sent one |
| `TrackerAsks.ByRemoteAsks` | internal/session/tracker.go:385-397 | the first exchange of the same remote form is joined and all others stay; or a new one is entered, held iff others are ahead |
| `TrackerAsks.QueuedEnters` | internal/session/tracker.go:400-463 | STATS, TOPIC, MODE, NAMES and the rest: the request is entered under its own key as given, shared, held or written as its kind demands; every other queue is as it was |
| `TrackerAsks.QueuedWrites` | internal/session/tracker.go:400-463 | the line of a new request is written now exactly when it is not held |
| `TrackerAsks.HoldExact` | internal/session/tracker.go:470-480 | which commands wait for one of their kind, and which only for one sent elsewhere |
| `TrackerAsks.WhoisEnters` | internal/session/tracker.go:370-399 | every nick of a WHOIS, in whatever spellings and however often, is shared or entered once, with its first spelling on the line; a nick that is not in the list is left alone |
| `TrackerAsks.WhoisLines` | internal/session/tracker.go:993-1002 | the WHOIS line of each remote form |
| `TrackerAsks.WhoxEnters` | internal/session/tracker.go:348-362 | a WHOX joins one of the same mask, flags and fields if there is one, else takes the next token from 1 to 999; no other token's exchange is touched |
| `TrackerAsks.FixWhoxExact` | internal/session/tracker.go:483-495 | what SetWHOXClientFix leaves for the asker and for everybody who shares |
| `TrackerAsks.RunLabels` | internal/session/tracker.go:341-347 | in every run each label in use was made from a number that is used up |
| `TrackerAsks.BeginServes` | internal/session/tracker.go:322-464 | in every reachable state Begin serves the client that asks, on whichever branch: a fresh label, a WHOX, each nick of a WHOIS, or the queue of its key |
| `TrackerAsks.SecondAskerServed` | internal/session/tracker.go:385-397 | two clients that ask the same in the same form both get the answer |
| `TrackerReplies.NamesRouted` | internal/session/tracker.go:582-588 | 353 `me = channel` and 366 `me channel` reach exactly the askers of that channel, and end the exchange iff it is listed as ending on them: it is gone, the next is in flight, and its line goes out if it was held |
| `TrackerReplies.NamesAnswered` | internal/session/tracker.go:437-453 | a client asks for the names of a channel nobody asks about: for ten minutes each line of the reply goes to it, with its label, and to nobody else |
| `TrackerReplies.TopicRouted` | internal/session/tracker.go:575-580 | the same for 331, 332 and 333 and the channel's TOPIC enquiry |
| `TrackerReplies.ModeRouted` | internal/session/tracker.go:725-802 | 221 names the target first and the other MODE numerics second; the owner of the reply gets it: the enquiry for just that letter, else the oldest with the letter, else the oldest on the target |
| `TrackerReplies.ModeLeavesFollowUp` | internal/session/tracker.go:746-749 | a 324 that ends its enquiry leaves its askers for the 329 behind it |
| `TrackerReplies.FollowUpRouted` | internal/session/tracker.go:562-571 | which goes to them, once |
| `TrackerReplies.ModeErrorRouted` | internal/session/tracker.go:804-823 | an error that names a target reaches the askers of exactly the MODE enquiries on it that know the error, and those are over |
| `TrackerReplies.TopicErrorRouted` | internal/session/tracker.go:575-580 | with no such MODE enquiry the error goes to the TOPIC enquiry on the target |
| `TrackerReplies.NamesErrorRouted` | internal/session/tracker.go:582-588 | and with none of those to the NAMES enquiry |
| `TrackerReplies.WhoisRouted` | internal/session/tracker.go:590-601 | a WHOIS numeric `me nick` reaches exactly the askers about that nick |
| `TrackerReplies.StatsEndRouted` | internal/session/tracker.go:619-628 | a 219 `me letter` reaches the askers for that letter and always ends their exchange |
| `TrackerReplies.StatsLineRouted` | internal/session/tracker.go:629-634 | the lines in between reach the only STATS enquiry there is |
| `TrackerReplies.StatsLostRouted` | internal/session/tracker.go:603-618 | a 402 `me server` ends the STATS enquiry in flight to that server |
| `TrackerReplies.WhoxRouted` | internal/session/tracker.go:636-652 | a 354 `me token` reaches the WHOX with that token, and nobody if the token is neither pending nor "0" |
| `TrackerReplies.WhoxEndRouted` | internal/session/tracker.go:653-661 | a 315 `me mask` ends the oldest WHOX for the mask |
| `TrackerReplies.QuirkyRouted` | internal/session/tracker.go:683-692 | on ircu and snircd a 354 with token 0 reaches the only WHOX pending |
| `TrackerReplies.QuirkyEndRouted` | internal/session/tracker.go:662-692 | and a 315 with any mask ends it |
| `TrackerReplies.SerialRouted` | internal/session/tracker.go:694-700 | any other numeric reaches the only exchange in flight that lists it among its replies |
| `TrackerReplies.NobodyRouted` | internal/session/tracker.go:694-702 | and nobody if none does |
| `TrackerReplies.LabelRouted` | internal/session/tracker.go:543-559 | a line with a pending label goes to its askers whatever it is, and ends their exchange iff it is listed as ending it |
| `TrackerDrop.ExpireQueueExact` | internal/session/tracker.go:1244-1295 | an expiry sweep leaves exactly the requests of the last ten minutes, in order, the first one in flight |
| `TrackerDrop.ExpireMapsExact` | internal/session/tracker.go:1244-1268 | and of the labelled and WHOX requests and the follow-ups exactly those |
| `TrackerDrop.DropExact` | internal/session/tracker.go:1298-1347 | in every reachable state DropClient removes exactly that client from every exchange of every queue and map, and exchanges nobody else waits for |
| `TrackerDrop.PruneKeepsOthers` | internal/session/tracker.go:1298-1347 | nobody else's wait is lost |
| `TrackerDrop.GoneUntilItAsks` | internal/session/tracker.go:541-823 | after DropClient, whatever happens next, no message is routed to the client until it begins a request again |
| `TrackerObject.RequestTracker.constructor` | internal/session/tracker.go:98-111 | a tracker starts in the empty state the theorems start from |
| `TrackerObject.RequestTracker.Begin` | internal/session/tracker.go:322-464 | Begin on the object takes its value where the Begin step does, for some map order and some WHOX match, and returns exactly the lines to be written now and the label or token under which the new request is filed; and the client that asks is served |
| `TrackerObject.RequestTracker.Route` | internal/session/tracker.go:524-702 | RouteAll on the object sweeps, picks an exchange the router's branches allow, returns exactly its waiters, and takes the value where the Route step does |
| `TrackerObject.RequestTracker.Recipients` | internal/session/tracker.go:1078-1097 | one destination per waiter of the exchange found |
| `TrackerRoute.Choose` | internal/session/tracker.go:541-702 | every numeric in every state finds a branch, the first that applies, and with it an exchange |
| `TrackerRoute.ChooseMode` | internal/session/tracker.go:725-756 | a MODE numeric goes to the exchange found for its target and letter, or the later branches look |
| `TrackerRoute.FindMode` | internal/session/tracker.go:758-802 | the exact queue, else the oldest holding the letter, else the oldest of the target; none iff the target has none |
| `TrackerRoute.ErrorModes` | internal/session/tracker.go:806-819 | exactly the MODE exchanges of the target that accept the error, each once |
| `TrackerRoute.FindOnlyStats` | internal/session/tracker.go:892-903 | the STATS exchange iff it is the only one |
| `TrackerRoute.FindStatsVia` | internal/session/tracker.go:608-618 | a STATS exchange sent to that server iff there is one |
| `TrackerRoute.OldestWhoxToken` | internal/session/tracker.go:871-890 | the oldest WHOX that asked for the mask, none iff nobody did |
| `TrackerRoute.FindSerial` | internal/session/tracker.go:910-922 | the first kind, in the fixed order, whose head knows the numeric |
| `TrackerObject.RequestTracker.Drop` | internal/session/tracker.go:1298-1347 | DropClient on the object is the Drop step |
| `TrackerObject.RequestTracker.SweepWith` | internal/session/tracker.go:1239-1295 | the sweep of all maps and queues, visited in any order, is the sweep of the step machine |
| `TrackerObject.RequestTracker.PopQueue` | internal/session/tracker.go:924-964 | the head is gone, the next request is released, and its line is ready if it was held |
| `TrackerObject.RequestTracker.AskByRemote` | internal/session/tracker.go:387-397 | shares the first request of the same remote form, else holds, else writes |
| `TrackerObject.RequestTracker.AskWhox` | internal/session/tracker.go:348-362 | shares a WHOX with the same mask, flags and fields, else takes the next token |
| `TrackerObject.RequestTracker.FindWhox` | internal/session/tracker.go:1146-1155 | a match iff there is one |
| `TrackerObject.Share` | internal/session/tracker.go:1099-1110 | coalesce adds a waiter behind the others, with its own label and token, unless that client already waits |
| `TrackerObject.Leave` | internal/session/tracker.go:1123-1144 | dropClient, with promotion of the first waiter |
| `TrackerObject.SweepList` | internal/session/tracker.go:1056-1066 | the surviving requests in order, and whether the head was lost |
| `TrackerObject.SweepMap` | internal/session/tracker.go:1270-1295 | every queue swept once, in any order, with the lines freed in that order |
| `TrackerObject.FindRemote` | internal/session/tracker.go:966-973 | the first request of that remote form |
| `TrackerObject.OtherRemote` | internal/session/tracker.go:975-982 | whether some request names another server |
| `ModeLetters.Normalize` | internal/session/tracker.go:1189-1211 | the canonical form of the letters named |
| `ModeLetters.CanonicalMembers` | internal/session/tracker.go:1198-1210 | the canonical form has exactly those letters |
| `ModeLetters.SameKeyExact` | internal/session/tracker.go:1189-1211 | two MODE enquiries get the same key iff they name the same letters, whatever signs, order and repetition |
| `SaslExclusion.IntrusionExact` | internal/session/sasl.go:398-416 | of all actions of server, clients and handlers, the arbitration invariant is broken only by an intruding AUTHENTICATE: one that passes during registration, after a failure, while the bouncer's exchange runs or is to start |
| `SaslExclusion.ExclusionExact` | internal/session/sasl.go:30-66 | a run from a fresh session without an intrusion never overlaps, and after it an action can be followed by an overlap, without a further intrusion, iff it intrudes |
| `SaslExclusion.IntrusionOverlaps` | internal/session/upstream.go:293-345 | after an intrusion the server brings about the overlap by granting sasl, if it has not yet |
| `SaslExclusion.NeverOverlap` | internal/session/sasl.go:30-66 | for every server and every interleaving no state has both a bouncer exchange and a client exchange, as long as only clients still attached get an AUTHENTICATE through; and theirs is refused while the bouncer's runs |
| `SaslExclusion.NeverOverlapDisciplined` | internal/session/upstream.go:105-122 | with a server that fails SASL before registration only after granting it, not even a client that runs on after being closed overlaps |
| `SaslExclusion.ClosedClientOverlaps` | internal/session/upstream.go:560-627 | the run from a fresh session in which both happen and the exchanges overlap |
| `SaslExclusion.CapsStep` | internal/session/sasl.go:154-217 | before registration nobody attached has sasl or is getting it: it is offered by a registered session only, and a disconnect closes its clients |
| `SaslExclusion.RouteKeeps` | internal/session/sasl.go:226-285 | outcomes after registration keep the arbitration |
| `SaslExclusion.NewKeeps` | internal/session/upstream.go:376-412 | so does CAP NEW, which starts the bouncer's exchange only when no other is in flight |
| `SaslExclusion.ContinueKeeps` | internal/session/upstream.go:324-364 | so do the later sections of a line's handler, with client commands in between |
| `SaslProgress.ClientStepExact` | internal/session/sasl.go:398-417 | a client becomes the one mid-exchange only by an AUTHENTICATE the bouncer has no claim against and nobody else is at, and stops being it only by a delivered outcome, by leaving or by a disconnect |
| `SaslProgress.HolderExact` | internal/session/sasl.go:398-417 | after any run a client is mid-exchange iff its AUTHENTICATE was admitted and nothing has ended its exchange since |
| `SaslProgress.OutcomeHandled` | internal/session/sasl.go:262-280 | an outcome 903 to 907 for an attached client ends its exchange and changes nothing else; for a closed one it does not |
| `SaslProgress.OutcomeFrees` | internal/session/sasl.go:262-280 | from every state a run without an intrusion leads to: once it is handled nobody is mid-exchange, and the next client is admitted iff the bouncer has no claim on sasl |
| `SaslProgress.OutcomeFreesInterleaved` | internal/session/sasl.go:262-280 | whatever clients do in between, the client the outcome was delivered to is not mid-exchange afterwards |
| `SaslProgress.DeliveredExact` | internal/session/sasl.go:226-277 | which outcomes are delivered, and to whom |
| `SaslProgress.PendingExact` | internal/session/upstream.go:293-412 | the bouncer's exchange begins with the grant during registration or with a CAP NEW that finds the way free, and ends with its outcome, the end of registration, CAP DEL or the uplink gone |
| `SaslProgress.FailedExact` | internal/session/sasl.go:51-66 | when sasl is handed to clients and when it is taken back |
| `SaslProgress.OfferExact` | internal/session/sasl.go:102-111 | clients are offered sasl, as last computed, iff the uplink has it and the bouncer has no claim |
| `SaslProgress.AccountExact` | internal/session/sasl.go:307-348 | who is logged in changes with a 900 that names an account or none, a 901, or the uplink gone |
| `SaslProgress.UplinkCapsExact` | internal/session/upstream.go:293-412 | what the uplink has granted and has on offer |
| `SaslProgress.GrantHandled` | internal/session/sasl.go:198-217 | a grant after registration gives sasl to exactly the clients that wait for it and are still attached, and leaves nobody waiting |
| `SaslProgress.CapsExact` | internal/session/sasl.go:154-187 | when a client has sasl |
| `SaslProgress.WaitersExact` | internal/session/sasl.go:154-208 | when a client waits for it |
| `RegistrationRuns.ReactGood` | internal/registration/registration.go:253-376 | one step emits at most one verdict, last, exactly when it ends the run; a finished run is left alone |
| `RegistrationRuns.RunEndsOnce` | internal/registration/registration.go:249-318 | over any lines at most one Registered or Failed is emitted: exactly when the phase becomes terminal, as the last action, matching it; Complete implies the welcome; an error is recorded iff failed |
| `RegistrationRuns.PostRunSends` | internal/registration/sasl.go:263-338 | from a registered state any StepPost run keeps phase, nick and error and emits only sends |
| `RegistrationRuns.ConnectionEndsOnce` | internal/registration/sasl.go:274-278 | a whole connection, registration then re-authentication, has at most one verdict and none after it |
| `RegistrationRuns.ReplayRun` | internal/registration/registration.go:236-247 | a replayed transcript gives the state and the actions of the live run up to the Replay flag |
| `RegistrationRuns.ReplayRunPost` | internal/registration/sasl.go:283-338 | the same after registration |
| `RegistrationRuns.AbortKeeps` | internal/registration/sasl.go:221-237 | an abort fails the run only before the welcome and only when SASL is required |
| `RegistrationRuns.OutcomeGood` | internal/registration/sasl.go:50-71 | a SASL outcome ends the run only as a failure that is required not to happen |
| `RegistrationSasl.OutcomeLine` | internal/registration/sasl.go:50-71 | before the welcome a 904, 905 or 906 fails a run that requires SASL, with that command, and a 903 or 907 never does; every other outcome ends CAP negotiation, and after the welcome none says anything |
| `RegistrationSasl.StepExact` | internal/registration/registration.go:253-376 | exactly which lines send CAP END, and exactly which fail the run |
| `RegistrationSasl.CapEndRun` | internal/registration/registration.go:249-376 | CAP END goes out in a run iff one of its lines ends CAP negotiation in the state it is read in |
| `RegistrationSasl.NoCapEndUnauthenticated` | internal/registration/registration.go:324-376 | with SASL required and AUTHENTICATE sent, CAP END goes out iff a success has been read since, before the welcome, or one of the CAP lines that bypass SASL |
| `RegistrationSasl.OnlySuccessLetsGo` | internal/registration/sasl.go:64-71 | so never without a 903 or 907 as long as the server sends none of these |
| `RegistrationSasl.NakBypassesSasl` | internal/registration/registration.go:369-371 | the run in which a NAK lets the bouncer register unauthenticated |
| `RegistrationSasl.PickMechExact` | internal/registration/sasl.go:98-137 | SCRAM-SHA-256 if offered, else PLAIN, given a password; EXTERNAL without one, given a certificate; PLAIN and EXTERNAL also where nothing is listed; otherwise none |
| `RegistrationSasl.BeginExact` | internal/registration/sasl.go:75-92 | AUTHENTICATE is sent, with the mechanism picked, exactly when sasl is acknowledged and wanted |
| `RegistrationSasl.BeginPostExact` | internal/registration/sasl.go:306-330 | the same after registration, unless an exchange is under way |
| `RegistrationSasl.PlainSent` | internal/registration/sasl.go:156-166 | the chunks of the PLAIN payload, which a receiver puts together again |
| `RegistrationSasl.PlainPayload` | internal/registration/sasl.go:163-166 | cut at its NULs the payload is nothing, the user and the password iff neither holds a NUL |
| `RegistrationSasl.ExternalSent` | internal/registration/sasl.go:168-175 | the user, or "+" without one |
| `RegistrationSasl.ScramSent` | internal/registration/sasl.go:185-219 | SCRAM answers each challenge out of one conversation, and "+" where it has nothing more to say |
| `RegistrationSasl.CalledOff` | internal/registration/sasl.go:141-152 | an exchange that cannot go on is called off, one the server calls off is forgotten |
| `RegistrationSasl.RequestedExact` | internal/registration/registration.go:340-348 | the wanted capabilities that are offered, in order, sasl only where configured |
| `RegistrationSasl.AckSaslExact` | internal/registration/registration.go:354-362 | an ACK is one of sasl iff a token reads sasl, with or without a minus and a value |
| `RegistrationSasl.WelcomeExact` | internal/registration/registration.go:271-308 | the run is complete on 376 or 422 iff a 001 has been read, which also sets the nick |
| `RegistrationSasl.NickExact` | internal/registration/nick.go:22-58 | a refused nick is answered with the next one, or ends the run with the refusal |
| `RegistrationNicks.RunClimbs` | internal/registration/nick.go:22-58 | the nicks a run asks for are a climb of the ladder driven by the nicks refused |
| `RegistrationNicks.UnansweredFails` | internal/registration/nick.go:31-40 | a run in which more nicks are refused than the ladder answers has failed |
| `RegistrationNicks.RetriesBounded` | internal/registration/nick.go:22-120 | while ISUPPORT stays as it is, at most 21 further nicks are asked for, never one twice and never the primary again, and once more than 21 nicks are refused, or one without recovery, the registration has failed |
| `NickLadder.BuildNickLadder` | internal/registration/nick.go:63-100 | the ladder of primary, alternative and underscored nicks |
| `NickLadder.LadderOf` | internal/registration/nick.go:69-98 | rungs are non-empty, fit, differ after lower-casing, and every offered nick is on the ladder up to case |
| `NickLadder.WantedExact` | internal/registration/nick.go:84-98 | the offers: nick, alternative, then the nick with one to twenty underscores, cut to make room for them |
| `NickLadder.LadderKeeps` | internal/registration/nick.go:69-83 | offers that all differ are all taken, in order |
| `NickLadder.LadderSkips` | internal/registration/nick.go:69-83 | a blank offer, or one that equals an earlier one but for case, is passed over |
| `NickLadder.NextExact` | internal/registration/nick.go:103-120 | what is tried next |
| `NickLadder.NextNickInLadder` | internal/registration/nick.go:103-120 | the rung behind the last one equal to either nick, the second rung if there is none, or nothing |
| `NickLadder.ClimbRises` | internal/registration/nick.go:103-120 | each error moves to a strictly later rung, whatever nick the server names |
| `NickLadder.ClimbStops` | internal/registration/nick.go:103-120 | a climb shorter than the run of errors ends where the next error finds no rung |
| `NickLadder.LadderTerminates` | internal/registration/nick.go:42-120 | at most 21 nicks are sent, all different, none the primary, each fitting, and the first error without an answer is one the ladder has no nick for |
| `Authenticate.SendAuthenticate` | internal/registration/sasl.go:244-261 | the loop sends the chunks of the payload |
| `Authenticate.ChunksExact` | internal/registration/sasl.go:239-261 | the lines in closed form: every full 400-byte piece, then the rest, or "+" iff there is none; no line over 400 bytes |
| `Authenticate.ReceiveChunks` | internal/registration/sasl.go:239-261 | a receiver that concatenates until "+" or a short line consumes exactly these lines |
| `Authenticate.ReceiveExact` | internal/registration/sasl.go:244-261 | and recovers the payload iff it does not end in a "+" alone in its piece |
| `Authenticate.Base64RoundTrip` | internal/registration/sasl.go:166-218 | so a payload whose length is a multiple of 4 always survives |
| `Text.SortStrings` | internal/irc/message.go:257-263 | the in-place insertion sort sorts |
| `Text.SortForgetsOrder` | internal/irc/message.go:235-242 | whatever order a map's keys are listed in, sorting gives the same list |
| `Text.ListAndSort` | internal/irc/message.go:238-242 | range over a map in any order, then sort: one result |
| `Codec.EscapeTagValue` | internal/irc/message.go:153-173 | the escaped value |
| `Codec.UnescapeTagValue` | internal/irc/message.go:118-150 | the unescaped value or a trailing-escape error, with the shortcut for plain values |
| `Codec.EscapeRoundTrip` | internal/irc/message.go:117-173 | every value survives escaping, and its escaped form holds no semicolon, space or line break |
| `CodecTable.EscapesRead` | internal/irc/message.go:131-143 | `\:` `\s` `\\` `\r` `\n` are read as semicolon, space, backslash, CR and LF, whatever follows |
| `CodecTable.OthersRead` | internal/irc/message.go:121-148 | any other character stands for itself, escaped or not, and a lone backslash at the end is an error |
| `CodecTable.EscapesWritten` | internal/irc/message.go:157-170 | the same five pairs are written, and everything else is left alone |
| `CodecTable.EscapeConcat` | internal/irc/message.go:153-173 | character by character |
| `CodecTable.TaggedLine` | internal/irc/message.go:90-115 | `@key=value rest` is read with the value unescaped, or refused for it |
| `CodecTable.TwoTags` | internal/irc/message.go:90-115 | tags are separated by semicolons, one without a value is empty, and a later one wins |
| `CodecTable.SpaceAndSemicolon` | internal/irc/message.go:117-173 | spaces and semicolons in a value, on the wire and back |
| `CodecTable.LineRead` | internal/irc/message.go:50-87 | `:source command middle :last` is read into its parts, whatever the last one holds |
| `CodecTable.LineWritten` | internal/irc/message.go:179-200 | and is what Encode writes |
| `CodecTable.LinesRefused` | internal/irc/message.go:23-115 | which error a malformed line is refused with |
| `Codec.ParseTags` | internal/irc/message.go:90-115 | the tag section, later keys winning, or its first error |
| `Codec.ParseLine` | internal/irc/message.go:23-88 | the parser's loops compute the parse the laws are about |
| `Codec.ParseParams` | internal/irc/message.go:74-86 | the parameter loop |
| `Codec.FormatTagPrefix` | internal/irc/message.go:235-255 | the tag text is a function of the map, whatever order it is ranged over |
| `Codec.EncodeMessage` | internal/irc/message.go:179-200 | the encoder computes the text the laws are about |
| `CodecLaws.RoundTripExact` | internal/irc/message.go:175-200 | Parse(Encode(m)) gives back tags, source, command and params iff m is well-formed, with any tag values and any last parameter |
| `CodecLaws.ParsedFields` | internal/irc/message.go:22-115 | whatever Parse accepts has well-formed tag keys, source, command and middle parameters, and keeps the raw line |
| `CodecLaws.TagsRoundTrip` | internal/irc/message.go:31-44 | the tag prefix is read back exactly |
| `CodecLaws.BodyRoundTrip` | internal/irc/message.go:50-87 | so are source, command and parameters |
| `CodecLaws.WireExact` | internal/irc/message.go:202-233 | re-tagging a parsed line changes only the tags iff its body does not start with '@' (no new tags) or with a space (new tags) |
| `Isupport.Support.Parse005` | internal/irc/isupport.go:27-58 | the token map is merged with the tokens between nick and closing text, later ones winning |
| `Isupport.Tokens` | internal/irc/isupport.go:80-99 | the sorted tokens |
| `Isupport.RPL005` | internal/irc/isupport.go:121-156 | the lines hold all tokens in order and once; each has a token; a line of two or more fits; no line is split without need |
| `Isupport.EncodedLength` | internal/irc/isupport.go:130-152 | a line takes one byte less than counted, so one with two or more tokens encodes to fewer than maxLen bytes |
| `Isupport.UnderLimitExact` | internal/irc/isupport.go:130-156 | for a map with tokens, all lines encode to fewer than maxLen bytes iff every token fits on a line by itself |
| `Isupport.AnnouncementUnderLimit` | internal/irc/isupport.go:119-156 | for any map: the same, and for an empty one iff the nick leaves room for the closing text |
| `Isupport.LongTokenOverflows` | internal/irc/isupport.go:146-153 | a token too long for a line makes a line over the limit |
| `Isupport.RebuildExact` | internal/irc/isupport.go:27-66 | a receiver fed the lines holds the announced map iff no key contains '=' |
| `Isupport.OverTheWire` | internal/irc/isupport.go:119-156 | the same after encoding and parsing every line, for tokens the wire can carry |
| `IsupportTable.TokensExact` | internal/irc/isupport.go:80-99 | the tokens are the keys in ascending order, each once, as KEY or KEY=value |
| `IsupportTable.TokenRead` | internal/irc/isupport.go:27-66 | a token sets its key to what follows the first equals sign, or to nothing |
| `IsupportTable.TokenParamsExact` | internal/irc/isupport.go:34-40 | neither the nick nor the closing text is a token |
| `IsupportTable.LineText` | internal/irc/isupport.go:121-143 | the text of an announced line |
| `LinePacer.Pacer.constructor` | internal/flood/line.go:41-49 | pacing starts off, on ircu's cost model |
| `LinePacer.Pacer.Configure` | internal/flood/line.go:52-59 | switching off forgets the clock |
| `LinePacer.Pacer.TryTake` | internal/flood/line.go:79-104 | one pass of Take decides and charges as the window bound assumes |
| `LinePacer.Pacer.Take` | internal/flood/line.go:79-106 | a sole caller sleeps at most once |
| `LinePacer.WaitIsExact` | internal/flood/line.go:90-103 | after the wait asked for the line is admitted, and not before |
| `LinePacer.WindowBound` | internal/flood/line.go:69-106 | for any interleaving of callers, lines i..j cost at most the time elapsed plus max(allowance, cost of j) |
| `LinePacer.IrcuNeverFlooded` | internal/flood/line.go:14-49 | on ircu's model lines up to 512 bytes never run more than 8 seconds ahead |
| `LinePacer.IrcuCost` | internal/flood/line.go:69-75 | a line costs two seconds and one more for each full 120 bytes |
| `LinePacer.AdmitExact` | internal/flood/line.go:79-104 | a line is admitted iff the clock is not ahead or stays within the allowance |
| `LinePacer.IrcuRate` | internal/flood/line.go:14-49 | in lines and bytes: at most a line for every two seconds, and 120 bytes for every second, of the time elapsed and eight seconds more |
| `LinePacer.IrcuBurst` | internal/flood/line.go:41-106 | and that much goes out: four short lines at once, the fifth after two seconds |
| `ByteBucket.TokenBucket.constructor` | internal/flood/bucket.go:21-37 | a full bucket; a rate without a burst gets a burst of 1 |
| `ByteBucket.TokenBucket.Configure` | internal/flood/bucket.go:40-58 | refill, then cap the level at the new burst |
| `ByteBucket.TokenBucket.RefillLocked` | internal/flood/bucket.go:122-135 | the refill of the elapsed time, capped |
| `ByteBucket.TokenBucket.TryTake` | internal/flood/bucket.go:76-118 | one pass of Take admits, charges and asks for the time the missing tokens take, in whole nanoseconds and at least a millisecond |
| `ByteBucket.TwoWaitsSuffice` | internal/flood/bucket.go:80-119 | a sole caller that sleeps as asked is admitted after its second sleep at the latest, since truncation leaves it short of less than a nanosecond's tokens |
| `ByteBucket.LevelKept` | internal/flood/bucket.go:40-135 | the level stays between empty and full through every operation |
| `ByteBucket.WindowBound` | internal/flood/bucket.go:76-135 | over any stretch of attempts the admitted bytes, oversized lines counted as a burst, are at most one burst plus the refill of the time elapsed |
| `ByteBucket.AdmitExact` | internal/flood/bucket.go:76-118 | a line is admitted iff there is a token for each byte or the bucket is full, and takes one token for each byte, or all there are |
| `ByteBucket.ConfigureExact` | internal/flood/bucket.go:40-58 | what was due comes in at the old rate, and no more stays than the old and the new bucket hold |
| `ByteBucket.BytesBound` | internal/flood/bucket.go:76-135 | in bytes, for lines of no more than a burst: a burst and the rate times the time elapsed |
| `Paging.HandleChathistory` | internal/history/history.go:115-330 | limit clamp, lookahead and cut give the page nearest the selector and the end flag iff nothing of the selection is left out |
| `Paging.FillQuery` | internal/history/history.go:166-292 | the query of each subcommand, with the two bounds of BETWEEN put in order |
| `Paging.CutPage` | internal/history/history.go:319-329 | the extra row is cut off at the right end |
| `Paging.Lookahead` | internal/history/history.go:303-348 | asking for one row more and cutting is taking the page |
| `Paging.ListingRows` | internal/store/store.go:690-722 | a query lists exactly the rows that pass, ascending by time and id |
| `Paging.ListingCut` | internal/store/store.go:718-722 | a row's bound cuts the listing right before and right after it |
| `PagingAnswers.PageExact` | internal/store/store.go:690-765 | a page holds selected rows, oldest first, at most the limit, the nearest ones, and the end flag iff those are all |
| `PagingAnswers.ResolveExact` | internal/store/store.go:665-688 | a selector stands for the earliest row of its msgid, and for nothing if there is none |
| `PagingAnswers.LatestExact` | internal/history/history.go:167-184 | LATEST: the newest rows, or the newest since a message |
| `PagingAnswers.BesideExact` | internal/history/history.go:185-216 | BEFORE and AFTER: the rows next to a message on either side |
| `PagingAnswers.BetweenExact` | internal/history/history.go:232-292 | BETWEEN: the rows strictly between two messages, nearest the one named first, oldest first whichever is older |
| `PagingAnswers.SelectorsExact` | internal/history/history.go:127-139 | an empty selector is refused, and one that names no row yields an empty batch that is the end |
| `PagingAnswers.ClampExact` | internal/history/history.go:303-308 | the limit is clamped to between one and the most allowed |
| `PagingSessions.ResolveUnique` | internal/store/store.go:665-688 | a unique msgid resolves to its own row |
| `PagingSessions.BackSessionExact` | internal/store/store.go:861-895 | reading backwards, the client holds exactly the newest rows of the selection, each once; all pages but the last are full; end is flagged iff nothing is left |
| `PagingSessions.ForwardSessionExact` | internal/store/store.go:912-926 | the same forwards with AFTER |
| `PagingSessions.PagingEnds` | internal/history/history.go:303-330 | LATEST * then BEFORE the oldest row ends within the rows divided by the clamped limit, and one page |
| `PagingSessions.EndFlagExact` | internal/history/history.go:319-348 | no page exceeds the clamped limit, and the end flag is set iff everything was received |
| `PagingSessions.PagingComplete` | internal/history/history.go:303-348 | by then every row passing the filter was received, in order and exactly once |

## Left out

- `Tracker.Selects` is a relation, because Go's map order decides between equally old exchanges; `TrackerRoute.Choose` is the loop that satisfies it.
- The event channel of a fan-in drops events it has no room for; `DeliveryEvents` keeps them all, and its events are disconnects only.
- Killing or detaching a fan-in unsubscribes its feed in the same action, while the source's deferred unsubscribe is a later section; and once the attach's context is done trySend may drop a line and queue a later one, which is not modelled.
- Delivery and resume are a step machine over values, not classes: what each mutex section does in place, and channel buffers as shared objects, is not modelled. The same holds for the SASL fields of a session.
- `Tracker.SelectsIsOk`: does not state that a reply reaches the client that caused it, because the queues do not guarantee that once an in-flight request was dropped or expired; who gets a line in any state is stated in `TrackerReplies`.
- `TrackerObject.RequestTracker.AskWhox`: WHOX tokens repeat beyond 999 outstanding ones, as the counter wraps.
- `RegistrationNicks.RetriesBounded`: is about runs in which no ISUPPORT line before the welcome changes the token map, since a new NICKLEN or casemapping rebuilds the ladder.
- `Registration.StepAuthenticate`: a mechanism is one of the three pickSASLMech can return, so the "unexpected mechanism" branch of stepAuthenticate has no counterpart; base64, SCRAM, case conversion and field splitting are arbitrary functions, and the list of desired capabilities is an input.
- `Isupport.Support.Parse005`: only the token map is modelled, not the casemapping, mode set, WHOX and UTF8ONLY fields derived from it.
- `Paging.HandleChathistory`: selectors are msgids; AROUND, timestamp selectors, TARGETS and the capability test are not modelled, nor are concurrent inserts. QueryMessages without any bound orders by time alone; no subcommand reaches it.
- `LinePacer.Pacer.Take`: cancellation by context is not modelled, in either pacer.
- `ByteBucket.WindowBound`: floating-point rounding is not modelled.
- Single-live-attach exclusion: the flag is cleared twice, so the invariant does not hold of the code.
- An empty blob whenever disconnected: a late push can land after Clear; only the store is modelled.
- Sockets, TLS, peer credentials, JSON, SQLite, timers, reconnects, keepalives, the brain's lossy channels, configuration, admin commands, casemapping internals, CTCP and version comparison: input and output or easy members.
