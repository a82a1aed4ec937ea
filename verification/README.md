# A verified model of Transmission's stateful kernels

This project models the parts of Transmission whose correctness depends on long
runs rather than on single calls, and proves what they keep.

- **Bandwidth** (`RateMeter`, `Budget`, `Forests`, `BandwidthTree`, `Scheduler`,
  `Allocation`): the tree of limiters, its byte budgets, the speed meter's ring
  buffer, and the round-robin phase.
- **UDP tracker client** (`Verdict`, `UdpWire`, `UdpMachine`, `UdpSafety`, `UdpRuns`,
  `UdpTheorems`, `UdpTimeouts`, `UdpUpkeep`, `UdpReplies`, `UdpDatagrams`,
  `UdpTracker`, `UdpAnnouncer`): the protocol of BEP 15 as a state machine whose
  history is a log; an invariant over every run; what each upkeep and each datagram
  does, exactly; and the tracker and announcer objects, proved to take the machine's
  steps and to keep the invariant.
- **Announce list** (`AnnounceUrls`, `AnnounceList`, `AnnounceText`): the sorted,
  deduplicated, tiered list, and its text form.
- **File tree** (`FileTree`): the explicit-stack refresh of the file view.
- **Calendar and timestamps** (`Calendar`, `Timestamp`, `Text`).
- **List-model adapter** (`ListModelAdapter`), **RPC chain** (`RpcQueue`), **tracker
  filter merge** (`SiteMerge`) and **trying order** (`TryingOrder`).

Code that works by changing things is a class or a method with loops, proved
against functions on values; the lemmas about those functions carry the results.
`dafny verify dfyconfig.toml` checks everything.

## What the code does that its callers may not expect

- The timestamp parser accepts numeric fields with trailing characters, such as a
  month `1x`, because the number parser stops at the first character that is not a
  digit. `Timestamp.LenientWitness` shows it; `Timestamp.AcceptedIsTimestampIffDigits`
  gives the exact condition.
- A connect stays recorded when its tracker's queue runs empty before a reply. The
  next upkeep with requests pending, however much later, finds it overdue and fails
  them all, on both protocols. `UdpTimeouts.StaleConnectFailsFresh` is a run,
  `UdpTimeouts.UpkeepOutcome` the exact condition, on the state before the upkeep.
- Before the millisecond clock reaches 2000 the speed meter reads 0, since the cutoff
  wraps around (`RateMeter.ReadingIsSandwiched`).
- The action field of a UDP reply is narrowed to 8 bits before it is compared, so
  action 256 passes for a connect reply (`UdpWire.UndefinedActionUnderstood`). It
  matters exactly when one of the message's first three bytes is not 0
  (`UdpWire.NarrowingMattersIff`, `UdpWire.UnderstoodIsDefinedIff`).
- A folder with nothing wanted below it shows a progress of 1
  (`FileTree.FolderMeaning`).

## Model

| member | source | states |
|---|---|---|
| `RateMeter.EvictedIsOld` | libtransmission/bandwidth.h:79-81 | eight bucket advances span at least 8 * 251 ms, so a bucket the ring overwrites is older than the 2000 ms window |
| `RateMeter.BucketsSandwich` | libtransmission/bandwidth.cc:60-75 | for every chronological transfer sequence and every cutoff, the bytes of buckets dated after the cutoff lie between the true bytes since one granule after the cutoff and the true bytes since the cutoff |
| `RateMeter.RingAdvances` | libtransmission/bandwidth.cc:65-70 | advancing the newest slot keeps the ring equal to the newest eight buckets of the unbounded log |
| `RateMeter.ReadingIsSandwiched` | libtransmission/bandwidth.cc:36-57 | at a time not before the newest bucket, the reading is 1000 times the log's bytes dated after now - 2000 over 2000, rounded down; it counts every byte of the last 1750 ms and none older than 2000 ms; before the clock reaches 2000 ms the unsigned cutoff wraps and the reading is 0 |
| `RateMeter.RateControl.Notify` | libtransmission/bandwidth.cc:60-75 | records a transfer: it joins the newest bucket if that is dated at most 250 ms earlier and opens a new one otherwise; the ring mirrors this log and the cache is dropped |
| `RateMeter.RateControl.GetSpeed` | libtransmission/bandwidth.cc:30-58 | at any time not before the newest bucket, the speed in bytes per second, rounded down, of the log's bytes of the last 2000 ms, whether or not it came from the cache; between the bytes of the last 1750 and of the last 2000 ms |
| `RateMeter.RateControl.Walk` | libtransmission/bandwidth.cc:40-51 | the backward walk over the ring sums exactly the log's buckets dated after the cutoff |
| `Budget.ClampIsMinimum` | libtransmission/bandwidth.cc:255-268 | clamp is the minimum of the request and the budgets of the limited nodes up to and including the first that ignores its parent |
| `Budget.ChargeAt` | libtransmission/bandwidth.cc:270-287 | consumption lowers every limited node of the whole chain once, floored at zero, and changes nothing else |
| `Budget.BudgetSafety` | libtransmission/bandwidth.cc:255-287 | over every interleaving of clamped I/O, at every limited node at once: bytes moved by leaves bound to the node plus what is left never exceed its allotment, and what is left never falls below the allotment minus all bytes moved below |
| `Budget.ExactConservation` | libtransmission/bandwidth.cc:270-287 | when every leaf below a limited node honors it, bytes moved plus what is left equal the allotment |
| `BandwidthTree.Bandwidth.Clamp` | libtransmission/bandwidth.cc:255-268 | the recursive method computes the clamp over the parent chain; forests only |
| `BandwidthTree.Bandwidth.NotifyConsumed` | libtransmission/bandwidth.cc:270-287 | charges the chain in one direction, leaves the other direction, links and priorities alone, and records the transfer at every ancestor |
| `BandwidthTree.NotifiedHears` | libtransmission/bandwidth.cc:270-282 | piece bytes go to the piece meter only; raw bytes go to the raw meter and lower the budget of a limited band, down to zero; nothing else of the band changes |
| `BandwidthTree.PeerIo.Flush` | libtransmission/bandwidth.cc:183-183 | a peer moves at most its clamped amount and what it has available, and charges exactly what it moved |
| `BandwidthTree.PeerIo.HasBandwidthLeft` | libtransmission/peer-io.h:164-167 | bandwidth is left iff the minimum over the chain for 1024 bytes is above 0 |
| `BandwidthTree.Bandwidth.RemoveChild` | libtransmission/bandwidth.cc:91-99 | swap-with-last removal: the child is gone, the others stay, each as often as before |
| `BandwidthTree.Bandwidth.Deparent` | libtransmission/bandwidth.cc:103-113 | the node has no parent and is in nobody's children; all other links stay |
| `BandwidthTree.Bandwidth.SetParent` | libtransmission/bandwidth.cc:115-131 | every acyclic set_parent keeps the forest: a node is among p's children exactly once iff its parent is p, and ancestor chains are those of the new shape |
| `Forests.RelinkedRooted` | libtransmission/bandwidth.cc:115-131 | hanging a node below one that is not in its own subtree keeps every chain finite, free of repetition and ending at a root |
| `Forests.UnlinkedMutual` | libtransmission/bandwidth.cc:91-113 | removing the child link keeps parents and children mutual, each child listed once |
| `Forests.LinkedMutual` | libtransmission/bandwidth.cc:121-130 | adding the child link keeps parents and children mutual, each child listed once |
| `Forests.PreorderIsSubtree` | libtransmission/bandwidth.cc:157-160 | the preorder of a node lists exactly the nodes of its subtree, each once |
| `Forests.PathPriorityIsMinimum` | libtransmission/bandwidth.cc:140-140 | the priority handed down a path is the minimum of the start value and all priorities on the path, and one of them |
| `BandwidthTree.Bandwidth.AllocateBandwidth` | libtransmission/bandwidth.cc:135-161 | the recursive walk over the heap computes the specification walk on snapshots: budgets, peer priorities and the peer pool |
| `BandwidthTree.AllocateMeaning` | libtransmission/bandwidth.cc:135-161 | the walk refills exactly the limited bands of the subtree to desired speed times period over 1000, and appends its live peers in preorder, each with the minimum priority of its path |
| `BandwidthTree.RefillMeaning` | libtransmission/bandwidth.cc:143-148 | a refill sets the budget of each limited band of the subtree to desired speed times period over 1000, rounded down, and changes nothing else and no other node |
| `Scheduler.PhaseOne` | libtransmission/bandwidth.cc:163-195 | terminates, permutes the peers, plays only clamped I/O, keeps the round robin fair at every moment (no peer more than one increment ahead of one that could go on), and ends only when each peer's last flush was its only short one |
| `Scheduler.RoundFull` | libtransmission/bandwidth.cc:183-192 | a full flush keeps the round: every unfinished peer has k or k + 1 increments, peers before the cursor one more |
| `Scheduler.RoundShort` | libtransmission/bandwidth.cc:186-189 | a short flush swaps the peer behind the unfinished ones and keeps the round |
| `Scheduler.RoundAgain` | libtransmission/bandwidth.cc:176-177 | at the end of pass k every unfinished peer has exactly k + 1 increments |
| `Scheduler.OnePass` | libtransmission/bandwidth.cc:177-193 | one pass of the inner loop gives each peer still unfinished one more increment |
| `Allocation.Partition` | libtransmission/bandwidth.cc:212-232 | the switch with fall-through builds the three lists as filters of the pool by priority, in order |
| `Allocation.Lists` | libtransmission/bandwidth.cc:202-232 | the three lists are the pool filtered by high, by high or normal, and by any of the three priorities, each peer with its own leaf |
| `Allocation.ListsNest` | libtransmission/bandwidth.cc:215-227 | high is within normal and normal within low: exactly the normal peers of high priority, exactly the low peers that are not of low priority |
| `Allocation.LowIsAll` | libtransmission/bandwidth.cc:135-232 | when every node has priority -1, 0, 1 or 127 and no peer's own node is above 1, the path priorities are all valid and the last list is all peers |
| `Allocation.RunPhases` | libtransmission/bandwidth.cc:238-241 | one list's two round robins: both fair at every moment, both ended by a short flush of each peer, and the I/Os so far stay legal |
| `Allocation.RunLists` | libtransmission/bandwidth.cc:238-241 | the loop over the three lists plays a finished round robin up and down for each, and the I/Os of the period stay legal |
| `Allocation.Collect` | libtransmission/bandwidth.cc:210-210 | refills the root's subtree and collects its peers in preorder, each with the lowest priority on its path |
| `Allocation.EnableLeftover` | libtransmission/bandwidth.cc:247-250 | on-demand I/O is enabled in a direction exactly for peers with bandwidth left in it |
| `Allocation.Allocate` | libtransmission/bandwidth.cc:197-251 | the whole period: budgets start at their allotments, only clamped I/O happens, each of the three lists plays a fair round robin per direction until every peer had a short flush, the last list is all peers when priorities are proper, and peers end up enabled iff they have bandwidth left |
| `Allocation.PeriodIsSafe` | libtransmission/bandwidth.cc:143-148 | after a refill, at every limited node of the subtree, bytes moved by bound leaves plus what is left stay within desired speed times period over 1000, over every legal I/O sequence |
| `Verdict.CompareFailedOrders` | libtransmission/announcer-common.h:147-159 | comparing failures is a total preorder |
| `Verdict.CompareFailedIsRank` | libtransmission/announcer-common.h:147-159 | failures are ordered by whether they connected, then by not having timed out, then by having a message |
| `Verdict.TakeHolds` | libtransmission/announcer-udp.cc:177-198 | one more answer keeps the counters, the success flag and the first maximal failure right |
| `Verdict.VerdictPartial` | libtransmission/announcer-udp.cc:186-198 | until the last answer is in, the callback ran once per success and not otherwise |
| `Verdict.VerdictComplete` | libtransmission/announcer-udp.cc:177-198 | with all answers in, the callback ran once per success, or, with none, exactly once with the first failure of maximal rank |
| `Verdict.HttpAnnounceData.OnAnnounceDone` | libtransmission/announcer-http.cc:131-161 | the HTTP announcer's object meets the same verdict specification and is deleted exactly when all answers are in |
| `Verdict.HttpAnnounceData.Record` | libtransmission/announcer-http.cc:136-154 | the counter, flag and failure updates of one answer are those of the aggregator function |
| `UdpWire.GetPut` | libtransmission/announcer-udp.cc:226-242 | a number that fits its field reads back from its big-endian bytes |
| `UdpWire.AnnounceDecodes` | libtransmission/announcer-udp.cc:225-242 | for all requests the datagram has 98 bytes, and decoding at the offsets of the announce table in BEP 15 returns connection ID, action, transaction ID and every field, numwant modulo 2^32 |
| `UdpWire.ConnectDecodes` | libtransmission/announcer-udp.cc:457-460 | the connect datagram has 16 bytes; decoding at the offsets of BEP 15 returns the protocol magic, the action and the transaction ID |
| `UdpWire.ScrapeDecodes` | libtransmission/announcer-udp.cc:90-95 | hash i of a scrape datagram is at offset 16 + 20 * i, and the datagram ends after the last |
| `UdpWire.FillRows` | libtransmission/announcer-udp.cc:129-135 | the reply loop fills exactly the first min(row_count, body length / 12) rows from their offsets and leaves later rows alone |
| `UdpWire.NarrowingMattersIff` | libtransmission/announcer-udp.cc:672-676 | the exact condition: the narrowed action equals the action field iff the first three bytes are 0 |
| `UdpWire.UnderstoodIsDefinedIff` | libtransmission/announcer-udp.cc:757-776 | an understood message has an action BEP 15 defines iff its first three bytes are 0 |
| `UdpWire.UndefinedActionUnderstood` | libtransmission/announcer-udp.cc:672-676 | a 16-byte message with action 256 is understood as a connect reply |
| `UdpTimeouts.OverdueConnect` | libtransmission/announcer-udp.cc:508-515 | timing out a connect ends it, fails everything pending and re-enters upkeep with empty queues, which only collects DNS results: the cycle upkeep, timeout_requests, on_connection_response, upkeep ends there |
| `UdpMachine.RouteFor` | libtransmission/announcer-udp.cc:572-589 | a request goes out on a protocol with an address and a valid connection ID, an announce only on its own, and on none exactly if there is no such protocol |
| `UdpMachine.FindAnnounce` | libtransmission/announcer-udp.cc:696-699 | finds the first pending announce with the transaction ID, or none exactly if there is none |
| `UdpMachine.FindScrape` | libtransmission/announcer-udp.cc:709-712 | finds the first pending scrape with the transaction ID, or none exactly if there is none |
| `UdpSafety.SendConnectKeeps` | libtransmission/announcer-udp.cc:447-463 | sending a connect when none is under way and no valid ID is held keeps the invariant |
| `UdpSafety.EndConnectKeeps` | libtransmission/announcer-udp.cc:381-382 | ending a connect by its own reply or by its timeout keeps the invariant |
| `UdpSafety.ReceiveConnIdKeeps` | libtransmission/announcer-udp.cc:384-387 | storing a connection ID and its expiry right after the matching reply keeps the invariant |
| `UdpSafety.AnswerAnnounceKeeps` | libtransmission/announcer-udp.cc:258-293 | answering and erasing an announce keeps conservation, connection safety and the aggregators' accounts |
| `UdpSafety.AnswerScrapeKeeps` | libtransmission/announcer-udp.cc:116-142 | answering and erasing a scrape keeps the invariant |
| `UdpSafety.AnnounceSendKeeps` | libtransmission/announcer-udp.cc:572-589 | sending an unsent announce on its usable protocol keeps the invariant; it is not sent again |
| `UdpSafety.ScrapeSendKeeps` | libtransmission/announcer-udp.cc:553-567 | sending an unsent scrape, and dropping it at once if nobody waits for it, keeps the invariant |
| `UdpSafety.QueueAnnouncesKeeps` | libtransmission/announcer-udp.cc:638-641 | queueing one announce per protocol with one aggregator expecting two answers keeps the invariant |
| `UdpSafety.QueueScrapeKeeps` | libtransmission/announcer-udp.cc:652-652 | queueing a scrape keeps the invariant |
| `UdpRuns.UpkeepKeeps` | libtransmission/announcer-udp.cc:403-471 | upkeep, with everything it calls, keeps the invariant |
| `UdpRuns.OnConnectionResponseKeeps` | libtransmission/announcer-udp.cc:374-401 | a connect reply of any kind, or its timeout, keeps the invariant |
| `UdpRuns.HandleKeeps` | libtransmission/announcer-udp.cc:685-718 | any datagram keeps the invariant |
| `UdpRuns.RunsKeepInv` | libtransmission/announcer-udp.cc:623-728 | the invariant holds after every sequence of announces, scrapes, upkeeps, DNS results and datagrams at nonzero times |
| `UdpTheorems.ConnectionIdSafety` | libtransmission/announcer-udp.cc:547-589 | in every run, each announce or scrape datagram carries the latest connection ID received on its protocol, less than 45 seconds old, goes to the protocol's latest resolved address, is the first for its request, and an announce leaves on its own protocol |
| `UdpTheorems.ConnectDiscipline` | libtransmission/announcer-udp.cc:374-401 | in every run, at most one connect per protocol is under way; it ends only by the reply with its recorded transaction ID or after 30 seconds, and only such a reply brings a connection ID (BEP 15, UDP connections / spoofing) |
| `UdpTheorems.RequestsConserved` | libtransmission/announcer-udp.cc:492-569 | in every run, each queued request is pending once or settled once (answered or dropped), never both, and sent at most once |
| `UdpTheorems.VerdictOfRun` | libtransmission/announcer-udp.cc:177-198 | in every run, sent minus answered equals the pending requests sharing the aggregator; callbacks are one per success until the last answer, then, with no success, exactly one with the first maximal failure |
| `UdpDatagrams.RunsNarrow` | libtransmission/announcer-udp.cc:384-387 | in every run whose drawn transaction IDs have 32 bits, all transaction IDs held and logged stay below 2^32 and all connection IDs below 2^64 |
| `UdpDatagrams.SentBytesDecode` | libtransmission/announcer-udp.cc:547-589 | in every run, the bytes of each connect, announce and scrape datagram decode at the offsets of BEP 15 to the connection ID, action and transaction ID of the event that logged it |
| `UdpTimeouts.ExpireDropsAnnounces` | libtransmission/announcer-udp.cc:521-533 | the erasing loop removes exactly the announces past 45 seconds, in place |
| `UdpTimeouts.ExpireDropsScrapes` | libtransmission/announcer-udp.cc:521-533 | the erasing loop removes exactly the scrapes past 30 seconds, in place |
| `UdpTimeouts.TimeoutOutcome` | libtransmission/announcer-udp.cc:508-519 | timeout_requests: if a connect older than 30 seconds is recorded on either protocol, all pending requests of both end; if none is, exactly the expired ones end |
| `UdpTimeouts.UpkeepOutcome` | libtransmission/announcer-udp.cc:403-471 | the exact condition, on the state before the call: with requests pending, an upkeep ends all of them if a connect older than 30 seconds is recorded on either protocol; if none is, exactly the expired requests end, and of the others only sent scrapes nobody waits for leave |
| `UdpTimeouts.UpkeepLeavesNoneExpired` | libtransmission/announcer-udp.cc:466-470 | after an upkeep that times requests out, no pending request has expired |
| `UdpTimeouts.OverdueAnswersAll` | libtransmission/announcer-udp.cc:492-515 | every pending announce and scrape, of either protocol, is told the connect error of the first protocol whose connect is overdue |
| `UdpTimeouts.OverdueUpkeep` | libtransmission/announcer-udp.cc:403-471 | the same of a whole upkeep, from the state before the call: with a connect overdue, both queues end empty and everything pending is told |
| `UdpUpkeep.UpkeepExactly` | libtransmission/announcer-udp.cc:403-471 | in closed form on the state before it, all an upkeep with requests pending does: every event it logs but the callbacks, in order, both channels and both queues, with or without timing requests out |
| `UdpUpkeep.IdleExactly` | libtransmission/announcer-udp.cc:407-424 | with nothing pending, an upkeep collects finished lookups and does nothing else |
| `UdpUpkeep.ReconnectsIff` | libtransmission/announcer-udp.cc:426-463 | per protocol, on the state before an upkeep with requests pending: a connect is sent, with the drawn transaction ID and to the address at hand, exactly if there is an address, no connect is under way, and the connection ID is 0 or has expired; a lookup begins exactly if none is running or ready and the address is stale |
| `UdpUpkeep.LookupArrives` | libtransmission/announcer-udp.cc:407-417 | what a lookup found is the address after the next upkeep, for 3600 seconds; a lookup that found nothing leaves the old address |
| `UdpUpkeep.ConnectErrorIs` | libtransmission/announcer-udp.cc:388-392 | the text of a failed connect: the tracker's bytes if there are any, else which protocol failed |
| `UdpUpkeep.FailAllLogs` | libtransmission/announcer-udp.cc:492-504 | every pending scrape and then every pending announce is told, in order, that it connected and failed with the text |
| `UdpUpkeep.ExpireAnnouncesLogs` | libtransmission/announcer-udp.cc:521-533 | exactly the announces queued 45 seconds ago or earlier are told, in order, of a timeout without a connection |
| `UdpUpkeep.ExpireScrapesLogs` | libtransmission/announcer-udp.cc:521-533 | exactly the scrapes queued 30 seconds ago or earlier are told, in order, of a timeout without a connection |
| `UdpReplies.MessageReads` | libtransmission/announcer-udp.cc:672-685 | a message's action, transaction ID and body read back, and it is taken for a reply exactly if a connect has 8 more bytes, an announce or scrape at least 12, and an error any number |
| `UdpReplies.UnknownIsIgnored` | libtransmission/announcer-udp.cc:757-776 | nothing shorter than 8 bytes or with an action above 3 is taken for a reply |
| `UdpReplies.ConnectReplyExactly` | libtransmission/announcer-udp.cc:374-387 | the reply to the connect under way stores the number its eight bytes spell as the connection ID, good for 45 seconds, forgets the connect, and upkeeps; the other protocol keeps its ID |
| `UdpReplies.ConnectErrorExactly` | libtransmission/announcer-udp.cc:381-400 | an error reply to the connect under way fails all pending requests of both protocols with its text and leaves both queues empty |
| `UdpReplies.OddReplyExactly` | libtransmission/announcer-udp.cc:374-400 | any other action with the connect's transaction ID ends the connect, stores nothing, and upkeeps |
| `UdpReplies.AnnounceReplyExactly` | libtransmission/announcer-udp.cc:266-287 | an announce reply ends the first pending announce with its transaction ID, which passes on at once a success with exactly the interval, leechers, seeders and peer bytes that arrived; nothing else changes |
| `UdpReplies.AnnounceErrorExactly` | libtransmission/announcer-udp.cc:288-292 | any other reply, or a short one, fails that announce as connected, with the text of a nonempty error and 'Unknown error' otherwise |
| `UdpReplies.ScrapeReplyExactly` | libtransmission/announcer-udp.cc:124-142 | a scrape reply ends the first pending scrape with its transaction ID and hands its bytes on; any other reply fails it as connected, with a text |
| `UdpReplies.StrayReplyExactly` | libtransmission/announcer-udp.cc:685-722 | a message with a transaction ID nobody waits for is not the tracker's and changes nothing |
| `UdpReplies.RowReads` | libtransmission/announcer-udp.cc:129-135 | row i of a scrape reply is the seeders, downloads and leechers spelled by its twelve bytes |
| `UdpReplies.AnnounceExactly` | libtransmission/announcer-udp.cc:638-642 | an announce queues one request per protocol, IPv4 first, with the drawn transaction IDs and one aggregator; then all that can leave does, connects are tried and nothing times out |
| `UdpReplies.ScrapeExactly` | libtransmission/announcer-udp.cc:652-653 | a scrape queues one request; then all that can leave does, connects are tried and nothing times out |
| `UdpReplies.ConnectionIdsArrive` | libtransmission/announcer-udp.cc:384-387 | in every run, each connection ID received came in a datagram of that second over that protocol, with action connect, as the first eight bytes after the header |
| `UdpTimeouts.StaleConnectFailsFresh` | libtransmission/announcer-udp.cc:508-515 | a concrete run: a connect left recorded when its queue ran empty ends, 871 seconds later, an announce that is one second old and for which no connect was sent |
| `UdpTracker.Tracker.Upkeep` | libtransmission/announcer-udp.cc:403-471 | the method leaves the tracker in the state the upkeep function gives |
| `UdpTracker.Tracker.FailEverything` | libtransmission/announcer-udp.cc:492-504 | the two loops and the clearing equal failing the requests one by one |
| `UdpTracker.Tracker.TimeoutAnnounces` | libtransmission/announcer-udp.cc:521-533 | the loop that erases while iterating equals the expiry function |
| `UdpTracker.Tracker.OnAnnounceData` | libtransmission/announcer-udp.cc:177-198 | the imperative aggregator update equals the aggregator function, callbacks included |
| `UdpTracker.Tracker.SendPendingAnnounces` | libtransmission/announcer-udp.cc:548-569 | the sending loop equals the sending function |
| `UdpTracker.Tracker.SendPendingScrapes` | libtransmission/announcer-udp.cc:548-569 | the sending loop with removal equals the sending function |
| `UdpTracker.Tracker.OnConnectionResponse` | libtransmission/announcer-udp.cc:374-401 | the method takes the step of the machine, recursion included |
| `UdpTracker.Tracker.Announce` | libtransmission/announcer-udp.cc:638-642 | queues two requests sharing an aggregator, then upkeeps without timing out; keeps the invariant of all runs |
| `UdpTracker.Tracker.Scrape` | libtransmission/announcer-udp.cc:652-653 | queues a scrape, then upkeeps without timing out; keeps the invariant of all runs |
| `UdpTracker.Tracker.Pulse` | libtransmission/announcer-udp.cc:656-660 | a timing-out upkeep of the object keeps the invariant of all runs |
| `UdpTracker.Tracker.Handle` | libtransmission/announcer-udp.cc:685-718 | one round of the dispatch: the machine's step if the message is the tracker's, no change otherwise; keeps the invariant of all runs |
| `UdpAnnouncer.Announcer.GetTracker` | libtransmission/announcer-udp.cc:733-755 | finds the first tracker of an authority or adds a new one at the end; authorities stay distinct |
| `UdpAnnouncer.Announcer.Announce` | libtransmission/announcer-udp.cc:631-643 | exactly the tracker of the authority, made if needed, takes the announce step; without an authority nothing changes; the invariant of all runs holds of every tracker if it did before |
| `UdpAnnouncer.Announcer.Scrape` | libtransmission/announcer-udp.cc:645-654 | exactly the tracker of the authority, made if needed, takes the scrape step; without an authority nothing changes; the invariant of all runs holds of every tracker if it did before |
| `UdpAnnouncer.Announcer.UpkeepAll` | libtransmission/announcer-udp.cc:656-661 | every tracker takes exactly one timing-out upkeep step, which keeps the invariant of all runs |
| `UdpAnnouncer.Announcer.HandleMessage` | libtransmission/announcer-udp.cc:665-723 | a datagram goes to the first tracker that accepts it and changes no other; too short or unknown messages change nothing and are declined, and so are messages no tracker accepts; every tracker keeps the invariant of all runs |
| `UdpAnnouncer.MessageDelivered` | libtransmission/announcer-udp.cc:672-718 | a message laid out as BEP 15 has it is handed to the tracker as its action, transaction ID and body |
| `AnnounceUrls.ScrapeByConvention` | libtransmission/announce-list.cc:124-128 | 'announce' at the start of the last path segment becomes 'scrape', the rest of the URL stays |
| `AnnounceUrls.ScrapeOtherwise` | libtransmission/announce-list.cc:130-135 | without the convention only a udp: URL is scraped, at its own URL |
| `AnnounceList.ShortcutIsSound` | libtransmission/announce-list.cc:173-180 | the substring fast test never changes an answer of the sibling or duplicate test |
| `AnnounceList.GetTierIsSiblings` | libtransmission/announce-list.cc:168-184 | in a list with shared tiers a URL gets its siblings' tier whichever is found first, and the given tier if it has none |
| `AnnounceList.CanAddIsNoDuplicate` | libtransmission/announce-list.cc:186-205 | a URL may be added iff no entry equals it in scheme, host, port, path and query |
| `AnnounceList.LowerBoundIs` | libtransmission/announce-list.cc:90-90 | the insertion place is after all smaller entries and before the first that is not |
| `AnnounceList.AddedGood` | libtransmission/announce-list.cc:64-94 | adding keeps the list strictly sorted by tier and URL, free of duplicates, siblings in one tier, ids unique and parsed data genuine |
| `AnnounceList.AddedMeaning` | libtransmission/announce-list.cc:64-94 | adding succeeds exactly if the URL parses with scheme http, https or udp and differs from every entry in scheme, host, port, path or query; the entry has the URL's scrape URL and the tier of entries sharing host and path, or else the one asked for, and stands after all smaller and before all greater entries |
| `AnnounceList.GoodMeaning` | libtransmission/announce-list.h:34-41 | of two entries the earlier has the smaller tier, or the same and the smaller text; they differ in id and in some part of the URL; entries sharing host and path share the tier |
| `AnnounceList.GenuineMeaning` | libtransmission/announce-list.cc:64-88 | every entry's parsed data is that of its text, with a tracker's scheme, and its scrape URL follows the convention |
| `AnnounceList.NextTierIsAbove` | libtransmission/announce-list.cc:138-141 | nextTier is one above the highest tier in the list, 0 for an empty list |
| `AnnounceList.LessOrders` | libtransmission/announce-list.h:34-41 | entries are totally ordered by tier, then URL text |
| `Text.TextLessMeaning` | libtransmission/announce-list.h:34-41 | texts are compared at their first difference; a text comes before every longer one it begins |
| `AnnounceList.RankFollowsTier` | libtransmission/announce-list.cc:107-110 | counting tier changes numbers the tiers of a sorted list in order, equal iff the tiers are equal |
| `AnnounceList.MergeStep` | libtransmission/announce-list.cc:106-113 | one more source entry keeps the merge's account: old entries stay, new ones are traced to the source with their exact tier, source URLs are covered |
| `AnnounceList.TrackerList.Add` | libtransmission/announce-list.cc:64-94 | succeeds iff the URL parses with a tracker scheme and is no duplicate; then the list is the old one with the new entry at its place, else unchanged; all list invariants hold |
| `AnnounceList.TrackerList.AddAll` | libtransmission/announce-list.cc:96-114 | merging loses nothing old, covers every source URL, and gives a new URL its old siblings' tier or nextTier plus its rank in the source; the source is unchanged, also when it is the list itself |
| `AnnounceList.TrackerList.RemoveUrl` | libtransmission/announce-list.cc:26-35 | removes exactly the entry with that URL, reports whether there was one, keeps the invariants |
| `AnnounceList.TrackerList.RemoveId` | libtransmission/announce-list.cc:37-46 | removes exactly the entry with that id, reports whether there was one, keeps the invariants |
| `AnnounceList.TrackerList.Replace` | libtransmission/announce-list.cc:48-62 | all or nothing: succeeds iff the URL is usable, no duplicate, and the id exists; then only that entry is exchanged, the new one in the old tier unless siblings remain |
| `AnnounceText.AcceptedIff` | libtransmission/announce-list.cc:270-298 | a text is accepted iff every nonblank line is a tracker URL and no two are the same |
| `AnnounceText.Parse` | libtransmission/announce-list.cc:270-298 | on success the list is what the text says; on failure it is unchanged; the invariants hold either way |
| `AnnounceText.LinesMeaning` | libtransmission/announce-list.cc:277-282 | a text is cut at its newlines, every line stripped of white space, carriage return included; a last line needs no newline |
| `AnnounceText.ParseMeaning` | libtransmission/announce-list.cc:270-298 | an accepted text gives one entry per nonblank line and no other, ids in line order; a line's tier is the number of tiers that blank lines ended before the first line with its host and path |
| `AnnounceText.ParsedPrints` | libtransmission/announce-list.cc:277-294 | a parsed list keeps all list invariants and holds only stripped one-line URLs |
| `AnnounceText.ToString` | libtransmission/announce-list.cc:300-317 | the printing loop yields the list's text: a line per URL, a blank line between tiers |
| `AnnounceText.PrintMeaning` | libtransmission/announce-list.cc:300-317 | an entry at the end of a list adds its URL and a newline to the text, after one blank line if its tier differs from the one before |
| `AnnounceText.Reparse` | libtransmission/announce-list.cc:284-293 | re-reading printed lines puts each URL last, in the tier of its rank |
| `AnnounceText.PrintedParses` | libtransmission/announce-list.cc:270-317 | every well-formed printable list prints to a text that parses to the same entries with dense tiers |
| `AnnounceText.PrintParseFixedPoint` | libtransmission/announce-list.cc:270-317 | for every parsed text: printing and parsing again succeeds with the same URLs, order and tier partition, tiers dense from 0, and prints the same text |
| `FileTree.ChildrenFirst` | gtk/FileList.cc:279-301 | in post-order every child comes before its parent |
| `FileTree.AccumulateIsSum` | gtk/FileList.cc:204-232 | the loop over immediate children, folders included, computes the sums and common values over the wanted leaves below |
| `FileTree.FolderMeaning` | gtk/FileList.cc:204-238 | a folder's size and have are the sums over the wanted files below; enabled and priority are 1001 iff files differ, else the common value; progress is the percentage rounded down, within 0 and 100, and 1 when the size is 0 |
| `FileTree.FileMeaning` | gtk/FileList.cc:194-202 | a file's row shows whether it is wanted, its priority, bytes and length, wanted or not, and its progress within 0 and 100 |
| `FileTree.RefreshRow` | gtk/FileList.cc:175-277 | one row gets its file's columns, or what its children's rows combine to |
| `FileTree.WalkDown` | gtk/FileList.cc:287-293 | the inner loop visits rows in post-order until the top iterator is past its siblings |
| `FileTree.Refresh` | gtk/FileList.cc:279-323 | the explicit-stack walk terminates, visits every row once in post-order, and leaves every file's and every folder's row showing what FileMeaning and FolderMeaning say |
| `Calendar.SysDaysIsNaiveCount` | libtransmission-app/converters.cc:103-115 | the era arithmetic equals counting days month by month and year by year from 1970-01-01, for every valid date of every year |
| `Calendar.NextDayIsOneLater` | libtransmission-app/converters.cc:61-115 | the next calendar day is valid and exactly one day later |
| `Calendar.SysDaysStrictlyMonotone` | libtransmission-app/converters.cc:103-115 | day numbers order valid dates as the calendar does, and no two share one |
| `Timestamp.ParsePrinted` | libtransmission-app/converters.cc:245-313 | every well-formed Z, +-hhmm or +-hh:mm text, with any white space around it, parses to the naive day count times 86400 plus its time of day minus its offset (section 5.6 of RFC 3339) |
| `Timestamp.PrintedText` | libtransmission-app/converters.cc:245-313 | the texts in question: each field's decimal digits in its place, with the separators and zone of section 5.6 of RFC 3339 |
| `Timestamp.SpellingsAgree` | libtransmission-app/converters.cc:284-312 | two spellings of the same instant parse to the same value |
| `Timestamp.AcceptedIsTimestampIffDigits` | libtransmission-app/converters.cc:245-313 | the exact condition: an accepted text is a well-formed timestamp iff its numeric fields are all digits |
| `Timestamp.AcceptsExactlyTimestamps` | libtransmission-app/converters.cc:245-313 | on texts with the layout and digit fields, the parser accepts exactly the well-formed timestamps |
| `Timestamp.LenientWitness` | libtransmission-app/converters.cc:253-260 | a text whose month is '1x' is accepted as January, since the number parser ignores what follows the digits |
| `Text.StripSplits` | libtransmission/string-utils.cc:44-57 | stripping removes all white space at both ends and nothing else |
| `Text.StripMeaning` | libtransmission/string-utils.cc:44-57 | the characters removed are blanks, tabs, newlines, vertical tabs, form feeds and carriage returns, and the result neither begins nor ends with one |
| `ListModelAdapter.RemoveIndexes` | gtk/ListModelAdapter.cc:217-221 | erasing an entry and decrementing from its position on leaves each id mapped exactly to its index |
| `ListModelAdapter.InsertIndexes` | gtk/ListModelAdapter.cc:238-241 | inserting, incrementing from the position on and adding the new id leaves each id mapped exactly to its index |
| `ListModelAdapter.ReplayConcat` | gtk/ListModelAdapter.cc:226-250 | replaying signals in two parts is replaying them at once |
| `ListModelAdapter.Adapter.AdjustPositions` | gtk/ListModelAdapter.cc:198-205 | moves the position of exactly the known ids from min_position on |
| `ListModelAdapter.Adapter.OnItemsChanged` | gtk/ListModelAdapter.cc:208-252 | after a splice the items are the list model's ids in order and the index is exact; exactly one deletion per removed row was signalled, last first, then one insertion per added row, and replaying them on the old rows gives the new ones |
| `ListModelAdapter.Adapter.EnumeratesItems` | gtk/ListModelAdapter.cc:81-120 | the first child and iter_next enumerate the items in order and then stop |
| `RpcQueue.WholeRunMeaning` | libtransmission-app/rpc-queue.h:67-139 | every call of a finished chain: step k ran k-th, after step k - 1 succeeded and with its result, the first with an empty one; then the last run step's own handler ran exactly if it failed without a network error and has one; then the final call if there is one |
| `RpcQueue.StepsRunIff` | libtransmission-app/rpc-queue.h:111-131 | a step runs iff all steps before it succeeded without a network error |
| `RpcQueue.Queue.Run` | libtransmission-app/rpc-queue.h:67-79 | starts the first step, or finishes at once when there is none |
| `RpcQueue.Queue.RunNext` | libtransmission-app/rpc-queue.h:100-109 | pops and runs one step with the result before it; auxiliary steps succeed with an empty response and go on at once |
| `RpcQueue.Queue.StepFinished` | libtransmission-app/rpc-queue.h:111-131 | takes one result: a failure ends the chain, a success goes on; the log stays that of a chain run in order |
| `RpcQueue.Queue.Finish` | libtransmission-app/rpc-queue.h:133-139 | runs the final call if there is one and lets the chain go |
| `SiteMerge.Tally` | gtk/FilterBar.cc:215-240 | each site's count is the number of torrents with at least one tracker of it, its host and announce URL are those of the first such tracker of the last such torrent, sites without torrents are absent, and the total is the number of torrents |
| `SiteMerge.SortSites` | gtk/FilterBar.cc:242-245 | the tally as a strictly sorted list, each site once |
| `SiteMerge.RemovedHasNoSite` | gtk/FilterBar.cc:277-278 | with sorted rows, a removed row's site is in no place of the new list |
| `SiteMerge.KeepsOnInsert` | gtk/FilterBar.cc:287-298 | inserting a site keeps the rows of sites already passed and the order to come |
| `SiteMerge.SameHandleSameSite` | gtk/FilterBar.cc:277-305 | after the merge a row is one of the old rows, for the same site, or new |
| `SiteMerge.TrackerModel.Merge` | gtk/FilterBar.cc:257-305 | for any old rows the loop terminates with row k showing site k, rows stay distinct, and each is an old row of its site or a new one; with sorted old rows every row whose site stays is kept |
| `SiteMerge.TrackerModel.Update` | gtk/FilterBar.cc:191-308 | the rows are the sorted sites with their counts, the first row has the number of torrents, and with sorted old rows a row is the same as an old one iff its site is |
| `TryingOrder.OrderListsEach` | libtransmission/announcer-common.cc:19-25 | a shuffled order lists each tracker index below n exactly once |
| `TryingOrder.FullRound` | libtransmission/announcer-common.cc:36-47 | n consecutive advances visit every tracker once and return to the start |
| `TryingOrder.FirstRound` | libtransmission/announcer-common.cc:38-42 | with no current tracker the first round is the order itself |
| `TryingOrder.PromotedMeaning` | libtransmission/announcer-common.cc:49-56 | promoting puts the current tracker first, permutes the order and keeps the others' relative order |
| `TryingOrder.TrackerTryingOrder.Advance` | libtransmission/announcer-common.cc:36-47 | steps to the next position with wrap-around and returns its tracker; the order stays a permutation |
| `TryingOrder.TrackerTryingOrder.PromoteCurrent` | libtransmission/announcer-common.cc:49-56 | the current tracker stays current and is first |
| `TryingOrder.TrackerTryingOrder.SetCurrent` | libtransmission/announcer-common.cc:58-68 | makes the index current if it is a tracker, else none; the order does not change |

## Left out

- Sockets, DNS, curl, threads and the clock: DNS results, datagrams, times and drawn transaction IDs are inputs of a step. A lookup finishes between calls, not during one.
- Callbacks that queue new requests while a tracker is failing old ones; the recursion of upkeep is proved to end without them.
- `tau_announce_data` objects are entries of a table in the tracker, keyed by number, instead of shared pointers; destruction by reference count is not modelled.
- The per-protocol arrays of a tracker are one array of records; peers in an announce reply stay the bytes of the compact list.
- The bodies of scrape answers are carried as bytes in the log; `UdpWire.FillRows` says how rows are read from them.
- URL parsing internals: the parser is a parameter, of which only "the host is part of the text" is asked. Interning of strings is not modelled.
- Ids and tiers of announce-list entries are unbounded; in the source they are 32-bit counters.
- Saving announce lists to torrent files and to variants.
- Byte counters, budgets and times in the bandwidth tree are unbounded; the unsigned wrap of the meter's cutoff is modelled. Meters inside the tree are represented by their transfer logs, which is what `RateMeter.RateControl` is proved to mirror.
- `tr_peerIo` beyond what it may move and charge; how much a peer has available, and how many protocol bytes wait, is arbitrary. Piece-data notifications inside a flush only touch meters and are left out.
- BandwidthTree.Bandwidth.SetParent: the caller must not hang a node below itself; the source only asserts part of this.
- Destruction of a bandwidth node that still has children.
- Years outside the range of `int`; formatting of timestamps with `localtime`.
- FileTree.FolderMeaning: progress is integer arithmetic, not rounding of doubles. The text columns, the sort suspension and the rest of the view are left out.
- ListModelAdapter.Adapter.OnItemsChanged: the list model is taken to be exactly the announced splice of the old one, with distinct ids. Change notifications of single items and column values are left out.
- RpcQueue.Queue.StepFinished: a step is taken to call its continuation once. What steps compute is arbitrary.
- Display names and the icon cache of the tracker filter.
- The quality of shuffles and of transaction IDs: any permutation, any numbers.
- GTK rendering, dialogs, settings and option tables: nothing there spans operations.
