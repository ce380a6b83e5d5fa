# usteer: a verified model of the steering daemon

usteer runs on WiFi access points. It learns from frames, polls and messages of
other access points which station hears which node, refuses requests a better
node should answer, asks clients for beacon reports, and kicks clients that stay
on a bad node. This project models the state behind that and proves what it
promises over all inputs and all runs.

## Reading order

| file | what it holds |
|---|---|
| `Types.dfy`, `Arithmetic.dfy`, `Lists.dfy`, `Index.dfy` | records and settings, remainders, linked lists as sequences, one side of a two-sided index |
| `Steering.dfy` | the pairwise tests of access points, the potential behind them, no cycles, moving clients |
| `Candidates.dfy` | the search for a better access point, and that the nodes never refuse a station all at once |
| `Timeout.dfy` | the timer queue with 32-bit keys, refined to timers with unbounded deadlines |
| `HearingMap.dfy` | the cache of beacon reports against its full log, and the band rotation |
| `Roam.dfy` | the roam machine of one client over all runs |
| `Blocking.dfy` | how often requests can be refused in a row |
| `Stations.dfy`, `Registry.dfy` | the tables, and the operations on entries, stations and timers |
| `Kicking.dfy`, `Policy.dfy` | the choice of whom to kick, and the three kick passes on the tables |
| `Events.dfy`, `Poll.dfy`, `Remote.dfy` | frames and reports, the mark-and-sweep poll, nodes and messages of other access points |
| `History.dfy` | the life of each entry: the run of its roam machine, the log of its reports and its requests, tied to the tables and to what hostapd is told |
| `Effects.dfy` | every operation in one place: what it does to the whole state, said of the state before and after |
| `Chronicle.dfy` | what each operation adds to the lives, and that the lives explain the state again |
| `Daemon.dfy` | the operations as methods: all keep the invariant and have their effect; runs from the start |

## How the source is represented

- The source allocates and frees entries by hand. Entries live in a table from
  pointers to records, so that a freed entry is gone from the table and "no list
  and no timer refers to a freed entry" is a statement. The class `Registry` has
  the tables as fields and its methods reassign them, as the source updates its
  lists and fields in place. A new entry gets any pointer that is not in use.
- Lists are sequences in the source's order. The AVL tree of the timer queue is a
  sequence too; insertion descends it by comparing with arbitrary nodes of the
  part in question, which covers a search tree of any shape.
- `Registry.currentTime` is the cached clock. Operations that read the timer
  clock take the reading as `now`, never behind the cached one.
- What goes to hostapd is appended to `Registry.trace`.
- Times are unbounded; unsigned differences wrap at 64 bits (`Since`), timer keys,
  configured products and counters at 32, 16 or 8 bits where the source's do.
- `Sane` says what a run's settings must satisfy: no zero divisor, and a life time
  of entries that is a positive `int`.

## Findings

- `below_load_threshold` holds of a node above its load threshold, so the loaded
  node is the better one. `LoadedNodeWins` says exactly when it is preferred to a
  node that is not loaded. Preferences still have no cycle.
- The elapsed time of `sta_block_timeout` is subtracted the wrong way round.
  `BlockTimeoutAgrees` says exactly when that gives the documented result. The
  retry limit suffers from it: `RetryLimit` says for every run of requests which
  ones it lets through, and `LimitReachedExactly` that it comes into effect if and
  only if one more request than the limit come in a row, no two of them apart by
  less than 2^32 ms less the timeout, unless in the same millisecond.
  `RefusedForEver` and `BurstIsAnswered` are the two extremes, and `DaemonRetryLimit`
  carries it to the requests a client of the daemon has made in its life.
- The threshold for the received powers of two reports is divided by 100 before it
  is scaled, so below 100 any stronger report counts (`RcpiDecides`).
- The load kick delay is rounded up to ticks in 32 bits: `DelayTicksLast` says that it
  gives the least number of ticks that last the delay exactly if the sum does not wrap.
- The age of an entry told to other access points is a 32-bit `int`, so one that was
  not seen for over 2^31 ms and the timeout is taken over as alive (`TakenWhenAlive`).
- `roam_scan_tries` is documented up to 2^32 - 1, but the counter is a byte: above
  255 scanning is never given up (`TooManyTriesNeverGiveUp`).
- With a better access point and stale scan results the roam machine never tells
  the client anything (`StaleScansLoop`), and goes back and forth between two
  states for ever (`StaleScansAlternate`).
- With a load balancing threshold of 0 or 1 a client can be sent to and fro for
  ever; from 2 on every sequence of moves is bounded.
- A client reported by a poll can keep an armed timer while it is connected:
  exactly if the driver knew it or its timer was armed before
  (`ConnectedButArmed`). If polls stop, just these connected clients are freed
  (`SilenceFrees`); `ConnectedIsFreed` is such a run.

## Model

| member | source | states |
|---|---|---|
| Steering.BelowAssocIsPotential | policy.c:24-46 | the four-way comparison of client counts and bands is one comparison of potentials, both directions |
| Steering.StepRaisesRank | policy.c:104-113 | a preferred step from a node with room turns the load flag on, or keeps it and raises one weighted sum of signal and potential by at least a fixed stride |
| Steering.DominatingIsPreferred | policy.c:104-113 | a candidate with room that is worse in nothing by a threshold and better in one by a threshold is preferred, and not the reverse |
| Steering.LoadedNodeWins | policy.c:85-113 | exactly when a node above its load threshold is preferred to one that is not, and when the other way round |
| Steering.NoCycle | policy.c:179-180 | no chain of preferences of any length ends where it began, for all thresholds, also for beacon reports |
| Steering.ChainVisitsOnce | policy.c:179-180 | following preferences never visits a candidate twice |
| Steering.UnbeatenExists | policy.c:166-182 | among any access points one is preferred by none of the others |
| Steering.MoveCostsEnergy | policy.c:166-182 | moving a client to a preferred node lowers the sum of squared potentials by twice the margin less one |
| Steering.MovesAreBounded | policy.c:166-182 | from a load balancing threshold of 2 on, every run of moves is bounded by the energy it starts with |
| Steering.MovesCanOscillate | policy.c:166-182 | below it there are runs of any length, sending one client to and fro |
| Steering.MovesKeepCapacity | policy.c:98-102 | no run of moves overfills a node or loses a client |
| Candidates.GetNodeFromBssid | hearing_map.c:36-51 | the first in the order, local then remote, that has the BSSID, or none if no node has it |
| Candidates.FindByReport | policy.c:137-164 | the first report that speaks for another node of the network, compared with the report of the client's own node |
| Candidates.FindByEntry | policy.c:166-183 | the first entry of the station, other than its own, that is better for it |
| Candidates.EntryBetterInNumbers | policy.c:24-113 | exactly when one entry is better than another, in the numbers of both entries and nodes and the settings: seen within the timeout, same SSID, and one of the three comparisons one way and none the other way |
| Candidates.SignalDecides | policy.c:48-64 | between nodes alike in the rest the other entry is better exactly if signals are compared and it is stronger by more than the threshold |
| Candidates.CountDecides | policy.c:24-46 | between nodes not loaded, signals not compared, the client counts decide, with the handicap for leaving 5 GHz |
| Candidates.ReportBetterInNumbers | policy.c:66-83 | exactly when a report speaks for another node, in numbers, with the scaled 16-bit threshold written out |
| Candidates.RcpiDecides | policy.c:66-83 | between nodes alike in the rest the better received report speaks for its node; below a threshold of 100 by however little |
| Candidates.CurrentReportMeaning | policy.c:137-145 | the client's first report of its own node, or none if there is no such report |
| Candidates.FirstBetterEntry | policy.c:166-183 | the entry found is better, and none before it on the list is |
| Candidates.FirstBetterReport | policy.c:147-164 | the node found is that of the first report that speaks for another node |
| Candidates.SearchMeaning | policy.c:129-184 | what a search comes up with: a node of the network if some report speaks for one, else another entry of the station that is better, and nothing exactly if there is neither |
| Candidates.BetterReportMeaning | policy.c:147-164 | a node is found exactly if some report speaks for one, and it is the node of such a report |
| Candidates.BetterEntryMeaning | policy.c:166-183 | an entry is found exactly if there is a better one, and it is such a one |
| Candidates.SomeEntryUnbeaten | policy.c:129-184 | of a station's entries, if no report names a better node, one has no better candidate |
| Candidates.NeverRefusedByAll | policy.c:200-250 | so a station that is strong and known for long enough is accepted by one of its nodes |
| Candidates.AcceptsInNumbers | policy.c:200-250 | exactly when a request is accepted: association, the retry limit reached, or signal above noise (or -95) plus ratio, known for the delay, and nothing better found |
| Timeout.DeltaExact | timeout.c:40-44 | within half a wrap of the clock the 32-bit difference is the true one |
| Timeout.OutsideTheWindow | timeout.c:26-38 | one millisecond outside that range the comparator orders an overdue timer last |
| Timeout.RepresentationIsUnique | timeout.c:26-38 | a set of timers has one list ordered by true deadline, first-in first-out among equals |
| Timeout.TimeoutQueue.constructor | timeout.c:104-108 | an empty queue, nothing armed |
| Timeout.TimeoutQueue.Recalc | timeout.c:46-63 | the event loop's timer is cancelled if the queue is empty, and else set to the first deadline, or the next millisecond |
| Timeout.TimeoutQueue.Descend | timeout.c:131-132 | whatever nodes the search compares with, it ends behind all keys not later and before all later ones |
| Timeout.TimeoutQueue.Set | timeout.c:116-138 | the timer has the true deadline `now + msecs`, the tree is the ordered list of all true deadlines again, and the callback is armed in time |
| Timeout.TimeoutQueue.Cancel | timeout.c:140-148 | the timer is gone, the rest keeps its order, and the callback stays armed in time without re-arming |
| Timeout.TimeoutQueue.Rearm | timeout.c:100-100 | after the drain the callback is armed for the first deadline, or not at all |
| Registry.Registry.constructor | sta.c:210-214 | the empty tables satisfy the invariant |
| Registry.Registry.StaGet | sta.c:129-149 | the station exists afterwards, nothing else changes |
| Registry.Registry.FindEntry | sta.c:83-99 | the one entry of the pair, or the certainty that there is none |
| Registry.Registry.StaInfoGet | sta.c:83-115 | the entry of the pair; a new one is linked at the front of both lists, and only if there was none |
| Registry.Registry.StaInfoDel | sta.c:42-58 | exactly the entry, its timer and its places in both lists go, and its station if it had no other |
| Registry.Registry.NodeCleanup | sta.c:60-70 | exactly the node's entries and timers go; all other lists keep their order; the remembered next entry is always alive |
| Registry.Registry.UpdateTimeout | sta.c:118-127 | disarmed if connected, armed for `now + timeout`, or freed if the timeout is not positive |
| Registry.Registry.StaInfoUpdate | sta.c:151-163 | signal, time and timer of the entry, all else unchanged, deadlines not before last sight plus timeout |
| Registry.Registry.TimeoutCb | timeout.c:77-101 | the drain frees the due timers in deadline order, each once and none early, leaves future ones, re-arms for the first, and frees local entries only when unseen for the whole timeout |
| Registry.Registry.FireDue | timeout.c:89-97 | one walk fires the beginning of the queue that is due at its reading and stops there |
| Stations.CleanupMeaning | sta.c:60-70 | after cleanup: the entries of other nodes unchanged, the stations that still have an entry, their lists in order |
| Stations.UnlinkIsDelete | sta.c:42-58 | unlinking from the two lists the entry names removes it from every list there is |
| Stations.DeleteKeepsIndex | sta.c:42-70 | freeing any set of entries keeps both lists the same set, one entry per pair, and no empty station |
| Stations.AddKeepsIndex | sta.c:103-110 | linking a new pair keeps both lists the same set with one entry per pair |
| Lists.MinusAt | sta.c:51-52 | unlinking an element cuts it out and keeps the order of the others |
| HearingMap.Cleanup | hearing_map.c:252-258 | the walk that frees as it goes leaves exactly the reports that are neither of the BSSID nor expired, in order |
| HearingMap.Insert | hearing_map.c:284-297 | the new report in front of the others that are not of its access point and not expired |
| HearingMap.LatestMembers | hearing_map.c:296-297 | the reference keeps exactly the reports that no later one of the same access point supersedes |
| HearingMap.LatestDistinct | hearing_map.c:296-297 | and one per access point |
| HearingMap.ViewMembers | hearing_map.c:60-74 | the reference holds exactly the latest report of each access point not older than the timeout in milliseconds, in 32 bits |
| HearingMap.CacheIsView | hearing_map.c:60-74 | after any run of insertions and sweeps the cache is the full log read newest first, latest per BSSID, unexpired |
| HearingMap.GapMonotone | hearing_map.c:227-235 | the gap between rows grows with the signal and stays strictly within the modifier |
| HearingMap.GapInNumbers | hearing_map.c:227-233 | the gap exactly: at d above -60 dBm longer than the configured one by the modifier times d / (d + 1), and at d below it shorter by as much |
| HearingMap.NextBand | hearing_map.c:197-217 | the first other band after the current one, or the first of all |
| HearingMap.RequestCheck | hearing_map.c:219-249 | when a request is sent, its mode, the row's sweep and the next band |
| HearingMap.AskedWhenDue | hearing_map.c:219-250 | a request is sent exactly on another band or once the gap has passed; one on the own band begins a row: its time, the count of failed rows, the sweep |
| HearingMap.ModeInNumbers | hearing_map.c:184-194 | the mode in the frequency and the number of failed rows |
| HearingMap.ModesOfRun | hearing_map.c:173-195 | in a run of checks without reports each request's mode goes by the rows begun until then, counted in a byte |
| HearingMap.RequestsCycle | hearing_map.c:197-249 | over any run of checks the j-th request is for the j-th next band of the cycle |
| HearingMap.EachBandOncePerCycle | hearing_map.c:197-249 | any n requests in a row ask for each of the n local bands exactly once |
| HearingMap.RowsAreSpaced | hearing_map.c:233-243 | any two rows of a run are at least the later one's gap apart |
| Roam.KickFollowsNotice | policy.c:372-388 | every kick comes at least the kick delay after a notice to the client, with no examination in between that finds it disconnected, strong, active or kicked lately |
| Roam.WaitingHasReason | policy.c:320-370 | a client that waits for its kick does so since an examination that found it a better access point, or at which all its scan tries were used up |
| Roam.NoticeHasReason | policy.c:372-378 | a notice goes to such a client only, and only when it is not strong |
| Roam.KickHasReason | policy.c:372-388 | and a kick comes the delay after such a notice, with the reason before it |
| Roam.ScanDoneHasReason | policy.c:333-356 | a client counts as scanned only with a better access point, or when heard since the scan began |
| Roam.ScanIsTriggered | policy.c:329-347 | exactly when a client is told to scan |
| Roam.UnfitRests | policy.c:411-415 | an examination that finds a client disconnected, strong, active or kicked lately puts it to rest and says nothing |
| Roam.KicksAreSpaced | policy.c:379-412 | two kicks of a client are at least a trigger interval and a kick delay apart |
| Roam.OtherKicksRest | policy.c:411-412 | after a kick by another pass the machine does not kick for the trigger interval |
| Roam.TriesBounded | policy.c:292-318 | for 1 to 255 tries: tries are counted while scanning only, and never beyond the configured number |
| Roam.GivingUpScans | policy.c:329-347 | scanning is given up after exactly the configured number of triggers and a scan interval for each and one more |
| Roam.TooManyTriesNeverGiveUp | policy.c:339-343 | at 0 and above 255 tries it is never given up, as the counter is a byte |
| Roam.BoundedProgress | policy.c:320-424 | an idle, weak, inactive client without a better node, examined every p ms, is kicked within the stated time |
| Roam.StaleScansLoop | policy.c:333-363 | a client at most scanning, with a candidate and scan results gone stale, is told nothing by any number of examinations |
| Roam.StaleScansAlternate | policy.c:333-363 | and staying weak and inactive it goes back and forth between scanning and having scanned, for ever |
| Roam.FreshScanLeadsOn | policy.c:358-378 | with a candidate after a scan, a weak client gets its notice two examinations on exactly if the results are not stale |
| Blocking.BlockTimeoutAgrees | sta.c:189-193 | which elapsed times clear the refusals, and exactly when that agrees with the timeout |
| Blocking.ForgottenAtOnce | sta.c:189-193 | with the default timeout one millisecond clears them |
| Blocking.ForgetsMeaning | sta.c:189-193 | in terms of the time between two requests, for any times |
| Blocking.RetryLimit | sta.c:189-202 | for any run of requests, one the policy would refuse is answered exactly if it is the (limit + 1)-th in its row, or a multiple of that |
| Blocking.LimitReachedExactly | policy.c:209-213 | the limit comes into effect in a run exactly if so many come in a row |
| Blocking.RefusedForEver | sta.c:189-202 | requests at different times are refused for ever, so the retry limit is never reached |
| Blocking.BurstIsAnswered | policy.c:209-213 | within one millisecond every (limit + 1)-th request is answered |
| Blocking.CountersCount | sta.c:187-202 | over any run the other counters are the number of requests and of refusals, in 32 bits |
| Kicking.SearchIsLocal | policy.c:129-184 | a search depends on the entry, its station's list and the entries in it only |
| Kicking.KickableInNumbers | policy.c:252-278 | a client can be kicked exactly if it is connected and its bit rate is below the configured one |
| Kicking.ChoiceGrows | policy.c:280-290 | the choice is the end of the chain that begins with the first client and goes on to the next that was kicked no more often and is weaker; one more client folded in keeps that |
| Kicking.BestIsUndominated | policy.c:280-290 | nobody on the whole list was kicked no more often than the choice and is weaker, though the comparison is not total |
| Kicking.BestIsUnique | policy.c:280-290 | and the list determines the choice |
| Kicking.LoadPassRuns | policy.c:472-490 | the load pass goes ahead exactly when the ticks in a row at or above the threshold are a positive multiple of the delay ticks plus one |
| Kicking.LoadPassNeedsHighLoad | policy.c:472-490 | so the last delay ticks plus one were all at or above the threshold |
| Kicking.DelayTicksLast | policy.c:480-481 | the rounded-up delay is the least number of ticks that last it, exactly if the 32-bit sum does not wrap |
| Policy.FindBetterCandidate | policy.c:129-184 | finds what the search finds, of which `SearchMeaning` and the lemmas in numbers speak; only an unconnected entry of the reported node may be new |
| Policy.CheckRequest | policy.c:200-250 | accepts exactly the requests `AcceptsInNumbers` describes, in the state before |
| Policy.RoamSetState | policy.c:292-318 | the machine's change of state in the entry, all else unchanged |
| Policy.RoamTriggerSm | policy.c:320-392 | one step of the machine of whose runs `Roam` speaks, for the entry, with its notices; a kick also disconnects |
| Policy.RoamCheck | policy.c:394-424 | every client up to the first one kicked, or every client, makes its own step from the state before the pass; the others are untouched |
| Policy.NotYetLooked | policy.c:410-423 | what the pass did to earlier clients does not change the search for the next one |
| Policy.LookInNumbers | policy.c:395-423 | exactly which clients the machine moves on for, in the numbers of entry, node and settings, and what it is told; the others rest |
| Policy.EventsInOrder | policy.c:410-423 | the messages of the pass come in the order of the clients |
| Policy.RoamKicksWeakOnes | policy.c:411-413 | the roam pass kicks only connected, inactive, weak clients not kicked within the trigger interval |
| Policy.KickClient | ubus.c:516-531 | the client is disconnected, the time noted, the kick reported |
| Policy.SnrKick | policy.c:426-455 | kicks a client only if it is connected, its bit rate below the configured one and its signal below noise (or -95) plus the configured ratio; nobody exactly if there is none such, or no ratio is configured |
| Policy.WeededInNumbers | policy.c:426-455 | it is the first such client of the list; it is disconnected, the kick noted and counted, all other entries unchanged |
| Policy.PickLoadKick | policy.c:499-525 | the choice of `ChoiceGrows` among the idle clients with a better node, or among all idle ones if none has |
| Policy.LoadKick | policy.c:468-533 | when the pass goes ahead, the counter, and that exactly the choice is kicked and counted |
| Policy.UnloadedInNumbers | policy.c:468-533 | exactly when a client is kicked, in numbers; which one, and that nobody who could have gone instead was kicked no more often and is weaker; only its entry changes |
| Policy.LocalNodeKick | policy.c:457-533 | the three passes one after the other, each on the tables the one before left, with the counter; at most three clients are kicked, all different, each connected before with a bit rate below the configured one, disconnected after, and reported |
| Events.HandleStaEvent | sta.c:165-208 | the entry, found or new, takes the frame field by field; its statistics and the answer are those of one try with the refusals so far (`Blocking.Answer`), the other kinds' statistics, all other entries and timers unchanged |
| Events.FrameIsTry | sta.c:187-202 | noting the request, deciding it and noting the decision is one such try, refused by the policy exactly if the search finds something, or the client is too weak or too new |
| Events.NewcomerIsRefused | policy.c:227-234 | the first request of a client is refused, unless the initial delay or the limit is 0 |
| Events.HandleEvent | local_node.c:112-145 | the clock is updated first, so the decision and all times noted are those of the event; nobody gets connected |
| Events.HandleBeaconReport | hearing_map.c:260-298 | taken in exactly if the client is known here and the access point is known, stamped and pointing to its entry |
| Poll.MarkAll | local_node.c:227-230 | every connected entry of the node is marked, nothing else changes |
| Poll.PollClient | local_node.c:239-252 | the reported client's entry and its timer after the driver's answer, association, traffic and beacon request; all others unchanged; the request sent |
| Poll.PollLoop | local_node.c:232-255 | after the reports exactly the associated are connected, the rest as marked, the count of them, and the timer of every entry |
| Poll.Sweep | local_node.c:257-265 | what is still marked is disconnected and expires a timeout later, nothing else changes |
| Poll.SetAssoc | local_node.c:216-266 | after a poll exactly the clients reported associated are connected, nobody is left marked, the others expire after the timeout, and the count is right; for every entry of the node all its fields, whether and when its timer is due, and exactly which beacon requests were sent |
| Poll.ChecksAreRun | local_node.c:239-252 | the reports about a client are a run of checks of its hearing map, so what is proved of runs holds of the requests of a poll |
| Poll.PolledInNumbers | local_node.c:239-252 | over all reports about a client the last bit rate told counts, it is seen exactly if the driver knew it, and nothing else is touched |
| Poll.NextBandIsNextNode | hearing_map.c:197-218 | asked on the band of one local node, a client is asked on that of the next one next, if no two share a band |
| Poll.DueOfOne | nl80211.c:236-268 | if nobody is reported twice, an answer of the driver arms the timer and nothing else changes it |
| Poll.ConnectedButArmed | local_node.c:239-265 | a connected client has a timer after such a poll exactly if the driver knew it or its timer was armed before |
| Poll.SilenceFrees | timeout.c:77-101 | if nothing follows such a poll for the timeout, exactly these connected clients are freed when due |
| Poll.CountedAddrs | local_node.c:248-255 | the count is never less than the associated addresses, and equal if none is reported twice |
| Poll.ConnectedIsCounted | local_node.c:248-255 | the connected entries are as many as the associated addresses |
| Remote.AddNode | local_node.c:443-454 | a new node with an empty list at its place in the order |
| Remote.DropNode | remote.c:186-192 | the node, its entries and timers and the stations only it knew go |
| Remote.AddStation | remote.c:154-184 | refuses expired entries; else the entry holds the message, its timer the rest of the sender's timeout, all other entries are unchanged |
| Remote.AddStations | remote.c:253-254 | after a whole message each entry of the node is what the last unexpired word about its station says, with its timer; each such station has an entry, and entries of other nodes are unchanged |
| Remote.HandOver | remote.c:385-397 | a live entry handed on arrives with the same signal, state and age, its timer set for exactly the rest of the sender's timeout |
| Remote.TakenWhenAlive | remote.c:385-397 | exactly which entries the receiver takes over, for ages below 2^32 ms: live ones, and those so old that the age wraps |
| Remote.UpdateNode | remote.c:238-251 | the attributes are replaced and the age is reset |
| Remote.CheckTimeout | remote.c:441-451 | exactly the nodes above the limit go with exactly their entries; the others are one interval older |
| Remote.LimitInTime | remote.c:445-445 | the limit is as many whole intervals as fit into the timeout |
| Remote.AgedIsTick | remote.c:447-450 | a pass is one silent interval for each node, in the run of its own messages and intervals |
| Remote.FreedWhenSilent | remote.c:441-451 | over any run a node is freed exactly when it was silent for the limit plus two intervals in a row |
| History.LivesGoOn | policy.c:394-424 | if each entry took one input or none, as the tables and the messages to hostapd show, every entry has a life that explains its state and all messages about it |
| History.FrameMoves | sta.c:183-183 | a frame is one input of the machine of its client and of no other |
| History.BeaconMoves | hearing_map.c:284-297 | a report taken in is one operation on the cache of its client |
| History.PollMoves | local_node.c:232-255 | a poll moves no machine, sweeps caches at most, and only asks for beacon reports |
| History.RoamMoves | policy.c:410-422 | in the roam pass each client looked at takes its own examination, and the messages are exactly the machines' |
| History.SignalPassMoves | policy.c:426-455 | the signal pass is a kick from outside for the client kicked, and nothing for the others |
| History.LoadPassMoves | policy.c:468-533 | and so is the load pass, whatever entries its searches make |
| History.LifeIsRun | policy.c:292-424 | the life of an entry is a run of the roam machine that ends in the state the tables hold, so all that is proved of runs holds of it |
| History.KicksAreAnnounced | policy.c:372-388 | every kick of a client among the daemon's messages is by another pass, or comes at least the kick delay after a notice among the messages, with no unfit examination in between |
| History.MessagesCounted | policy.c:333-392 | since an entry was made, hostapd was told to let the client scan, to notify and to kick it exactly as often as the machine of its life says, and the other passes |
| History.TableCacheIsView | hearing_map.c:60-74 | the cache of every entry in the tables is the view of the log of the reports accepted for it |
| History.DaemonRetryLimit | sta.c:189-202 | a request of a client the policy would refuse is answered exactly if, counting all requests it ever made here, it is the (limit + 1)-th in its row, or a multiple |
| History.DaemonCounters | sta.c:187-202 | the counters of every entry are the numbers of its requests and refusals, in 32 bits |
| Chronicle.GrowsOn | sta.c:165-208 | if each entry took at most one input, one cache operation and one request, the lives so extended explain tables, statistics and trace again |
| Chronicle.FrameHappened | sta.c:165-208 | a frame is one input and one request in the life of its client, and nothing in any other |
| Chronicle.BeaconHappened | hearing_map.c:260-298 | a report is one operation on its client's cache, exactly if both client and access point are known |
| Chronicle.TickHappened | policy.c:457-533 | a tick puts into each life its examination, and its kick by one of the other passes |
| Chronicle.OthersHappened | timeout.c:77-101 | expiry, ageing, and nodes that come, change and go put nothing into the lives of the entries left |
| Daemon.PollIsSettled | local_node.c:255-265 | a poll leaves every local node with a count of at least its connected entries |
| Daemon.FewerIsSettled | local_node.c:255-265 | and whatever connects nobody keeps it so |
| Daemon.Start | main.c:133-160 | the start satisfies the whole invariant |
| Daemon.DoFrame | local_node.c:83-151 | a frame keeps the whole invariant; the entry of its client takes kind, signal and time, its timer is put off or stopped, the answer is that of one try, all else is unchanged |
| Daemon.DoBeacon | hearing_map.c:260-298 | a report keeps it; it is in front of the client's others, of which the expired and those of its access point go, exactly if client and access point are known |
| Daemon.DoClients | local_node.c:268-293 | a poll's answer keeps it; exactly the clients reported associated are connected, the node counts them and has the frequency told, every entry, timer and request as `SetAssoc` says |
| Daemon.DoKickTick | local_node.c:406-430 | a tick keeps it; the three passes, their messages, and in numbers whom they kick |
| Daemon.DoNodeMessage | remote.c:223-255 | a message of another access point keeps it; the node is there with the attributes told and age 0, each of its entries as the last word about it says, all else unchanged; out of place it changes nothing |
| Daemon.DoUpdateTick | remote.c:482-500 | ageing keeps it; exactly the nodes above the limit go, with exactly their entries and timers, the others are an interval older |
| Daemon.DoLocalInfo | local_node.c:297-320 | new attributes of a local node keep it; they are all that changes, and the count of clients is kept |
| Daemon.DoLocalUp | local_node.c:436-457 | a new local node keeps it; it is at its place without entries, its load counter 0 |
| Daemon.DoLocalDown | local_node.c:54-72 | the removal of a local node keeps it; the node is gone with its entries, their timers and the stations only it knew, all else is unchanged |
| Daemon.DoTimers | timeout.c:77-101 | expiry keeps it; exactly the entries freed are gone, in the order of their deadlines and none early, and nothing due is left |
| Daemon.Do | sta.c:32-208 | any operation at any time keeps the invariant: both lists the same entries, one per pair, no empty station, timers and reports of live entries only, no early deadline, counts not below the connected; it has its effect as the rows above say, and the lives go on by exactly what it puts into them |
| Daemon.ConnectedIsFreed | sta.c:72-81 | a run in which the entry of a connected client is freed by its timer |

## Left out

- Sockets, ubus, netlink, message and JSON parsing, logging, scripts, and loading the settings: their effects on the state are parameters or trace events; messages are taken as parsed, addresses as valid.
- The inner rotations of the AVL trees and the event loop's scheduling: their usual contracts are assumed, with equal keys in insertion order.
- Clock lag: operations on the timer queue require that no pending deadline was missed by 2^31 ms (`Timely`); `OutsideTheWindow` shows that the order is wrong beyond that.
- `usteer_timeout_flush` and callbacks that re-arm during a drain: the station registry uses neither.
- Overflow of sums of client counts and thresholds, of signals and of kick counts beyond `int`: these are unbounded here.
- Float rounding in the gap between beacon requests: the gap is real.
- The byte counters behind `usteer_get_client_active_bits`: an entry has the resulting bit rate, which a poll may replace.
- `seen_2ghz`, `seen_5ghz` and `scan_band`: written, never read by the decisions modelled.
- The request state of a local node (`req_state`), neighbor report lists and the choice of neighbors in a notice: they do not touch the state modelled.
- Names and ids of nodes: nodes are numbers, and where a new one goes in the order is a parameter; `remote_node_cmp` truncates, so its lookup is not claimed to be unique.
- Channel and operating class tables, SSID filtering, and the time-to-live display of reports.
- Messages sent to other access points: `StaMessage` is their content, `HandOver` what it means on arrival.
