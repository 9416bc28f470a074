# Verified models of a WISP monitoring server

This project restates the algorithmic cores of a monitoring server for wireless and fibre
internet providers in Dafny and proves what they are for. Each module follows one source file.

- **The fibre plant** (`FibrePlant`, `Trace`, `TraceLaws`, `PonReach`, `FeedMap`, `Spans`): cables
  with two ends, joints that splice one core to one core, guarded edits. Splices form a matching,
  so a core lies on one open run or one ring; `trace` finds it, `pon_of_points` carries PON ports
  along it, `feed_map` is a shortest-path forest, `connected_spans` says which boxes glass joins.
- **Trees of boxes** (`Parents`, `Assignment`, `Drops`): climbing parent maps that may be cyclic,
  who is paged for a box and who may see it, and which passive branch went dark.
- **Live ping** (`LivePing`, `LivePingHub`, `LivePingLaws`, `LivePingChannels`, `LivePingReads`,
  `LivePingExact`): the hub as session objects updated in place, tied to a state machine; safety and both reading channels
  over every order of the calls, for a clock that never goes back.
- **RADIUS linking** (`Radius`, `RadiusLink`, `RadiusLaws`): customers paired with ONU slots by MAC,
  then by name, refusing whatever is ambiguous.
- **The web proxy** (`AssetCache`, `Throttle`, `ProxyHub`, `ProxyLaws`): a bounded cache, a throttle that
  steps down and up, and requests matched to replies over every interleaving of threads.
- **Rates and money** (`TrackRate`, `Calendar`, `Metering`, `Ledger`): a token bucket per key with
  eviction, and the postpaid ledger that catches up day by day in whole paise.
- **Reports** (`MapSums`, `Downtime`, `DowntimeWeeks`, `DowntimeSeconds`, `Digits`, `PdfFile`, `PdfLaws`,
  `PdfDetails`, `Widths`): downtime by day and week, a PDF file byte by byte with a reader that follows it (sections 7.5.4 and 7.5.5 of
  ISO 32000-1), and a table's column widths.

`Options` and `Sets` hold the optional value and the visiting of a set in no particular order.

Points, devices and day numbers are integers. Times, tokens and widths are real numbers where
the source has floats. The clock is an argument of each operation. Python dictionaries that are
walked in insertion order are sequences of rows; sets and dictionaries whose order does not matter
are visited in arbitrary order. The overlap loop that `analytics.py` writes out twice, for days
and for weeks, is written once.

Where the code does not do what one would expect of it, the model follows the code:

- `AssetCache.get` can serve a reply older than the last put of its key: a body too big to store
  is turned away before the stored one is looked at. `HitIsLastAdmitted` gives the exact
  condition and `StaleHit` an input.
- `LivePingHub.for_device` compares start times with a strict order, so a session reopened within
  one tick of the clock is hidden behind the stopped one. `PanelShowsLive` gives the exact
  condition and `PanelCanMiss` an input.
- `_build` writes offsets in at least ten digits, not at most, so a file can grow past what its
  table can say. `BuiltFileReads` gives the exact condition and `OversizeUnread` an input.
- `_solve_widths` falls back to the number of columns when the splitting columns weigh nothing in
  all, and then hands out nothing. `FillsExactly` gives the exact condition, over the columns,
  their needs and the page, and `WeightlessGetsNothing` an input.
- `TrackRate` with no keys allowed raises on the first call; `Allow` has that outcome.
- Two panels that hold one username with one MAC are both refused: the earlier panel does not
  always win. `CandidateLinked` says exactly when a heard claim wins, and `EarlierPanelLoses` is
  an input where it does not.

Assumed of the inputs, because the rest of the server guarantees it: cable ids are unique and a
cable's two ends differ (`src/wisp/central/inventory.py:564-565`); a username is listed once in a
panel (`src/wisp/central/store.py:1013`); a slot has one row in the ONU list
(`src/wisp/central/store.py:501`); session names drawn at random are never drawn twice; the ledger
ignores an insert on a day it has.

## Model

| member | source | states |
|---|---|---|
| FibrePlant.TakenAt | src/wisp/central/fiber.py:522-530 | the cores with a joint at a point are exactly the keys, and the last joint naming a core is the one kept |
| FibrePlant.PortsTakenAt | src/wisp/central/fiber.py:469-479 | as `ports_taken_at`: the ports some joint at the point uses, each under its kind and normalised ref |
| FibrePlant.TakenMeaning | src/wisp/central/fiber.py:522-530 | a core is taken at a point exactly when some joint there names it |
| FibrePlant.PortsMeaning | src/wisp/central/fiber.py:469-479 | a port is taken at a point exactly when some joint there uses it |
| FibrePlant.JoinKeepsWellFormed | src/wisp/central/fiber.py:427-448 | a joint the refusal test lets through leaves every core end in at most one joint, every port in at most one, and every joint on cores that end there |
| FibrePlant.UnjoinKeepsWellFormed | src/wisp/central/store_devices.py:1184-1200 | taking any joint away keeps the plant well formed |
| FibrePlant.MoveKeepsWellFormed | src/wisp/central/store_devices.py:661-790 | moving any set of cable ends at once keeps the plant well formed, ports included |
| FibrePlant.RefusalMeans | src/wisp/central/fiber.py:427-448 | each reason to refuse a joint is given exactly when the plant is so: a core not ending there, itself, a port on a splice, a core in use there, a port in use there |
| FibrePlant.JoinedExactly | src/wisp/central/fiber.py:427-448 | a joint is made exactly when both cores end at the point, are two, no port goes with a splice, neither core is used there, and the port is free; otherwise the plant is as before |
| FibrePlant.LaidExactly | src/wisp/central/store_devices.py:580-602 | laying a cable adds it and touches nothing else |
| FibrePlant.ReendCosts | src/wisp/central/store_devices.py:645-658 | giving a cable other ends loses exactly the joints it has at a point it no longer ends at |
| FibrePlant.ScrapCosts | src/wisp/central/store_devices.py:910-922 | a scrapped cable takes exactly the joints that name it along |
| FibrePlant.UnjoinCosts | src/wisp/central/store_devices.py:1184-1200 | undoing a joint takes away that one only |
| FibrePlant.MovedExactly | src/wisp/central/store_devices.py:661-720 | a move that names no cable there, goes nowhere or would lose a cable somebody laid changes nothing; otherwise exactly the named ends move, and cables left with both ends at one point go |
| FibrePlant.MoveCosts | src/wisp/central/store_devices.py:722-790 | after a move exactly those joints are there that no collapsed cable had and that were not pulled apart, carried to the new point when their cables moved, each with its port unless that is spoken for there |
| FibrePlant.ApplyKeepsWellFormed | src/wisp/central/store_devices.py:580-658 | every edit (laying, joining, unjoining, re-ending, moving, scrapping) keeps the plant well formed, refused or not |
| FibrePlant.RunsAreWellFormed | src/wisp/central/fiber.py:427-499 | every plant reached from the empty one by any run of edits is well formed |
| Trace.Continuity | src/wisp/central/fiber.py:502-514 | the cores a core is spliced to at a point, in joint order |
| Trace.SplicedMeaning | src/wisp/central/fiber.py:502-514 | a core continues in another at a point exactly when a joint there splices the two |
| Trace.Matching | src/wisp/central/fiber.py:502-514 | on a well formed plant splices form a matching: one continuation at most, mutual, both cores ending there, and no termination beside it |
| Trace.Walk | src/wisp/central/fiber.py:545-566 | the walking loop, in place over a used set, gives the walk of the recursive specification on every plant, well formed or not; it ends because each step uses a new core |
| Trace.Trace | src/wisp/central/fiber.py:533-581 | the whole `trace`: missing cable, both walks, the backward walk's fault before the forward one's, the hops put together, the end terminations |
| TraceLaws.RevisitIsStart | src/wisp/central/fiber.py:545-566 | a walk that meets a core it has crossed meets the one it set out from |
| TraceLaws.WalkOutcome | src/wisp/central/fiber.py:545-566 | a walk on a well formed plant either stops where the glass is not spliced on or comes back to its start; it never forks |
| TraceLaws.OkTraceIsWholeRun | src/wisp/central/fiber.py:533-581 | a trace without fault is the whole run through the core: linked hops, open at both ends, no core twice |
| TraceLaws.TraceOfMember | src/wisp/central/fiber.py:533-581 | tracing any core of a whole run gives that run or its reversal |
| TraceLaws.TraceReadsTheSame | src/wisp/central/fiber.py:533-581 | tracing from any core on a faultless trace gives the same hops or their reversal |
| TraceLaws.RingReportsLoop | src/wisp/central/fiber.py:533-581 | if a trace is faulty every core on it reports a loop, the first one included |
| TraceLaws.RingClosesWhereItBegan | src/wisp/central/fiber.py:533-581 | a loop is a real ring: distinct cores, each spliced to the next and the last to the first |
| TraceLaws.NoHalfRing | src/wisp/central/fiber.py:568-581 | a walk that stops one way cannot close up the other way |
| TraceLaws.TraceHopsMeet | src/wisp/central/fiber.py:568-581 | the hops of any trace, faulty or not, well formed plant or not, chain end to end |
| TraceLaws.FaultStandsAtAnEnd | src/wisp/central/fiber.py:545-576 | on any plant, the fault and its point are what stands at an end of the hops: fork where the glass goes on into several cores, loop where into one, the first hop's end read first, and none exactly when it goes on at neither |
| TraceLaws.TraceTells | src/wisp/central/fiber.py:533-581 | the points are where the hops lead, the two ends the last joints listed that land the glass on equipment before the first hop and after the last, and the core asked about is crossed from its a end; a missing cable gives nothing |
| TraceLaws.LoopIsAtTheBEnd | src/wisp/central/fiber.py:568-576 | a ring is reported at the b end of the cable asked about |
| TraceLaws.TraceAfterEdits | src/wisp/central/fiber.py:427-581 | after any run of edits: no fork, missing only for a missing cable, a faultless trace whole and distinct, a ring reported at the b end, nothing else with a place of fault, true ends, and every core on a trace agreeing with it |
| PonReach.Follow | src/wisp/central/fiber.py:629-642 | following one PON end to where its walk lands, as the specification has it |
| PonReach.PonOfPoints | src/wisp/central/fiber.py:615-649 | each point says none, the one source, or conflict exactly as the sources arriving there are none, one, or several, in whatever order the ends are visited |
| PonReach.ReachAgreesWithTrace | src/wisp/central/fiber.py:615-649 | the one-way walk from a PON end arrives at a point exactly when the full trace of that core lands there |
| PonReach.PonOfPointsMeaning | src/wisp/central/fiber.py:615-649 | in terms of traces: a point maps to a source exactly when it is the only source whose run ends in a termination there, and to a conflict exactly when two distinct ones do |
| FeedMap.BuildAdjacency | src/wisp/central/fiber.py:661-667 | the adjacency lists: sorted, and holding exactly the linked neighbours, self loops left out |
| FeedMap.Flood | src/wisp/central/fiber.py:678-694 | flooding from one rank's roots claims every point by a least neighbour one hop nearer, and touches nothing already claimed |
| FeedMap.FeedMap | src/wisp/central/fiber.py:652-695 | the feed is a shortest-path forest from the leading roots: defined exactly on the flooded points outside them, each fed by its least neighbour one hop nearer |
| FeedMap.FeedChain | src/wisp/central/fiber.py:652-695 | the chain of feeds from a point reaches a leading root, and its length is the one number of hops the point is away |
| FeedMap.FeedIsUnique | src/wisp/central/fiber.py:652-695 | the forest depends only on which points are linked: any order or repetition of edges gives the same map |
| FeedMap.SomeoneLeads | src/wisp/central/fiber.py:668-694 | wherever a root with a cable reaches, a root of least rank leads |
| FeedMap.FedWhereRooted | src/wisp/central/fiber.py:652-695 | in a component with a root exactly the points outside the leading roots are fed, and in one without none are |
| FeedMap.LeadersShareRank | src/wisp/central/fiber.py:668-694 | no root of a component outranks its leaders, so a deeper root seeds only where no shallower one reaches |
| Spans.ReadCables | src/wisp/central/fiber.py:719-754 | the first pass: sheath sizes, adjacency, and the best direct cable for each pair |
| Spans.Explore | src/wisp/central/fiber.py:755-771 | the search from one box through the closures: every pair it records has a sound walk, and no reachable box is missed |
| Spans.ConnectedSpans | src/wisp/central/fiber.py:698-771 | a pair is recorded exactly when a cable joins it or both boxes lie outside the closures and glass joins them through closures only; each recorded path is a real cable walk labelled by its biggest sheath, ties to the lower id, and a direct cable is never beaten by a smaller label |
| Spans.BiggestIs | src/wisp/central/fiber.py:724-729 | the label of a path is one of its cables that no other cable of it beats |
| Spans.ConnectedPoints | src/wisp/central/fiber.py:774-776 | the pairs alone |
| Spans.Undrawn | src/wisp/central/fiber.py:779-794 | the declared links with both ends placed that no glass joins, each unordered pair once, the first declaration kept |
| Spans.UndrawnIs | src/wisp/central/fiber.py:779-794 | reported are, in the order declared, exactly the first declarations of each pair of boxes the glass does not join |
| Parents.Chain | src/wisp/central/assignment.py:7-15 | the climbing loop ends on every parent map, cyclic or partial, having listed exactly the boxes reached, none twice |
| Parents.OneLine | src/wisp/central/drops.py:173-199 | two boxes above one box are one above the other, cycles included |
| Assignment.ResponsibleUsers | src/wisp/central/assignment.py:4-15 | paged are exactly the users assigned to the box or to a box above it |
| Assignment.Children | src/wisp/central/assignment.py:28-32 | the inverse of the parent map |
| Assignment.ScopeOf | src/wisp/central/assignment.py:25-42 | in scope are exactly the boxes at or below one the user is assigned to |
| Assignment.UpIsDown | src/wisp/central/assignment.py:4-42 | a walk down from one box to another is a climb up back |
| Assignment.PagedIsInScope | src/wisp/central/assignment.py:4-42 | a user is paged for a box exactly when the box is in that user's scope, on every parent map and every assignment |
| Drops.Tree | src/wisp/central/drops.py:154-170 | the tree holds exactly the boxes some passive reaches, each with its own parent |
| Drops.AddUp | src/wisp/central/drops.py:191-203 | one passive's drops are added once to every box of its chain, to all three dictionaries, and nowhere else |
| Drops.Totals | src/wisp/central/drops.py:186-203 | dark and lit at a box count the live drops whose passive reaches it by parent links, and its members are those drops |
| Drops.FaultAt | src/wisp/central/drops.py:205-228 | a box is reported exactly when it is asked for, has no lit and at least two dark drops below, and light still under its parent; what the report says is true of the drops below |
| Drops.BranchFaults | src/wisp/central/drops.py:173-230 | every fault is reported once and truly, nothing else is, most dark drops first and then by box |
| Drops.FaultsAre | src/wisp/central/drops.py:173-230 | in plain counts of the drops as listed: a box is reported exactly when it is asked for, none below it is online, two or more are dark and one under its parent is online, and every count in the report is right |
| Drops.InsertOrders | src/wisp/central/drops.py:229-229 | placing a fault keeps the reporting order |
| Drops.FaultsAntichain | src/wisp/central/drops.py:205-228 | no reported branch lies above another, on any parent map |
| Drops.FaultsDisjoint | src/wisp/central/drops.py:205-228 | no drop is under two reported branches |
| Drops.FaultsClaimOnce | src/wisp/central/drops.py:205-230 | the dark counts of all faults add up to no more than the dark live drops there are |
| LivePing.Find | src/wisp/central/liveping.py:330-332 | the position a session is listed at, or the length of the list |
| LivePing.FindLive | src/wisp/central/liveping.py:213-221 | the first live session on a device |
| LivePingHub.LiveSession.Arrived | src/wisp/central/liveping.py:361-377 | first contact moves the deadline, later contact and contact after the deadline do not |
| LivePingHub.LiveSession.Take | src/wisp/central/liveping.py:336-358 | one wire item: skipped when malformed or not after the last number; an unbelievable round trip is a loss; counts, cursor and ring move together |
| LivePingHub.LiveSession.TakeAll | src/wisp/central/liveping.py:336-358 | a batch, item by item |
| LivePingHub.Hub.constructor | src/wisp/central/liveping.py:163-176 | the clamps: five seconds at least, two hundred milliseconds at least, infrastructure never faster, one session at least |
| LivePingHub.Hub.ReapLocked | src/wisp/central/liveping.py:183-190 | overdue sessions end and raise their probe's version; sessions past lingering are dropped |
| LivePingHub.Hub.Start | src/wisp/central/liveping.py:198-233 | joins the live session on the device, refuses at the ceiling, or opens one: exactly the step of the state machine |
| LivePingHub.Hub.Stop | src/wisp/central/liveping.py:259-289 | reaps first; refuses unknown, foreign, other node's and already stopped sessions; otherwise stops and raises the version |
| LivePingHub.Hub.Ingest | src/wisp/central/liveping.py:320-359 | a report reaches only its own node's session and only while it is live |
| LivePingHub.Hub.MarkPickedUp | src/wisp/central/liveping.py:379-386 | first contact for every live session of a probe |
| LivePingHub.Hub.Get | src/wisp/central/liveping.py:235-239 | the session under a name, after reaping |
| LivePingHub.Hub.ForDevice | src/wisp/central/liveping.py:241-257 | the session started last on a device, the earlier listed on a tie |
| LivePingHub.Hub.OrgLiveCount | src/wisp/central/liveping.py:303-307 | how many sessions of an organisation are live, after reaping |
| LivePingHub.Hub.NodeHasWork | src/wisp/central/liveping.py:309-316 | whether a probe has a live session |
| LivePingHub.Hub.Read | src/wisp/central/liveping.py:291-301 | the samples after the cursor together with the next cursor |
| LivePingHub.Hub.Exchange | src/wisp/central/liveping.py:388-417 | one pass of the long poll: answers exactly when there is something to deliver, the version has moved, or time is up, with the version and the live sessions of the same moment |
| LivePingLaws.StepSound | src/wisp/central/liveping.py:183-386 | every operation keeps the hub sound as long as the clock does not go back and names are fresh |
| LivePingLaws.RunsAreSound | src/wisp/central/liveping.py:183-386 | every run keeps it, and every session found was there before or was opened in the run |
| LivePingLaws.OverIsOver | src/wisp/central/liveping.py:98-103 | over any run a session no longer live is never live again, its stop time, reason and words are never rewritten, and its deadline moves at most once |
| LivePingLaws.GoneIsGone | src/wisp/central/liveping.py:183-190 | a session that has left the list never comes back |
| LivePingLaws.EveryRunIsSafe | src/wisp/central/liveping.py:98-103 | from an empty hub, whatever limits it was asked for: at most one live session on a device, at most the ceiling in an organisation, an unstopped session live exactly until its deadline, the budget after first contact or the arming time, and a stop time exactly with a reason |
| LivePingLaws.PanelShowsLive | src/wisp/central/liveping.py:241-257 | the panel of a device with a live session shows it exactly when no session still listed from before was started at the same moment |
| LivePingLaws.PanelCanMiss | src/wisp/central/liveping.py:241-257 | and it can fail: stopped and reopened within one clock tick, the panel shows the stopped session |
| LivePingChannels.StepNews | src/wisp/central/liveping.py:178-190 | no operation changes the set of unstopped sessions of a probe without raising its version, and none lowers a version |
| LivePingChannels.WorkIsWanted | src/wisp/central/liveping.py:388-417 | once reaped, the sessions a probe is told of are exactly its unstopped ones, in order |
| LivePingChannels.SameVersionSameSessions | src/wisp/central/liveping.py:388-417 | two answers to a probe with one version list the same sessions, whatever happened in between |
| LivePingReads.TakeAllHears | src/wisp/central/liveping.py:336-358 | after a batch the ring, cursor and counts differ from before by exactly the accepted samples, in rising order |
| LivePingReads.RunHears | src/wisp/central/liveping.py:320-359 | over any run a session that is still listed took in exactly what the run gave it |
| LivePingReads.ReadReturns | src/wisp/central/liveping.py:291-301 | a read from the last cursor returns the newest of what came in since, and all of it exactly when no more than the ring holds came in |
| LivePingReads.ChainedReads | src/wisp/central/liveping.py:291-359 | reads chained by their own cursors, others interleaved at will, return exactly the accepted samples in strictly rising order while at most 600 arrive between two of them, and sent and lost agree with them |
| LivePingExact.ReapIs | src/wisp/central/liveping.py:183-190 | reaping keeps in order exactly the sessions that ended less than ninety seconds ago or run, the overdue ones stopped at their deadline as expired |
| LivePingExact.StartOpens | src/wisp/central/liveping.py:198-233 | a start opens a session, on the arming clock and with nothing heard, exactly when none runs on the device and fewer than the ceiling run in the organisation |
| LivePingExact.StopEnds | src/wisp/central/liveping.py:259-289 | a stop ends exactly the unstopped session it names, of its organisation and, if a probe asks, of that probe |
| LivePingExact.PollReaches | src/wisp/central/liveping.py:379-386 | a poll starts the budget of each running session of the probe not heard of before, and touches no other |
| LivePingExact.AcceptedIs | src/wisp/central/liveping.py:336-358 | taken in of a batch are exactly the echoes numbered above all before them, with their round trip if it lies within a minute |
| LivePingExact.ReportTakesIn | src/wisp/central/liveping.py:320-359 | a report starts the budget of the running session it names, adds exactly those echoes to its ring and counts, and touches nothing else |
| LivePingExact.WorkIs | src/wisp/central/liveping.py:143-154 | a probe is told of exactly its running sessions, each with the time to its deadline |
| LivePingExact.NothingYet | src/wisp/central/liveping.py:178-181 | a probe that never had a session is at version zero |
| LivePingExact.AfterIs | src/wisp/central/liveping.py:291-301 | a read returns exactly the samples held past the cursor, in their order |
| LivePingExact.EverySessionAccounted | src/wisp/central/liveping.py:183-386 | over any run from an empty hub: every session was started as it stands, first heard from its own probe, and stopped at its deadline or by a stop that named it |
| Radius.Sole | src/wisp/central/radius.py:197-198 | the element of a set of one, and nothing otherwise |
| Radius.CountRows | src/wisp/central/radius.py:224-227 | how many MAC rows a slot has |
| Radius.SlotsForMac | src/wisp/central/radius.py:224-238 | the slots each MAC was learned on, crowded ones left out, and the crowded slots |
| Radius.SlotsForName | src/wisp/central/radius.py:242-248 | the slots each search key names |
| Radius.UsersForName | src/wisp/central/radius.py:250-254 | the usernames under each search key |
| Radius.Claim | src/wisp/central/radius.py:210-216 | one MAC's rows: the one user of the panel listing it first, if there is one, and whether another panel lists it |
| Radius.ClaimsByMac | src/wisp/central/radius.py:201-217 | who holds each MAC, and the number of MACs more than one panel lists |
| RadiusLink.AimOf | src/wisp/central/radius.py:260-269 | where a customer's MAC points: nowhere learned, unclear, or one slot it is a candidate for |
| RadiusLink.Wanted | src/wisp/central/radius.py:259-270 | the candidates of each slot in listing order; with the unclear ones they are all whose MAC was learned anywhere |
| RadiusLink.MacPass | src/wisp/central/radius.py:272-281 | the links by MAC are exactly the sole candidates; linked and ambiguous together are all whose MAC was learned anywhere |
| RadiusLink.TurnOf | src/wisp/central/radius.py:284-299 | what becomes of one customer in the name pass, given the slots taken so far |
| RadiusLink.NamePass | src/wisp/central/radius.py:283-302 | every customer gets its fate, the links are those of the fates, and no slot is given twice |
| RadiusLink.LinkCustomers | src/wisp/central/radius.py:220-304 | the whole of it: links and every counter say exactly what became of each customer |
| RadiusLaws.EveryoneCounted | src/wisp/central/radius.py:220-304 | by MAC, by name, ambiguous by name and unmatched add up to the customers |
| RadiusLaws.LinksInjective | src/wisp/central/radius.py:272-302 | no slot is linked twice and no customer is linked twice |
| RadiusLaws.MacLinkStands | src/wisp/central/radius.py:259-281 | a link by MAC stands on a MAC learned on that one uncrowded slot, held by that one username, with no other candidate |
| RadiusLaws.NameLinkStands | src/wisp/central/radius.py:283-302 | a link by name stands on the one slot of that name, not taken by MAC, and the one username of that key |
| RadiusLaws.CandidateLinked | src/wisp/central/radius.py:246-276 | a customer whose claim to a slot is heard gets it exactly when nobody else, of whatever panel, has both its MAC and its username, and no other MAC points a heard claim at the slot |
| RadiusLaws.SharedHolderRefused | src/wisp/central/radius.py:268-276 | two customers of one username with one MAC are both refused by MAC, whichever panels they are of |
| RadiusLaws.EarlierPanelLoses | src/wisp/central/radius.py:268-276 | an input where the first panel's one holder is heard for a slot nobody goes for under another name, and loses it |
| RadiusLaws.FateUnique | src/wisp/central/radius.py:220-304 | what becomes of a customer is determined by the inputs |
| RadiusLaws.SameFate | src/wisp/central/radius.py:220-304 | a customer's fate is the same under any order of MAC rows, ONU rows and customers that keeps the panels in order |
| RadiusLaws.LinksOrderFree | src/wisp/central/radius.py:220-304 | so are the links as a whole and all seven counters |
| AssetCache.AssetCache.Get | src/wisp/central/proxy.py:79-92 | the stored reply while it is fresh; an expired one is dropped with its bytes; hits and misses counted |
| AssetCache.AssetCache.Put | src/wisp/central/proxy.py:94-108 | refuses what is too big or a cache of no entries; otherwise the key's row is replaced at the end and the oldest are dropped until both limits hold; the byte count stays exact |
| AssetCache.AssetCache.EvictOldest | src/wisp/central/proxy.py:105-108 | the eviction loop |
| AssetCache.EvictHolds | src/wisp/central/proxy.py:105-108 | eviction never drops the newest row, and leaves both limits holding if that row is within them |
| AssetCache.EvictLeast | src/wisp/central/proxy.py:105-108 | no more rows are dropped than need be |
| AssetCache.StoredStays | src/wisp/central/proxy.py:94-108 | after a put the entry just stored is the newest, its key has no other row, and both limits hold |
| AssetCache.RowsAreAdmitted | src/wisp/central/proxy.py:63-108 | over any run each row is the last put of its key that the limits let in |
| AssetCache.HitIsLastAdmitted | src/wisp/central/proxy.py:63-108 | a hit is the last put the limits let in, inside its time to live; it is the very last put exactly when the limits let that one in |
| AssetCache.StaleHit | src/wisp/central/proxy.py:94-97 | it is not always: a body too big to store leaves the older one to be served |
| AssetCache.FreshHit | src/wisp/central/proxy.py:79-108 | a put the limits let in is a hit until its time to live is over, whatever is asked for or put in between, as long as the key is not put again and what was put since fits the limits with it |
| Throttle.Ladder | src/wisp/central/proxy.py:179-181 | strictly falling levels from the most allowed, never none, the last one or two |
| Throttle.DeviceThrottle.MaybePromote | src/wisp/central/proxy.py:170-176 | a step up when the quiet spell is over |
| Throttle.DeviceThrottle.Pass | src/wisp/central/proxy.py:144-154 | one turn of the waiting loop: in when below the level, refused when time is up, waiting otherwise |
| Throttle.DeviceThrottle.Demote | src/wisp/central/proxy.py:161-168 | a step down unless at the bottom, and a new quiet spell either way |
| Throttle.CountIsInside | src/wisp/central/proxy.py:129-176 | the count is those who went in less those who came out, and never passes the top of the ladder, demoted or not |
| Throttle.LevelMoves | src/wisp/central/proxy.py:161-176 | a failure lowers the level one step unless it is at the bottom, an arrival three hours after the last change raises it one step, and nothing else moves it |
| ProxyLaws.OwnedKept | src/wisp/central/proxy.py:379-404 | requests are numbered upwards and each belongs to the one submitter that parked it |
| ProxyLaws.PendingKept | src/wisp/central/proxy.py:379-404 | what is pending is exactly what is still waited for |
| ProxyLaws.AnsweredKept | src/wisp/central/proxy.py:422-430 | whoever holds an answer holds one that a delivery which found the request wrote |
| ProxyLaws.HandedKept | src/wisp/central/proxy.py:411-420 | a request is in its own probe's inbox, or was handed to it, or neither; never twice, never elsewhere |
| ProxyLaws.ThrottledKept | src/wisp/central/proxy.py:346-368 | each throttle counts exactly the submitters between acquire and release |
| ProxyLaws.GrowsOnlyBelow | src/wisp/central/proxy.py:144-154 | a device gains a request only below the level of the moment |
| ProxyLaws.RunSafe | src/wisp/central/proxy.py:346-430 | all of it over every interleaving of the steps of submitters, probes and deliveries |
| ProxyLaws.SubmittersArrived | src/wisp/central/proxy.py:346-358 | the submitters are exactly those that arrived, each with what it asked for |
| ProxyLaws.WaitEnded | src/wisp/central/proxy.py:399-404 | a wait that is over was woken or ran out of time |
| ProxyLaws.AnswersAreOwn | src/wisp/central/proxy.py:346-430 | a finished submit returns nothing only if its wait ran out of time; otherwise an answer the owning probe delivered for that request |
| ProxyLaws.DeliveredComesBack | src/wisp/central/proxy.py:399-430 | a submitter still waiting when its answer is signalled may wake, and then takes its request off the list and returns that answer |
| ProxyLaws.NobodyIsStuck | src/wisp/central/proxy.py:346-404 | whoever is not through can go on: in when below the level and refused only when not, woken exactly when signalled |
| ProxyLaws.MayAnswer | src/wisp/central/proxy.py:422-426 | a probe may answer exactly the requests of its own that are still waited for |
| ProxyLaws.QueueGrows | src/wisp/central/proxy.py:396-420 | a probe's inbox is a queue: a request joins at the end and the first is handed out, and nothing is lost in between |
| ProxyLaws.PolledOnce | src/wisp/central/proxy.py:411-420 | a request is handed to at most one poll, and to its own probe's |
| ProxyLaws.PendingIsUnfinished | src/wisp/central/proxy.py:379-404 | pending are exactly the unfinished submits' requests, and no two submits share a number |
| ProxyLaws.ThrottleCounts | src/wisp/central/proxy.py:346-368 | a throttle's count is who is inside, and at most the top of the ladder |
| TrackRate.TrackRate.Evict | src/wisp/central/field.py:123-130 | full buckets go first, then those touched longest ago until there is room; raises exactly when no key is allowed at all |
| TrackRate.TrackRate.Allow | src/wisp/central/field.py:132-143 | the answer and the new buckets are those of the specification; never more keys than allowed |
| TrackRate.Oldest | src/wisp/central/field.py:128-130 | the first of the buckets touched longest ago |
| TrackRate.AfterTokens | src/wisp/central/field.py:132-143 | a token is taken exactly when a call is let through, and other keys are untouched |
| TrackRate.FullForgotten | src/wisp/central/field.py:123-130 | forgetting a full bucket is not noticed by its key |
| TrackRate.WindowBound | src/wisp/central/field.py:112-143 | in any window, from any state, a key not pushed out before it is full again is let through at most the burst and what the rate adds; and the keys stay within their number |
| TrackRate.RefinesUnbounded | src/wisp/central/field.py:112-143 | a key only ever forgotten when full gets, call by call, the answers of a limiter that forgets nothing |
| TrackRate.FewKeysServed | src/wisp/central/field.py:112-143 | calls with no more keys between them than may be held meet both promises |
| TrackRate.LetThroughAgain | src/wisp/central/field.py:112-143 | a key left alone for the time one token takes is let through |
| TrackRate.NothingLetThrough | src/wisp/central/field.py:132-143 | with a burst below one call nobody ever is |
| TrackRate.BurstServed | src/wisp/central/field.py:112-143 | calls of a new key at one moment are let through up to the burst and no further |
| TrackRate.MinuteBound | src/wisp/central/field.py:115-121 | as configured: in a minute at most the calls a minute and the burst |
| TrackRate.EvictionSpares | src/wisp/central/field.py:123-130 | making room forgets full buckets, and of the others only those touched longest ago, no more than needed |
| MapSums.ListIsTotal | src/wisp/central/analytics.py:103-104 | adding up the listed rows is adding up the dictionary |
| Downtime.SpreadOver | src/wisp/central/analytics.py:94-102 | the overlap loop, of days and of weeks: each bucket gains exactly its overlap, and all together the length of the stretch |
| Downtime.FoldDays | src/wisp/central/analytics.py:76-102 | one device's days after the outages, second for second, and its spans |
| Downtime.DayAvailability | src/wisp/central/analytics.py:66-104 | a row for exactly the days with downtime, in order, with its seconds and number of outages; the seconds add up to the clamped outages of the device |
| DowntimeWeeks.Open | src/wisp/central/analytics.py:143-156 | an outage counts in the week it opened in, when that is inside the window |
| DowntimeWeeks.TakeOutage | src/wisp/central/analytics.py:133-170 | one outage: opening counted, downtime spread over the weeks in the band of the whole outage |
| DowntimeWeeks.WeeklyOutageStats | src/wisp/central/analytics.py:117-182 | every week's row is exact, in order, and all short and long seconds add up to the clamped outages |
| DowntimeWeeks.DaysAndWeeksAgree | src/wisp/central/analytics.py:66-182 | the seconds on the reported day strips of all devices are the seconds of the weekly report, and both are the clamped outages |
| DowntimeSeconds.DaySecondsAre | src/wisp/central/analytics.py:84-101 | a day's seconds are those of the day at which the device's outages were running, second by second |
| DowntimeSeconds.WeekSecondsAre | src/wisp/central/analytics.py:150-165 | and so are a week's, of the long outages and of the others, an outage being long by its whole length |
| DowntimeSeconds.DayOutagesAre | src/wisp/central/analytics.py:90-101 | a day's outages are those the device was down for in it |
| DowntimeSeconds.OpenedAre | src/wisp/central/analytics.py:141-148 | a week's counts are the outages that opened in it, those of them resolved, and those that were long |
| DowntimeSeconds.WeeksBeginOnMonday | src/wisp/central/analytics.py:113-114 | a week begins on a Monday at midnight, a day at midnight |
| DowntimeSeconds.SpansAre | src/wisp/central/analytics.py:76-91 | the spans are the device's outages that lie in the window for a while, down or not, each with its whole length |
| DowntimeSeconds.DayIsADayLong | src/wisp/central/analytics.py:66-104 | if a device's outages do not overlap no day is down for more than 86400 seconds |
| Calendar.DaysIn | src/wisp/central/metering.py:111-112 | between 28 and 31 days |
| Calendar.DatesRise | src/wisp/central/metering.py:103-112 | later day numbers are later dates |
| Calendar.MonthIsRange | src/wisp/central/metering.py:89-112 | the days of a month are its first and as many as it has, and no others |
| Calendar.YearLength | src/wisp/central/metering.py:111-112 | from New Year to New Year is 365 days, or 366 by the Gregorian rule |
| Metering.DailyIsNearest | src/wisp/central/metering.py:117-131 | a day's charge is the nearest whole paise to its share of the month, halves up |
| Metering.CarryKeeps | src/wisp/central/metering.py:220-229 | a backfilled day keeps the prior row's counts, rates, side and effective source, marked, and charged by its own month's days |
| Ledger.Store.InsertAccrual | tools/billing_backfill_month.py:17-18 | insert or ignore on the day |
| Ledger.Store.FillGap | src/wisp/central/billing.py:191-208 | every day of the window before today carries the prior row, if there is one |
| Ledger.Store.AccrueOrg | src/wisp/central/billing.py:162-226 | one organisation's catch-up: what was there stays, the window is filled, today is measured, and the days written are listed in order |
| Ledger.Store.Sweep | src/wisp/central/billing.py:248-262 | nothing accrues while the organisation is exempt or switched off |
| Ledger.NeverRewritten | src/wisp/central/billing.py:162-226 | over any run of sweeps a row is never rewritten or removed |
| Ledger.RepeatWritesNothing | src/wisp/central/billing.py:162-226 | a second sweep on a day writes nothing, whatever it reads |
| Ledger.GapFilled | src/wisp/central/billing.py:167-208 | after a gap exactly the days from the start of the window to today are written |
| Ledger.GapCarries | src/wisp/central/billing.py:191-208 | a day filled in goes on with the last row's counts, rates and source, marked, charged by its own month |
| Ledger.FirstSweep | src/wisp/central/billing.py:191-226 | with no row to carry only today is written |
| Ledger.TodayMeasured | src/wisp/central/billing.py:209-226 | today's row has the count, devices and rates of the reading, held over when the roster was not walked for a day and nobody when not for a week, and charges the nearest paise to a day of the dearer side; a downgrade is flagged exactly when the last row stood on the roster and today's cannot |
| Ledger.SweptPriced | src/wisp/central/billing.py:162-226 | every row stays charged as its own counts and rates say |
| Ledger.MonthTotalClose | src/wisp/central/metering.py:117-131 | a month's total is within half a paise a day of the exact sum of its daily shares, so within half its days in paise |
| Digits.ParseDecimal | src/wisp/central/pdf.py:222-226 | a number written in decimal is read back |
| Digits.ParsePadded | src/wisp/central/pdf.py:222-223 | zero padding changes no value, and ten digits are enough exactly below ten thousand million |
| PdfFile.Build | src/wisp/central/pdf.py:190-227 | the loops write exactly the file of the specification |
| PdfLaws.ObjectStands | src/wisp/central/pdf.py:214-217 | every object stands at its recorded offset |
| PdfLaws.EntryStands | src/wisp/central/pdf.py:218-223 | entries of twenty bytes, each with its object's offset |
| PdfLaws.TableReadsExactly | src/wisp/central/pdf.py:218-223 | the table gives every object its offset exactly when the last object begins before byte ten thousand million |
| PdfLaws.ContentRead | src/wisp/central/pdf.py:211-212 | a stream is read back by its length whatever bytes it holds |
| PdfLaws.PageRead | src/wisp/central/pdf.py:204-212 | each page leads to its own stream |
| PdfLaws.KidsRead | src/wisp/central/pdf.py:192-198 | the kids are the page objects, each once, in order |
| PdfLaws.FileReads | src/wisp/central/pdf.py:190-227 | following startxref, table, trailer, catalog, pages and contents gives back every page stream |
| PdfLaws.BuiltFileReads | src/wisp/central/pdf.py:190-227 | a file `_build` writes is read back exactly when its last object begins before byte ten thousand million; past that the trailer is missed and nothing is read |
| PdfLaws.OversizeUnread | src/wisp/central/pdf.py:218-223 | an input: a page of ten thousand million bytes with another after it, and nothing is read |
| PdfDetails.SizeRead | src/wisp/central/pdf.py:214-226 | the file starts with its version, the table with the free entry, and the trailer gives the number of entries as its size |
| PdfDetails.FontsAndPages | src/wisp/central/pdf.py:192-206 | every page is a child of the list of pages, of A4 size, and its fonts F1, F2 and F3 are objects three, four and five, plain, bold and of even width |
| Widths.Needs | src/wisp/central/pdf.py:89-95 | each column's widest text and the padding |
| Widths.WidestIs | src/wisp/central/pdf.py:91-94 | the widest covers the title and every cell of the column and is attained by one of them |
| Widths.Settle | src/wisp/central/pdf.py:102-116 | the rounds end, with somebody still waiting, and all who wait need more than an even share |
| Widths.SolveWidths | src/wisp/central/pdf.py:85-117 | with room everyone gets its need and a proportional extra; without, the columns that have to share split the rest by weight and all others get their need |
| Widths.SomeoneWaits | src/wisp/central/pdf.py:102-116 | when the needs overflow the loop is never left by running out of columns |
| Widths.SparedFills | src/wisp/central/pdf.py:99-101 | with room the widths fill the page exactly and nobody gets less than it needs |
| Widths.NeedsInProportion | src/wisp/central/pdf.py:99-101 | with room the widths are in proportion to the needs |
| Widths.WeightsInProportion | src/wisp/central/pdf.py:106-111 | of the columns that share the widths are in proportion to the weights |
| Widths.SplitIs | src/wisp/central/pdf.py:102-116 | the columns that share are those whose own need, as a cap on every need, still overflows the page: settled by needs and page alone |
| Widths.SolvedOnce | src/wisp/central/pdf.py:85-117 | columns, needs and page settle the widths |
| Widths.FillsExactly | src/wisp/central/pdf.py:85-117 | the widths fill the page exactly when there is room for every need, or the columns that have to share weigh something together, or the page has no width |
| Widths.WeightlessGetsNothing | src/wisp/central/pdf.py:106-111 | an input: one column without weight on a page too narrow for it gets no width |
| Widths.WidthsFill | src/wisp/central/pdf.py:103-116 | with positive weights they fill it exactly and none is negative |

## Left out

- Text normalisation (`port_key`, `normalise_mac`, `search_key`, ISO date parsing): values are given in normal form.
- Unused plumbing cables that the store drops when their last joint is undone: a scrap after an unjoin here.
- Colours, labels, PON names and the other display helpers of `fiber.py`; `carried_by` and `split_org_cable`.
- Spans.ConnectedSpans: which of several equally good walks is recorded is not fixed, because the source takes the first its search meets.
- The kids lists of `_tree`, which nothing reads; `splitter_loads` and `resolve_drops`, which only count and look up.
- Drops.FaultAt: the ports of a fault are a set here and a sorted tuple of text in the source.
- LivePingHub.LiveSession.Take: the rounding of a round trip to thousandths happens before the model, and a NaN round trip is not modelled.
- LivePingHub.Hub.Exchange: one pass of the loop; other operations run between two passes, and the wait itself is not modelled. The seconds a probe is told are not rounded.
- The fields of `public` that only format a session for the panel.
- ProxyHub: threads are interleaved steps over one value rather than a class with locks; sessions, payload contents, slow-request logging and `inflight` are not modelled. Python's event may report a timeout although it was set at the last moment, and the model allows that.
- ProxyLaws.AnswersAreOwn: says nothing of a delivery that is told it succeeded, because its write is outside the lock and the submitter may already have given up.
- Throttle.DeviceThrottle.Pass: which of several waiting threads is woken is not modelled.
- Fractions of a second in outage times; the percentiles of time to resolve and to acknowledge.
- Invoices (and the stepping back of months they need), dunning and the loop over organisations; malformed stored dates, which the source reads as no date.
- Floating-point rounding in `TrackRate`, `_solve_widths` and session times.
- Text layout of `table_pdf` (`fit`, escaping, pagination) and the characters themselves: a page stream is any bytes.
- PdfLaws.BuiltFileReads: the reader follows this writer's dictionaries, not every dictionary the standard allows.
- SQLite, HTTP, SNMP, WhatsApp, payments, the React front end and every other exchange with the outside.
