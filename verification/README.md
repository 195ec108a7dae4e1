# Verification model of the auction service

This project models the bidding engine of the auction service in Dafny 4.11 and proves its promises
to bidders, to the seller and to the wallet. `dafny verify dfyconfig.toml` checks all of it.

## What is modelled

The **domain session** (`AuctionSession`) decides whether a bid is taken and pushes the end back when a bid
comes late. It is a class with the repository's fields, specified by a value of the same fields.
`NaiveBidding` holds the slow auction that scans its history, and the exact condition under which both agree.

The **stored auction** (`AuctionStore`, `AuctionService`, `AuctionClosure`) is the listing row, the bid rows, the
proxy maxima, the closure job, the outbox and the wallet's holds. `AuctionStore` and `AuctionClosure` give every
service call as a transition on these tables; the class `AuctionService` repeats the service's statements in order
and is proved to make exactly these transitions. `Admission`, `CounterPlan` and `CallGuards` say how a call will go from the
store before it and the answers it will meet; `CallEffects` and `ClosingEffects` what calls, passes and closes leave in
every column. `StoreInvariant`, `CounterInvariant` and `AuctionRuns` prove that every call keeps
the store in order, at success and at every error exit, exactly unless it loses the release of a displaced hold;
`StrayHolds` proves exactly which calls leave a live hold that no row carries, and that it then stays for good;
`LostReleases` what a lost release breaks and what becomes of the displaced hold; `AbandonedJobs` when a worker leaves
a claimed closure job behind, and what ends that.
`AuctionGuarantees`, `Payments`, `AuctionEvents`, `ClosureProgress`, `BidHistory`, `ProxyStability` and
`SessionRefinement` draw the consequences for whole runs, and `AuctionScenarios` gives concrete runs for what fails.

**Bid pages** (`BidTable`, `BidCursor`, `BidPages`) are keyset pages with a printed cursor over the bid rows.
**Many instances** (`MultiInstance`, `MultiInstanceBids`, `MultiInstanceEnds`) interleave the separate reads, inserts and
conditional updates of standard bids.
**The outbox** (`OutboxLeases`, `OutboxHolders`, `OutboxMarks`, `OutboxProgress`, `OutboxBackoff`, `OutboxScheduler`,
`OutboxScenarios`) is drained by workers that select events, lease them by a conditional update, publish them and mark
them.

## Modelling decisions

- One call is one atomic step on one auction. For bidding calls `src/service/auction_bid_lock.rs:7-17` sees to that within
  an instance. `delete_proxy_bid`, the worker pass and the manual close do not take this lock (its only use is
  `src/service/auction_core.rs:194`), so their atomicity is an assumption of the model. `MultiInstance` and the outbox modules
  drop both and interleave single statements.
- The wallet is a ledger of holds. Asking for a hold, releasing it, giving it back after a refused row, and converting it
  may each fail without effect; releasing a hold that is not live changes nothing; a hold that is not live cannot be
  converted. Bid inserts, the closing transaction and the publisher may fail too. Each of these answers is a parameter of
  its call. A given-back hold's answer is ignored by the service, and so it is here.
- A closing transaction commits, fails in a closing statement, which puts the job off, or breaks: it cannot begin, read or
  commit, which leaves the job as it was claimed (`AuctionClosure.Tx`). What breaks is taken to have had no effect.
- Two invariants run through the proofs. `Core` (rows, maxima, status) holds in every run, whatever the calls meet. `Inv`
  adds holds, cached highest, end time and events; it holds while no call loses a release (`Sound`).
- Fresh ids are parameters. They may collide with ids in the table, and then the insert fails.
- Money and times are unbounded integers. The cast from signed to unsigned 64 bits is modelled (`AsU64`), since the
  code applies it to unchecked request fields; overflow near 2^63 is not.
- Creation is given a clock of at least 120 seconds, so that start times are not negative. What creation checks about prices is
  what the proofs use: positive starting price and increment, and a reserve not below the starting price.
- Job and outbox claims follow the SQLite branches. The closure job is returned with its status from before the claim,
  and the settlement retry depends on that.
- Proofs hide the definitions they do not need. Short lemmas with empty bodies hand over the one fact a hidden definition
  would have given.
- `originalEnd` in the lemmas is the end time the auction was created with.

## Where the code differs from what one would expect

- A displaced leader's hold is released before the new leader's hold is asked for (`src/service/auction_core.rs:298-328`).
  If that is refused, the old leader still leads without a hold, and if it wins, settlement can never finish
  (`CallFundsLeaderIff`, `StrandedWinnerNeverSettles`, `AWinnerCanBeStranded`).
- If the counter's row is written and the wallet then fails to release the displaced hold, the call stops before the
  listing follows, and the displaced hold stays live beside the new one (`src/service/auction_core.rs:559-567`). This is the
  one case in which a call leaves rows, holds and listing out of step (`PlaceBidKeepsInvIff`, `ALostReleaseLeavesTwoHolds`);
  `LostReleaseBreaksExactly` says which promise fails when. The guarantees on live holds, on outbid names and on the full
  120 seconds exclude it by `Sound`; the others hold over every run.
- A worker whose closing transaction cannot begin, read or commit returns with the job left PROCESSING
  (`src/service/auction_closure_use_case.rs:36-46`, `src/service/auction_closure_use_case.rs:60-69`,
  `src/service/auction_closure_use_case.rs:126-128`), and the claim takes only PENDING and SETTLING jobs
  (`src/persistence/repositories.rs:678`, `src/persistence/repositories.rs:696`). No worker comes back to it: an open auction
  past its end then waits for a manual close, and a won one whose settlement was being retried never charges its winner
  (`AbandonedIff`, `OnlyAManualCloseHelps`, `AbandonedSettlementIsFinal`).
- A hold taken for a row that is then refused is given back, and the answer is thrown away
  (`src/service/auction_core.rs:347`, `src/service/auction_core.rs:552`). If that fails, or if a raised row's old hold is not
  released, a live hold remains that no row carries, and no later call or settlement ever gives it back (`CallTidyIff`,
  `StrandedForGood`, `ALostUndoLeavesAStrayHold`).
- A standard bid less than an increment above the second-best maximum makes the counter too low. The bid is persisted,
  the call answers with an error, and the bid is never announced (`CounterPlanIff`, `APersistedBidCanBeAnsweredWithAnError`,
  `EveryBidIsAnnouncedIff`). A little further above, the counter is silent although the top proxy could afford it.
- A negative proxy maximum of a bidder who does not lead is accepted, because it is cast before it is compared, and the
  bidder then leads above its own maximum (`ChallengerMaximumPassesIff`, `ProxyRunSettlesIff`, `ANegativeMaximumLeads`).
- A counter exactly 120 seconds before the end of an auction not yet extended leaves the listing ACTIVE where the domain
  session says EXTENDED (`OvertakingCommutesIff`, `ACounterCanMissTheExtension`).
- Nothing in this service activates a stored draft, so an auction created ahead of its start takes no bid (`EarlyAuctionNeverSells`).
- Across instances an accepted bid may not get its 120 seconds: a later winning update can take its extension back, and its
  own losing update drops it (`BidsKeepTheirTimeIff`, `AnExtensionCanBeLost`, `ALosingUpdateDropsItsExtension`).
- An outbox lease can skip a backoff set after its selection, and a mark can free another worker's live lease
  (`LeaseSkipsBackoffIff`, `MarkFreesAnotherIff`, `ALateMarkFreesALiveLease`).
- A failed closing attempt moves the job's due time away from the auction's end until the next bid (`DueAtEndIff`,
  `AFailedClosingPostponesTheJob`).

## Model

| member | source | states |
|---|---|---|
| AuctionSession.ListingAuctionSession.WithStatus | src/listing_auction_session.rs:282-307 | A session rebuilt from stored fields has exactly these and no extensions yet. |
| AuctionSession.ListingAuctionSession.Activate | src/listing_auction_session.rs:309-341 | Succeeds just inside the time window for a draft or open auction, never reopens a finished one, closes one past its end. |
| AuctionSession.ListingAuctionSession.EnsureAcceptingBids | src/listing_auction_session.rs:465-484 | Lets a bid pass just when the auction is open and in its window; any objection is the first one whatever the bidder and amount; lateness closes. |
| AuctionSession.ListingAuctionSession.PlaceBid | src/listing_auction_session.rs:375-417 | Verdict, new leader, end, counter and status are those of the specified session; a rejection changes at most the status. |
| AuctionSession.ListingAuctionSession.PlaceProxyBid | src/listing_auction_session.rs:419-456 | The same for a proxy maximum, with the leader's and the challenger's separate rules. |
| AuctionSession.ListingAuctionSession.MaybeExtend | src/listing_auction_session.rs:486-497 | The end becomes the later of itself and 120 seconds from now; the counter and status follow just when the window is reached. |
| AuctionSession.ListingAuctionSession.DetermineOutcome | src/listing_auction_session.rs:503-515 | Won just when a highest bid reaches the reserve, and the status says so. |
| AuctionSession.ProxyBidLeadsAtMinimum | src/listing_auction_session.rs:419-456 | A challenger's proxy leads at exactly the minimum, and is taken just when the minimum would be and its maximum covers it. |
| AuctionSession.BidIsTakenIff | src/listing_auction_session.rs:375-417 | Taken exactly from an open session in its window, by neither seller nor leader, at the minimum or above; every field of the answer and of the session after it. |
| AuctionSession.RefusalNamesTheFirstFault | src/listing_auction_session.rs:375-417 | A refused bid is told the first fault in the session's order, with its numbers. |
| AuctionSession.LeadersMaximumIsTakenIff | src/listing_auction_session.rs:430-447 | In an open session the leader's maximum is taken exactly when it is not below the leading bid, and changes nothing. |
| NaiveBidding.NaiveAuction.ScanHighest | src/bin/profile_bidding_naive.rs:169-176 | The scan loop returns the highest bid, the latest among equals. |
| NaiveBidding.NaiveAuction.PlaceBid | src/bin/profile_bidding_naive.rs:151-199 | Verdict and new history, end, status and capped counter are those of the specified naive auction. |
| NaiveBidding.NaiveAuction.DetermineOutcome | src/bin/profile_bidding_naive.rs:201-208 | Won just when the scanned highest bid reaches the reserve. |
| NaiveBidding.ScanFindsLast | src/bin/profile_bidding_naive.rs:169-182 | In a history whose amounts never fall the scan returns the last entry, so a cached leader is enough. |
| NaiveBidding.StepAgreesIff | src/bin/profile_bidding_naive.rs:151-199 | One bid keeps both auctions alike exactly when it is neither a leader's own raise nor an extension past the cap of three. |
| NaiveBidding.FastRefinesNaiveIff | src/bin/profile_bidding_naive.rs:151-208 | For every bid sequence: both agree on all verdicts, ends and outcomes if and only if every bid is harmless in that sense. |
| NaiveBidding.NaiveAndFastAgree | src/listing_auction_session.rs:375-417 | From one fresh auction, sequences with no leader bidding and at most three late bids agree throughout. |
| BidValidation.ChainAgreesWithSessionIff | src/service/bid_validation_chain.rs:24-40 | For rows as creation and bidding leave them and every 64-bit request: the chain gives the session's verdict and first error exactly when the cast changes no deciding negative number. |
| BidValidation.WalletLinkNeverFires | src/service/bid_validation_chain.rs:67-73 | The fourth link never decides: three links give the same answer. |
| BidValidation.PassedBidIsTaken | src/service/auction_core.rs:265-288 | A bid the chain passes is never rejected by the rebuilt session. |
| HoldLedger.Rupiah | src/service/auction_types.rs:155-160 | Whole rupiah cover the cents with less than one rupiah to spare. |
| BidTable.KeyOrderIsTotal | src/persistence/repositories.rs:344-355 | Of two different keys exactly one comes first. |
| BidTable.KeyOrderIsTransitive | src/persistence/repositories.rs:344-355 | The order by amount, time and id chains. |
| BidTable.TextOrderIsLexicographic | src/persistence/repositories.rs:344-355 | Ids compare at their first differing character, a proper prefix coming first. |
| BidTable.ListingFollowsColumns | src/persistence/repositories.rs:308-335 | Read by columns: amounts never rise along the listing, among equal amounts times never fall, among equal times ids rise. |
| BidTable.ListingIsOrdered | src/persistence/repositories.rs:308-335 | With distinct ids the listing is strictly ordered: no ties, no duplicates. |
| BidTable.OrderedListIsUnique | src/persistence/repositories.rs:308-335 | There is only one ordered listing of a set of rows. |
| BidTable.WinnerIsFirst | src/persistence/repositories.rs:379-392 | The winner query returns the row that precedes every other. |
| BidTable.NewestIsListedFirst | src/persistence/repositories.rs:379-392 | While amounts rise the newest row is listed first and wins, whatever the tie-breaks. |
| BidTable.Matching | src/persistence/repositories.rs:394-415 | A row found agrees in bidder, amount and time; none is found just when no row agrees. |
| BidCursor.ParsePrintedInt | src/service/auction_types.rs:120-131 | Every signed 64-bit number survives printing and parsing. |
| BidCursor.CursorRoundTripIff | src/service/auction_types.rs:120-166 | A printed cursor parses back to itself exactly when its id is not blank, colons included; a blank id is the only failure. |
| BidCursor.ParsedCursorsAreCanonical | src/service/auction_types.rs:120-166 | Any accepted text means the same as the printed form of what it means. |
| BidCursor.ParsesIffWrites | src/service/auction_types.rs:120-131 | A text parses to a number exactly when it is that number in decimal, after leading zeros and an optional sign, and fits 64 bits. |
| BidCursor.ParsesIff | src/service/auction_types.rs:120-146 | A cursor is accepted exactly when it is a number, a colon, a number, a colon and an id that is not blank, and means these three. |
| BidCursor.RefusedTextNamesItsFault | src/service/auction_types.rs:120-146 | A refused cursor is blamed on its first wrong part. |
| BidPages.ListBidsWithCursor | src/service/auction_queries.rs:139-178 | Fetching one row too many and truncating gives the specified page: the first rows after the cursor, and a next cursor just when more follow. |
| BidPages.PageIsExact | src/service/auction_queries.rs:139-178 | For every accepted cursor a page has as many rows as asked for or as are left, after the cursor, in order and before every row left out; a next cursor exactly when rows are left out, to its last row. |
| BidPages.BadCursorIsRefused | src/service/auction_queries.rs:139-178 | A cursor that does not parse is refused with its fault, and no other is. |
| BidPages.RemainingAfterRow | src/persistence/repositories.rs:344-362 | The rows after the k-th remaining row are exactly the remaining rows from k on. |
| BidPages.WalkReturnsListing | src/service/auction_queries.rs:139-178 | With any limits, following next cursors over a fixed table yields the full listing without gap or duplicate, in at most one fetch per row. |
| BidPages.GrowthAtTopIsBehindCursor | src/persistence/repositories.rs:344-362 | Rows added above all older amounts never change what follows an older row. |
| BidPages.WalkReturnsSnapshot | src/service/auction_queries.rs:139-178 | A walk over tables that only grow at the top yields the listing of the first table seen. |
| BidHistory.WalkDuringRunReturnsSnapshot | src/service/auction_queries.rs:139-178 | Bids, counters, withdrawals and closings between fetches, failing ones included, do not disturb a page walk: it yields the listing of the table at its first fetch. |
| ProxyTable.NothingPrecedesTop | src/persistence/repositories.rs:236-248 | No maximum comes before the top one in the listing order. |
| ProxyTable.TopIsSeniorIff | src/persistence/repositories.rs:236-248 | Read by columns: the top maximum is the one that none exceeds, none equals and is older than, and none equals in both with an earlier bidder. |
| ProxyTable.UpsertKeepsBiddersDistinct | src/persistence/repositories.rs:212-234 | Setting a maximum keeps one row per bidder. |
| ProxyTable.UpsertKeepsSeniority | src/persistence/repositories.rs:212-234 | A changed maximum keeps the creation time that ranks it among equals. |
| ProxyTable.UpsertSetsExactly | src/persistence/repositories.rs:212-234 | After a maximum is set the table holds the others' rows and the bidder's at the new amount, dated when it first set one. |
| ProxyTable.DeleteFor | src/persistence/repositories.rs:265-277 | Exactly the other bidders' maxima remain. |
| ProxyTable.CompetitorCap | src/service/auction_core.rs:440-445 | The highest maximum among all other bidders, absent just when there is none. |
| AuctionService.AuctionService.UndoHold | src/service/auction_core.rs:343-350 | The hold is given back if the wallet agrees, and the call goes on either way. |
| AuctionService.AuctionService.RecordToDomain | src/service/auction_core.rs:619-660 | The session object rebuilt from the listing and the winning row is the one the store stands for. |
| AuctionService.AuctionService.PlaceBid | src/service/auction_core.rs:175-411 | The statements of one call make exactly the specified transition and reply: replay, admission, money, row, events, listing, job, counter. |
| AuctionService.AuctionService.CommitBid | src/service/auction_core.rs:289-396 | From the accepted verdict to the scheduled closure, with all its error exits, as specified. |
| AuctionService.AuctionService.SwapHolds | src/service/auction_core.rs:298-328 | The displaced hold is released before the new one is taken, and each may fail. |
| AuctionService.AuctionService.AnnounceLead | src/service/auction_core.rs:353-396 | Outbid event, conditional listing update and rescheduled closure, as specified. |
| AuctionService.AuctionService.ResolveProxyAutoBid | src/service/auction_core.rs:413-487 | The decision to counter, and with what amount, end and status, is the specified plan. |
| AuctionService.AuctionService.PlaceCounter | src/service/auction_core.rs:489-617 | Hold, raise or insert, release, events and updates of the counter in the service's order, with every exit and every undo that may fail. |
| AuctionService.AuctionService.DeleteProxyBid | src/service/auction_queries.rs:115-126 | Only that bidder's maximum goes. |
| AuctionService.AuctionService.ReleaseListed | src/service/auction_closure_use_case.rs:284-291 | The releasing loop leaves the holds the recursive specification says, wherever the wallet fails. |
| AuctionService.AuctionService.SideEffects | src/service/auction_closure_use_case.rs:262-295 | A settlement attempt changes the holds as specified, and says whether it got through. |
| AuctionService.AuctionService.ExecuteClosure | src/service/auction_closure_use_case.rs:226-260 | The closing transaction writes decision, cached highest and end event as specified. |
| AuctionService.AuctionService.ProcessOnePendingClosure | src/service/auction_closure_use_case.rs:15-153 | A worker pass makes exactly the specified transition for each status the job had before the claim, and leaves the job claimed when its transaction breaks. |
| AuctionService.AuctionService.CloseAuction | src/service/auction_closure_use_case.rs:163-224 | A manual close makes exactly the specified transition. |
| StoreInvariant.AdmittedBidCanLead | src/service/auction_core.rs:206-289 | Only an open auction inside its window admits, never the seller or the leader, and never below the minimum; the end and status are the anti-sniping ones. |
| Admission.StandardAdmittedIff | src/service/auction_core.rs:221-288 | A standard bid is admitted exactly when it may lead, anti-sniping window included, and otherwise told the first thing wrong with it. |
| Admission.ProxyAdmittedIff | src/service/auction_core.rs:231-288 | A leader's maximum is noted exactly when it covers its bid; a challenger's is admitted exactly when the minimum may lead and the maximum covers it or is negative; the refusals by kind. |
| StoreInvariant.CommitKeepsInv | src/service/auction_core.rs:289-396 | The caller's part of a call keeps rows, their holds, listing and schedule in order at every exit, a failing undo included; a failure leaves rows and listing alone. |
| CallGuards.CommitsIff | src/service/auction_core.rs:298-351 | An admitted call persists its bid exactly when, with a wallet, the displaced hold is released and the new one granted, and its row can be inserted. |
| CallEffects.AcceptsIff | src/service/auction_core.rs:196-351 | A call persists its bid exactly when that is not in the table, the catalogue agrees, it may lead at its price, and money and row go through. |
| CallEffects.UnadmittedCallReplies | src/service/auction_core.rs:196-288 | Any other call is answered by replay, catalogue refusal, first fault, or, for a leader's maximum, the leading row; and only that maximum is stored. |
| CallEffects.MaximumIsSet | src/service/auction_core.rs:246-252 | What storing a maximum leaves: everyone else's, and the caller's at its new amount and first date. |
| CallEffects.WithdrawalRemovesExactly | src/persistence/repositories.rs:265-277 | A withdrawal takes away the bidder's maximum and nothing else. |
| CallEffects.FailedCallReplies | src/service/auction_core.rs:289-351 | A call let down by wallet or row says by which, keeps its maximum, and leaves rows, listing, job and events alone. |
| CallEffects.FailedCallHolds | src/service/auction_core.rs:298-351 | Its ledger, hold by hold: the leader's given back or not, the caller's taken, given back or stray, by where it failed. |
| CallGuards.AcceptedCallPlans | src/service/auction_core.rs:413-487 | Whether an accepted call draws a counter, a refused counter or none, and whether that is a raise, follows from the maxima and the price before the call. |
| CounterPlan.PlannedCounter | src/service/auction_core.rs:436-487 | A planned counter tops the newest row one second later and never shortens the auction; if it replaces the leader it may lead. |
| CounterPlan.CounterPlanIff | src/service/auction_core.rs:436-487 | Exactly when an able top proxy counters, raises itself, is refused as too low, or stays silent, by how the best other maximum lies to the price. |
| CounterPlan.CounterIsPriced | src/service/auction_core.rs:436-447 | A planned counter is the senior maximum's, never above it; an increment over the price if nobody else holds a maximum, else an increment over every other maximum as far as its own reaches, and never further. |
| CallEffects.AcceptedCallRowsAre | src/service/auction_core.rs:289-617 | The rows after an accepted call are the old ones, the caller's and the counter's, which is so priced; the reply is the caller's row exactly unless the call fails on its counter. |
| CallEffects.AcceptedCallListingIs | src/service/auction_core.rs:361-396 | Cached highest, end, status and job after an accepted call, counter or not: 120 seconds after the last row that landed, extended exactly if the caller came within 120 seconds of the end. |
| CallEffects.AcceptedCallHolds | src/service/auction_core.rs:298-617 | The ledger of an accepted call, hold by hold: the leader's given back, the caller's kept unless a counter landed, the counter's for its own price, kept unless its row failed and it was taken back. |
| CallEffects.AcceptedCallTells | src/service/auction_core.rs:353-411 | The events of an accepted call, in order, with names, amounts and ends: displaced leader, displaced caller, counter, caller. |
| CallEffects.RunPricesCounters | src/service/auction_core.rs:413-617 | Over every run, whatever its calls meet, every counter row is the senior maximum's and priced by the maxima of its moment. |
| CounterInvariant.ResolveKeepsInvIff | src/service/auction_core.rs:413-617 | The counter keeps the store in order at every exit except exactly when its row is placed and the displaced hold is not released. |
| CounterInvariant.PlaceBidKeepsInvIff | src/service/auction_core.rs:175-411 | A whole call keeps rows, their holds, listing, events and schedule in order at success and at every error exit, exactly unless it loses that release. |
| CounterInvariant.AcceptedCallReplies | src/service/auction_core.rs:398-411 | An accepted call answers with its row exactly when its counter goes through; a counter refused as too low makes its error the call's. |
| StrayHolds.CallTidyIff | src/service/auction_core.rs:341-351 | A call leaves no live hold without a row exactly when it found none, gets every undo answered, and does not raise a row whose old hold is not released. |
| StrayHolds.RunTidyIff | src/service/auction_core.rs:175-411 | Over every run that stays in order: no live hold is without a row exactly when no call stranded one. |
| StrayHolds.StrayHoldStaysLive | src/service/auction_closure_use_case.rs:262-295 | From any store, no sequence of calls, closings and settlements releases or pays out a hold that no row carries. |
| StrayHolds.StrandedForGood | src/service/auction_core.rs:541-557 | After a call that strands a hold, every run ends with it live and carried by no row. |
| AuctionScenarios.ALostUndoLeavesAStrayHold | src/service/auction_core.rs:341-351 | That is reachable with the first call of an auction: hold granted, row refused, undo lost. |
| AuctionScenarios.APersistedBidCanBeAnsweredWithAnError | src/service/auction_core.rs:476-482 | Such a call is reachable from creation: a rival's maximum was noted although its hold was refused. |
| AuctionScenarios.ALostReleaseLeavesTwoHolds | src/service/auction_core.rs:559-567 | The very first call of an auction can leave two live holds on one row. |
| AuctionRuns.CreatedIsInOrder | src/service/auction_create.rs:15-64 | Every auction creation accepts starts in order. |
| AuctionRuns.WorkerKeepsInv | src/service/auction_closure_use_case.rs:15-153 | A worker pass keeps the store in order, whichever way its transaction goes and wherever the wallet fails; a job it leaves claimed harms nothing but progress. |
| AuctionRuns.ManualCloseKeepsInv | src/service/auction_closure_use_case.rs:163-224 | So does a manual close. |
| AuctionRuns.StepKeepsInvIff | src/service/auction_core.rs:175-411 | Bids, withdrawals, worker passes and closes keep the store in order, except exactly a call that loses a release; a job left claimed counts as in order. |
| AuctionRuns.RunKeepsInv | src/service/auction_core.rs:175-411 | So every run without such a call stays in order. |
| AuctionRuns.StepKeepsCore | src/service/auction_core.rs:175-617 | No step, whatever wallet and database answer, harms the bid rows, the maxima or the status, or lifts the cached highest above the newest row. |
| AuctionRuns.RunKeepsCore | src/service/auction_core.rs:175-617 | So no run does. |
| LostReleases.LostReleaseBreaksExactly | src/service/auction_core.rs:559-567 | What a lost release breaks: the cached highest always; the newest bid's 120 seconds exactly when the end was not already later than 120 seconds after the caller; outbid names and row holds exactly when the counter overtook the caller; the schedule never. |
| LostReleases.LostReleaseLeavesHold | src/service/auction_core.rs:559-567 | The hold it leaves live beside the leader's is the caller's, carried by the caller's row exactly when the counter overtook it. |
| LostReleases.DisplacedHoldIsReleasedIff | src/service/auction_closure_use_case.rs:262-295 | From every reachable store a live hold that does not lead stays live over any run that does not end unsold, which none can once the reserve is met; if a row carries it, a finished settlement has released it exactly when the auction is unsold. |
| AuctionScenarios.AnOvertakenBidderKeepsItsHold | src/service/auction_core.rs:559-567 | From creation, an overtaken bidder's hold can stay live for good. |
| AuctionScenarios.ABidCanBeASecondShort | src/service/auction_core.rs:559-567 | From creation, a lost release can leave a bid 119 seconds before the end. |
| AuctionGuarantees.StoreIsConsistent | src/service/auction_core.rs:361-396 | Over every run: a winner whenever there are rows, pairwise distinct amounts, no row of the seller, the cached highest never above the winner's amount; while no release is lost, equal to it, and the job of an open auction that never failed to close due at the end. |
| AuctionGuarantees.OneLiveHold | src/service/auction_core.rs:298-351 | Of the holds rows carry at most one is live: the winning row's, of its bidder, covering its amount to the rupiah; and it is the only live one at all exactly when no call stranded a hold. |
| AuctionGuarantees.SettlementConservesFunds | src/service/auction_closure_use_case.rs:262-295 | A done job has left no row's hold live and paid out exactly the winner's hold, or none when unsold; a won auction with a wallet has been paid by the winning bidder the winning amount, which meets the reserve; before that nothing is ever paid out; whatever failed and was retried. Nothing at all is live exactly when no call stranded a hold. |
| Payments.OnlyTheWinnerPays | src/service/auction_closure_use_case.rs:262-295 | Over every run, lost releases, lost undos and broken transactions included: a hold is paid out exactly if the settlement is finished, the auction won and the hold the winning row's; it is then the winning bidder's, for the winning amount, which meets the reserve; a finished unsold auction has released every row's hold. |
| AuctionGuarantees.OutbidEventsNameEveryLeader | src/service/auction_core.rs:353-359 | The bidders named by outbid events, then the leader, are the leaders in the order they led, caller bids and counters alike. |
| AuctionGuarantees.EndFollowsEveryBid | src/listing_auction_session.rs:486-497 | The end is the original one or 120 seconds after the bid that pushes it furthest, counters included. |
| AuctionGuarantees.ClosesLateEnough | src/service/auction_closure_use_case.rs:102-111 | Whatever closes an auction does so at least 120 seconds after every bid. |
| Payments.ClosesAfterEveryBid | src/service/auction_closure_use_case.rs:102-111 | Over every run, lost releases included: whatever closes an auction does so at its original end or later and at least 119 seconds after every bid. |
| AuctionGuarantees.NothingIsAcceptedAfterClosing | src/service/bid_policies.rs:9-34 | After closing, no run changes bids or listing, whatever went before and whatever its calls meet. |
| AuctionGuarantees.OutcomesAgree | src/service/closure_workflow.rs:19-41 | After every run the decision is the domain's outcome, a win has a winning row, and a closed listing repeats the decision. |
| AuctionClosure.DecisionAgreesWithSessionIff | src/service/closure_workflow.rs:19-41 | On any rows the decision is the domain's exactly when no cached amount at the reserve stands in for missing rows. |
| AuctionGuarantees.CreatedTakesBidsIff | src/service/auction_types.rs:80-86 | A created auction takes a sufficient bid at once just when its start has come. |
| ClosingEffects.CreatedIff | src/service/auction_create.rs:15-64 | What creation accepts, and every column of what it stores. |
| ClosingEffects.FirstBidIsPersistedIff | src/service/auction_core.rs:206-288 | With every answer yes, the first bid on a fresh auction is persisted exactly if the auction was created at or after its start and the bid is in time, not the seller's and not below the price. |
| AuctionGuarantees.EarlyAuctionNeverSells | src/service/auction_types.rs:80-86 | Created ahead of its start, an auction takes no bid in any run of these calls and can only end unsold. |
| AuctionGuarantees.CallFundsLeaderIff | src/service/auction_core.rs:298-351 | A call leaves the leader with a live hold exactly when it accepts a bid, or found one and does not release it and then get no hold or no row for the new leader. |
| AuctionGuarantees.SettlementFinishesIff | src/service/auction_closure_use_case.rs:262-295 | A willing wallet finishes a settlement exactly when there is no winner to charge or the winner's hold is live. |
| AuctionGuarantees.StrandedWinnerNeverSettles | src/service/auction_closure_use_case.rs:59-89 | Once a winner's hold is gone no sequence of retries, calls and closes finishes the settlement. |
| AuctionScenarios.AWinnerCanBeStranded | src/service/auction_core.rs:298-328 | That state is reachable from creation with two bids and one worker pass. |
| AuctionEvents.EndIsToldOnce | src/service/auction_event_publisher.rs:102-143 | In every run, whatever its calls meet, the end is published exactly once, when the auction has closed, with the final status, winner and price. |
| AuctionEvents.CallAnnouncesExactly | src/service/auction_event_publisher.rs:5-37 | A call that persists no bid announces nothing; one that does announces nothing but that bid, at the amount it led with, and a counter, at the amount it leads with. |
| AuctionEvents.CallStaysTruthful | src/service/auction_event_publisher.rs:5-37 | A call, failed or not, leaves only announcements that name a row, its bidder, and an amount not above the row's. |
| AuctionEvents.CallAnnouncesIff | src/service/auction_core.rs:398-410 | Every row stays announced exactly until an accepted call draws a refused counter, or one whose hold, row or release fails. |
| AuctionEvents.EveryBidIsAnnouncedIff | src/service/auction_core.rs:398-410 | Over every run, every bid is announced if and only if no call failed on its counter in that way. |
| ClosureProgress.DueAtEndIff | src/persistence/repositories.rs:617-638 | An open auction's job is due at its end except exactly from a failed closing attempt to the next bid or early claim. |
| ClosingEffects.WorkerPassIs | src/service/auction_closure_use_case.rs:15-153 | What a worker pass does and answers in each situation: listing, events, job with its attempts, and exactly when a settlement whose requests all succeed goes through. |
| ClosingEffects.ManualCloseIs | src/service/auction_closure_use_case.rs:163-224 | A manual close closes and settles every ended auction not yet closed, whatever its job, exactly when its transaction commits; what it answers otherwise. |
| ClosingEffects.ReleasesAre | src/service/auction_closure_use_case.rs:284-291 | The release loop gives back the live holds of exactly the rows before the request that fails. |
| ClosingEffects.AttemptHolds | src/service/auction_closure_use_case.rs:262-295 | The ledger after a settlement attempt: the winner's hold alone paid out or nothing changed; unsold, the holds of the rows answered for given back. |
| AuctionScenarios.AFailedClosingPostponesTheJob | src/service/auction_closure_use_case.rs:115-123 | Right after creation one failed pass leaves an open auction whose job is due thirty seconds after its end. |
| ClosureProgress.WorkerSettlesIff | src/service/auction_closure_use_case.rs:15-153 | From every store in order whose auction has ended and whose job is due, one pass without failures finishes the job exactly when the winner can be charged and no earlier pass has left the job claimed. |
| ClosureProgress.FailedAttemptRetriesIff | src/service/auction_closure_use_case.rs:113-145 | A failed pass whose transaction did not break is claimable again from thirty seconds later on and not before, one attempt richer, in the stage it failed in; one whose transaction broke is claimable at no clock. |
| AbandonedJobs.AbandonedIff | src/service/auction_closure_use_case.rs:113-128 | A job is abandoned after a step exactly if the step is a claiming pass whose transaction breaks, or the job was abandoned and the step neither persists a bid nor is a committed manual close of an ended, unclosed auction. |
| AbandonedJobs.OnlyAManualCloseHelps | src/persistence/repositories.rs:640-713 | From the end of an auction whose job is abandoned, no run of worker passes, bids and withdrawals changes anything but the maxima. |
| AbandonedJobs.WorkersNeverReclaim | src/persistence/repositories.rs:672-713 | Worker passes alone never touch such a store, at any clock. |
| AbandonedJobs.ManualCloseRescuesIff | src/service/auction_closure_use_case.rs:163-224 | A clean manual close of such an ended auction closes it, and finishes the job exactly when the winner can be charged. |
| AbandonedJobs.AbandonedSettlementIsFinal | src/service/auction_closure_use_case.rs:59-89 | A closed auction whose settlement was abandoned is never settled, manual closes included: no run charges or releases any hold. |
| AuctionScenarios.ABrokenCommitLeavesTheAuctionOpen | src/service/auction_closure_use_case.rs:126-128 | Right after creation one broken pass leaves an auction that nothing but a manual close ever closes. |
| AuctionScenarios.ABrokenRetryNeverChargesTheWinner | src/service/auction_closure_use_case.rs:59-69 | From creation, a won auction with a live winning hold can come to where nothing ever charges or releases it. |
| BidHistory.CallOnlyAppends | src/service/auction_core.rs:509-557 | A call appends rows and changes none from before it, the in-place raise included. |
| BidHistory.RunOnlyAppends | src/service/auction_core.rs:509-557 | Over every run, whatever its calls meet, the bid table only grows, and a closed auction's bids and listing are final. |
| BidHistory.ReplayIsNoOp | src/service/auction_core.rs:196-204 | A request whose row, or raised row, is in the table changes nothing; it gets its row back if that is unchanged. |
| BidHistory.ReplayIsSafe | src/service/auction_core.rs:196-204 | At any later point of any run, failing calls included, resubmitting an accepted standard bid adds no row, hold, event or schedule. |
| ProxyStability.ChallengePlan | src/service/auction_core.rs:436-487 | After a proxy challenge a counter is planned exactly when the top proxy can afford it, and is never refused by the session. |
| ProxyStability.ProxyCallSettles | src/service/auction_core.rs:413-487 | A proxy call on a settled price settles it again with at most one counter; it fails just when it is not admitted, and then changes nothing. |
| ProxyStability.ProxyCallSettlesIff | src/service/auction_core.rs:278-283 | For every maximum, a proxy call on a settled price settles it again exactly unless a challenger's negative maximum is admitted. |
| ProxyStability.ProxyRunSettlesIff | src/service/auction_core.rs:413-487 | Over every run of proxy bids that wallet and database do not let down, the price is settled throughout if and only if no call leads with a negative maximum. |
| ProxyStability.ProxyAuctionIsStable | src/service/auction_core.rs:413-487 | From creation, without such a call: the winner pays at most its maximum, no rival could afford another increment, and the price is within an increment of the best rival or the starting price. |
| ProxyStability.ChallengerMaximumPassesIff | src/service/auction_core.rs:278-283 | A challenger's maximum is admitted exactly when the minimum may lead and the maximum covers it or is negative. |
| AuctionScenarios.ANegativeMaximumLeads | src/service/auction_core.rs:278-283 | From creation a bidder can lead at 1100 with a maximum of minus one. |
| SessionRefinement.CommitCommutes | src/service/auction_core.rs:361-392 | Persisting an accepted standard or proxy bid and rebuilding the session gives the session after the bid, its counter aside. |
| SessionRefinement.OvertakingCommutesIff | src/service/auction_core.rs:575-584 | The same for a counter that replaces the leader, except exactly 120 seconds before the end of an auction not yet extended. |
| AuctionScenarios.ACounterCanMissTheExtension | src/service/auction_core.rs:575-584 | That corner is reachable from creation with two proxy bids. |
| SessionRefinement.StandardCallSimulates | src/service/auction_core.rs:265-288 | Without proxies a standard call is a session bid if accepted and invisible otherwise; a refused or replayed call leaves the store unchanged. |
| SessionRefinement.StandardRunRefinesSession | src/service/auction_core.rs:175-411 | Every run of standard bids is a run of the session on the accepted ones, each of which the session takes. |
| SessionRefinement.GrantedCallTakesIff | src/service/auction_core.rs:206-288 | With every answer yes a standard call persists its bid exactly when the rebuilt session takes it. |
| SessionRefinement.GrantedRunTakesExactly | src/service/auction_core.rs:175-411 | With every answer yes a run of standard bids persists exactly the offers the session takes, in their order. |
| SessionRefinement.StandardAuctionIsItsSession | src/service/auction_core.rs:175-411 | From creation such an auction shows what its session shows after exactly the offers it takes. |
| MultiInstance.AdvanceKeepsOrder | src/service/auction_core.rs:368-392 | One database access by any instance keeps the cached highest the maximum of the updated rows and never lowers it. |
| MultiInstance.InstancesConverge | src/service/auction_core.rs:368-392 | For any calls and any interleaving the cached highest is that maximum throughout, and the winner's amount when all calls have finished. |
| MultiInstanceBids.EveryRowWasFair | src/service/auction_core.rs:206-288 | For any calls and any interleaving every row is a call's bid that, against a listing the call had read, could lead by the rows at its chain check and again by those at its session check. |
| MultiInstanceBids.UndisturbedCallIsPlaceBid | src/service/auction_core.rs:175-411 | A call whose accesses nobody interrupts does to listing and rows what the call of one instance does. |
| MultiInstanceBids.OneByOneIsOneInstance | src/service/auction_core.rs:175-411 | So calls one after the other leave what a run of one instance leaves. |
| MultiInstanceEnds.BidsKeepTheirTimeIff | src/service/auction_core.rs:361-392 | For any calls and any interleaving, every bid keeps its 120 seconds from its update on if and only if no update loses to an end too early for its own bid and none wins with an end too early for another. |
| MultiInstanceEnds.AuctionEndsWithItsLeader | src/service/auction_core.rs:361-392 | In any interleaving the end is the one a call of the leading amount computed, or still the original one. |
| MultiInstanceEnds.UpdateShortensAuctionIff | src/service/auction_core.rs:361-392 | In any interleaving a conditional update moves the end time back exactly when it wins the cached highest and the end has meanwhile moved past both what its call had read and 120 seconds after its bid. |
| MultiInstanceEnds.AnExtensionCanBeLost | src/service/auction_core.rs:361-392 | Two instances can leave an auction that ends 30 seconds after an accepted bid: the later, winning update takes the extension back. |
| MultiInstanceEnds.ALosingUpdateDropsItsExtension | src/service/auction_core.rs:361-392 | So can two updates in the other order, without the end ever moving back: the losing update drops its own extension. |
| OutboxLeases.LeasesNeverOverlap | src/persistence/repositories.rs:525-564 | For any workers and interleaving, two leases of one event overlap only across a mark on it, and a published event is never leased again. |
| OutboxLeases.RetryDelayDoublesToCap | src/scheduler/outbox_scheduler.rs:95-98 | The delay starts at one second and doubles until it stays at sixty. |
| OutboxHolders.OnlyLateMarksFreeHolders | src/persistence/repositories.rs:566-604 | If the clock never goes back, an event is leased again only after its last holder is done or out of time, unless an earlier mark on that very event came after the lease it ends ran out. |
| OutboxMarks.MarkFreesAnotherIff | src/persistence/repositories.rs:566-604 | If the clock never goes back: a mark takes off a lock that is not its own lease's exactly when the event was leased again since and that later lease is unexpired and unmarked; that lease is another worker's, who has yet to mark it. |
| OutboxScenarios.ALateMarkFreesALiveLease | src/persistence/repositories.rs:566-604 | With such a mark that fails: a late mark frees a lease that another worker holds. |
| OutboxBackoff.LeaseSkipsBackoffIff | src/persistence/repositories.rs:541-561 | In any interleaving a lease comes before the backoff in force exactly when a failure since its selection set a later attempt. |
| OutboxScenarios.ABackoffCanBeSkipped | src/persistence/repositories.rs:541-561 | Two workers and one failure suffice for that. |
| OutboxScheduler.Outbox.ClaimPending | src/persistence/repositories.rs:486-564 | Undisturbed, the claim loop leases every selected event and touches no other. |
| OutboxScheduler.Outbox.PublishPending | src/scheduler/outbox_scheduler.rs:21-68 | Every selected event ends published or put off and unlocked; the k-th failure of the batch waits by the k-th delay; the report counts exactly these outcomes. |
| OutboxProgress.TableCountsMarks | src/persistence/repositories.rs:566-604 | In any interleaving an event's attempts are the failures reported on it, and it is published exactly by a report that says so. |
| OutboxProgress.OldestAreServed | src/persistence/repositories.rs:525-540 | A selection holds only free events and never too many, and leaves a free one out only when it is full of free ones no younger. |
| OutboxProgress.UndisturbedPassMarksSelected | src/scheduler/outbox_scheduler.rs:21-68 | Statement by statement, one undisturbed worker among many does what the scheduler's call does, and is idle again. |

## Left out

- HTTP routes, request and response records, authentication, metrics, configuration, server wiring, migrations: no auction logic.
- Wallet, catalogue, gRPC and broker clients: only their yes or no is modelled; the role, the ids and the expiry a hold request carries are not.
- Holds that the wallet expires on its own, and wallet failures that took effect after all.
- Auction types, close strategies and command handlers: constant branches and delegation.
- Several auctions in one database, resolving an id to an auction, and the not-found errors: the store holds one auction.
- Status texts: statuses are an enumeration, so unknown texts and the SCHEDULED and ENDED synonyms are not modelled.
- 64-bit overflow of sums close to 2^63 and the saturating additions that guard them.
- Database failures other than those of bid inserts and of the closing transaction: the job marks written after it
  (`src/service/auction_closure_use_case.rs:130-150`), the in-place raise and the listing and job updates of a
  bidding call, the reads. Crashes.
- A commit that is reported as failed and took effect after all.
- The Postgres branches of the two claim queries; there the closure job comes back as PROCESSING and does not take the settling path.
- Bids that interleave with a closing call on the same auction.
- Proxy bids and counters across several instances; the undo of a counter that lost the listing update (`src/service/auction_core.rs:593-605`) is written out, with a row deletion that succeeds, but no reachable single-instance store gets there.
- Wallet holds in the several-instance model.
- Activation of stored drafts and cancellation: no service call performs them.
- ProxyStability.ProxyAuctionIsStable: not stated for runs that mix in standard bids, withdrawals or refused holds, where a price need not be settled (`CounterPlan.CounterPlanIff` says when a counter fails to come).
- AuctionGuarantees.SettlementConservesFunds: what is live after a run that lost a release is left to
  `LostReleases.DisplacedHoldIsReleasedIff`, what is paid to `Payments.OnlyTheWinnerPays`.
- AuctionGuarantees.EndFollowsEveryBid: for runs that lost a release `Payments.ClosesAfterEveryBid` gives 119 seconds.
- AuctionGuarantees.StoreIsConsistent: the due time of a job whose closing failed is left to `ClosureProgress.DueAtEndIff`.
- OutboxScheduler.Outbox.PublishPending: does not model a database failure in the middle of a batch.
- Event payload fields beyond bidder, amount, end, status and winner; outbox columns for the worker's name, the last error and the update time.
- The profiling loop, polling intervals and jitter, id generation and date texts.
