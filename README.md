# BidForStudy auction engine, in Dafny

BidForStudy lets students bid tokens for study rooms. Each auction is keyed by room, capacity,
time range and reservation day. Bidding closes one week before the reservation day, or when
the auction is force-closed.

- **Single rooms.** A user bids alone. A bid must beat the current highest bid. The previous
  highest party is refunded and the new bidder is charged.
- **Multi-person rooms.** An owner starts a group under a join code (the owner's id). Members
  join with pledges and may change them. The owner submits the group total as one entry bid
  under `group:<owner>`. A snapshot of the members is recorded, and every member's personal
  history receives a record. Only the last ten records are kept.
- **Cancelling a win.** A winner may cancel until the day before the reservation. They are
  refunded half of what they paid, using integer division. The auction then enters a
  "second-chance" round.
  - Single rooms: the next best single bidder receives an offer. They may accept it (and pay)
    or decline it, in which case the offer passes on.
  - Multi-person rooms: the best remaining group that has not refused is turned back into a
    pending group.
- **Ledger.** All token movements go through an in-memory repository of users, passwords and
  balances. Every access trims the username first.

The model has five modules:

- `Wrappers` (`wrappers.dfy`): `Option`.
- `Sorting` (`sorting.dfy`): a stable descending insertion sort and `take`, which model
  Kotlin's `sortedByDescending` and `take`.
- `Auth` (`auth.dfy`): the repository as a class `InMemoryAuthRepository` with `users` and
  `tokens` maps. It includes Kotlin's `trim()` and the ledger as functions: `Credited` is one
  `addTokens` and `ApplyCredits` is a sequence of them. It also proves how `Total` (the sum of
  all balances) and non-negativity behave under these functions.
- `Auctions` (`auctions.dfy`): the engine's value types, the `group:` id encoding,
  integer-day time, and the pure selections the engine makes. The selections cover:
  - the first highest entry (`maxByOrNull` keeps the first of equal maxima);
  - `lastOrNull` over the recorded groups, and `firstOrNull` over the offers;
  - refunds, half refunds, and the bounded group histories;
  - the second-chance candidates.
- `Bidding` (`bidding_manager.dfy`): the class `BiddingManager`.
  - Its fields are the source's eight mutable stores plus the repository.
  - `Valid()` holds after every operation. It requires a consistent ledger, positive entries,
    well-formed pending and recorded groups, and histories of at most ten records.
  - `State()` packs the stores into one `Stores` value, so each operation can state its whole
    new state.
  - Every operation returns `Success(newCurrentBid)` or `Failure(error)`. The error is the
    first failing check, in the source's order, and a failed operation changes nothing.
  - Token movements are stated as `ApplyCredits` of the old ledger, with totals and
    non-negativity proved beside them.

Time is an integer count of nanoseconds. A reservation day `d` starts at `d * NanosPerDay`.
Callers pass the current time as `now`.

## Model

| member | source | states |
|---|---|---|
| Auth.InMemoryAuthRepository.Register | app/src/main/java/com/example/bidforstudy/data/InMemoryAuthRepository.kt:11-19 | succeeds exactly when the trimmed name and the password are not blank and the name is new; then the password is stored, the balance is exactly 100, and the user can log in; on refusal both maps are unchanged |
| Auth.InMemoryAuthRepository.Login | app/src/main/java/com/example/bidforstudy/data/InMemoryAuthRepository.kt:21-25 | true exactly when the trimmed name is registered with this very password |
| Auth.InMemoryAuthRepository.GetTokens | app/src/main/java/com/example/bidforstudy/data/InMemoryAuthRepository.kt:27-30 | the trimmed name's stored balance, 0 for an unknown name |
| Auth.InMemoryAuthRepository.AddTokens | app/src/main/java/com/example/bidforstudy/data/InMemoryAuthRepository.kt:32-36 | the trimmed name's balance (0 when absent) changes by `amount`; every account with a different trimmed name and the user store are unchanged |
| Auth.TrimSpec | app/src/main/java/com/example/bidforstudy/data/InMemoryAuthRepository.kt:12 | `trim()` yields the contiguous slice of the input without leading or trailing whitespace, and only whitespace is dropped |
| Auth.TrimEmptyIffBlank | app/src/main/java/com/example/bidforstudy/data/InMemoryAuthRepository.kt:12-13 | the trimmed name is empty exactly when the name is blank |
| Auth.TrimIdempotent | app/src/main/java/com/example/bidforstudy/data/InMemoryAuthRepository.kt:12-17 | trimming twice is trimming once, so every stored key is a trimmed name |
| Auth.Credited | app/src/main/java/com/example/bidforstudy/data/InMemoryAuthRepository.kt:32-36 | one `addTokens` as a ledger function: the account's balance moves by the amount, and the balance of every account with a different trimmed name is kept |
| Auth.CreditedTotal | app/src/main/java/com/example/bidforstudy/data/InMemoryAuthRepository.kt:32-36 | one `addTokens` changes the sum of all balances by exactly the amount |
| Auth.ApplyCreditsTotal | app/src/main/java/com/example/bidforstudy/data/InMemoryAuthRepository.kt:32-36 | a run of `addTokens` calls changes the sum of all balances by the sum of their amounts |
| Auth.CoveredDebitsKeepNonNegative | app/src/main/java/com/example/bidforstudy/data/BiddingManager.kt:404-423 | debits, each covered by its balance and on distinct accounts, leave no balance negative |
| Auth.NonNegativeCreditsKeepNonNegative | app/src/main/java/com/example/bidforstudy/data/BiddingManager.kt:204-217 | refunds, which are all credits, keep a non-negative ledger non-negative |
| Auth.NonNegativeCreditsOnlyRaise | app/src/main/java/com/example/bidforstudy/data/BiddingManager.kt:204-217 | refunds never lower any balance |
| Auctions.Half | app/src/main/java/com/example/bidforstudy/data/BiddingManager.kt:548 | Kotlin `/ 2`, truncating toward zero: `2*h` is within 1 of `a`, on `a`'s side of zero |
| Auctions.GroupIdRoundTrip | app/src/main/java/com/example/bidforstudy/data/BiddingManager.kt:425 | `group:<owner>` is recognised as a group id, and `removePrefix` gives the owner back |
| Auctions.OwnerRoundTrip | app/src/main/java/com/example/bidforstudy/data/BiddingManager.kt:484 | every group id is `group:` followed by the owner it names |
| Auctions.MaxAmount | app/src/main/java/com/example/bidforstudy/data/BiddingManager.kt:104-107 | an upper bound on all amounts that is attained, or 0 for no entries |
| Auctions.FirstMaxWhere | app/src/main/java/com/example/bidforstudy/data/BiddingManager.kt:560-566 | a position holding an eligible entry with the largest amount, earlier eligible entries all strictly smaller (Kotlin keeps the first maximum), none exactly when nothing is eligible |
| Auctions.HighestIndex | app/src/main/java/com/example/bidforstudy/data/BiddingManager.kt:109-112 | the first entry whose amount is the maximum; none only for an empty list |
| Auctions.HighestIsFirstOccurrence | app/src/main/java/com/example/bidforstudy/data/BiddingManager.kt:696 | no equal entry precedes the highest one, so `list.remove(top)` removes it at that position |
| Auctions.LastWhere | app/src/main/java/com/example/bidforstudy/data/BiddingManager.kt:208-210 | the last position satisfying the test, none exactly when no position does |
| Auctions.FirstOffer | app/src/main/java/com/example/bidforstudy/data/BiddingManager.kt:592-594 | the first offer of `key` to the user, none exactly when there is none |
| Auctions.FirstOfferIsFirstOccurrence | app/src/main/java/com/example/bidforstudy/data/BiddingManager.kt:607 | no equal offer precedes it, so `remove(sc)` removes that position |
| Auctions.Filter | app/src/main/java/com/example/bidforstudy/data/BiddingManager.kt:554 | keeps exactly the elements that pass, each as often as it occurs |
| Auctions.RemoveAt | app/src/main/java/com/example/bidforstudy/data/BiddingManager.kt:696 | removes one position and shifts the rest down |
| Auctions.MemberIndex | app/src/main/java/com/example/bidforstudy/data/BiddingManager.kt:289 | the first member with this id, none exactly when no member has it |
| Auctions.MemberCreditsFor | app/src/main/java/com/example/bidforstudy/data/BiddingManager.kt:211-213 | with distinct accounts, each member of a refunded group is credited exactly their own pledge, and each member of a submitted group (BiddingManager.kt:421-423) is debited exactly their own pledge |
| Auctions.MemberCreditsOthers | app/src/main/java/com/example/bidforstudy/data/BiddingManager.kt:421-423 | an account that belongs to no member is neither credited nor debited by the member credits and debits |
| Auctions.SumMemberCredits | app/src/main/java/com/example/bidforstudy/data/BiddingManager.kt:391 | the members' credits add up to the group total, and their debits to minus the total |
| Auctions.HalfRefunds | app/src/main/java/com/example/bidforstudy/data/BiddingManager.kt:688-693 | the half refunds of a cancelled group, each a positive credit |
| Auctions.HalfRefundsFor | app/src/main/java/com/example/bidforstudy/data/BiddingManager.kt:688-693 | with distinct accounts, each member gets back exactly half of the pledge, rounded down |
| Auctions.HalfRefundsUsers | app/src/main/java/com/example/bidforstudy/data/BiddingManager.kt:688-693 | half refunds go only to members of the group |
| Auctions.RefundRestoresAmount | app/src/main/java/com/example/bidforstudy/data/BiddingManager.kt:204-217 | an outbid party is credited exactly the amount of its entry: a single bidder directly, and a group through its recorded members |
| Auctions.RefundIsCredit | app/src/main/java/com/example/bidforstudy/data/BiddingManager.kt:204-217 | every refund of a positive entry is a positive credit |
| Auctions.RefundIgnoringKeyCreditsWrongMembers | app/src/main/java/com/example/bidforstudy/data/BiddingManager.kt:208-210 | the snapshot lookup as written credits the members of another auction's group (see Findings) |
| Auctions.PushRecord | app/src/main/java/com/example/bidforstudy/data/BiddingManager.kt:443-453 | the record goes first, the old records follow in order, and at most ten are kept |
| Auctions.RecordGroupBidMembers | app/src/main/java/com/example/bidforstudy/data/BiddingManager.kt:442-454 | each member's history after a submission is its old history with the pledge record pushed in front |
| Auctions.RecordGroupBidOthers | app/src/main/java/com/example/bidforstudy/data/BiddingManager.kt:442-454 | the histories of non-members are untouched |
| Auctions.RecordGroupBidBounded | app/src/main/java/com/example/bidforstudy/data/BiddingManager.kt:453 | histories stay within ten records |
| Auctions.FirstShortMember | app/src/main/java/com/example/bidforstudy/data/BiddingManager.kt:404-412 | the first member whose pledge exceeds their balance; none exactly when every pledge is covered |
| Auctions.GroupCandidateIndex | app/src/main/java/com/example/bidforstudy/data/BiddingManager.kt:481-489 | the highest group entry whose owner has not refused on this auction, the first of equal maxima; none when no such entry exists |
| Auctions.GroupOffer | app/src/main/java/com/example/bidforstudy/data/BiddingManager.kt:478-506 | a second-chance pending group for the best candidate's owner (join code = owner, room capacity) whose members are those of the last snapshot recorded for that entry on this auction; none exactly when there is no candidate or its snapshot is missing |
| Auctions.GroupOfferWellFormed | app/src/main/java/com/example/bidforstudy/data/BiddingManager.kt:497-506 | a re-offered group is a well-formed pending group: owned by its first member, distinct members, positive pledges, within capacity |
| Auctions.SingleCandidateIndex | app/src/main/java/com/example/bidforstudy/data/BiddingManager.kt:560-566 | the first highest single entry of someone other than the canceller who has not refused; none when there is no such entry |
| Auctions.NextSingleCandidateIndex | app/src/main/java/com/example/bidforstudy/data/BiddingManager.kt:625-631 | the first highest single entry of a bidder who has not refused; none when there is no such entry |
| Auctions.WithoutSinglesOf | app/src/main/java/com/example/bidforstudy/data/BiddingManager.kt:554 | drops exactly the user's single entries and keeps every other entry with its multiplicity |
| Auctions.WithoutOffersTo | app/src/main/java/com/example/bidforstudy/data/BiddingManager.kt:569-571 | drops exactly the offers of this auction to this bidder |
| Auctions.Reoffer | app/src/main/java/com/example/bidforstudy/data/BiddingManager.kt:569-578 | the new offer is last, no earlier offer is for the same auction and bidder, every other offer is kept, and nothing else is added |
| Auctions.ReofferFound | app/src/main/java/com/example/bidforstudy/data/BiddingManager.kt:569-578 | the bidder's new offer is the one `firstOrNull` finds afterwards |
| Auctions.JoinKeepsWellFormed | app/src/main/java/com/example/bidforstudy/data/BiddingManager.kt:289-297 | adding a new member below capacity keeps a pending group well-formed |
| Auctions.UpdateKeepsWellFormed | app/src/main/java/com/example/bidforstudy/data/BiddingManager.kt:330-332 | changing one pledge to a positive amount keeps a pending group well-formed |
| Auctions.SubmittedSnapshotWellFormed | app/src/main/java/com/example/bidforstudy/data/BiddingManager.kt:433-440 | the recorded snapshot of a well-formed group is consistent: total = sum of pledges, id = `group:<owner>` |
| Auctions.PositiveTotal | app/src/main/java/com/example/bidforstudy/data/BiddingManager.kt:391-394 | a group with positive pledges has a positive total, so with unbounded integers the "total must be positive" check never fires on a valid group (a Kotlin `Int` sum can wrap, and then it does) |
| Sorting.SortDesc | app/src/main/java/com/example/bidforstudy/data/BiddingManager.kt:116 | a permutation of the input, descending by the key |
| Sorting.TakeKeepsLargest | app/src/main/java/com/example/bidforstudy/data/BiddingManager.kt:116-117 | after sorting, nothing left out has a larger key than anything kept |
| Sorting.TopN | app/src/main/java/com/example/bidforstudy/data/BiddingManager.kt:794-796 | the sorted input cut to `n`: descending, a sub-multiset of the input, and the whole input when shorter than `n` |
| Sorting.TopNKeepsLargest | app/src/main/java/com/example/bidforstudy/data/BiddingManager.kt:794-796 | nothing left out has a larger key than anything kept |
| Bidding.RefundThenDebit | app/src/main/java/com/example/bidforstudy/data/BiddingManager.kt:183-189 | refunding the previous top and then debiting a covered bid keeps balances non-negative and changes the total by (refund − bid) |
| Bidding.RefundThenDebits | app/src/main/java/com/example/bidforstudy/data/BiddingManager.kt:416-423 | refunding and then debiting every covered member keeps distinct accounts non-negative; the total changes by (refund − group total) |
| Bidding.FirstRecordFor | app/src/main/java/com/example/bidforstudy/data/BiddingManager.kt:748 | the first (newest) history record of the auction, none exactly when there is none |
| Bidding.BiddingManager.constructor | app/src/main/java/com/example/bidforstudy/data/BiddingManager.kt:71-89 | all stores start empty, attached to a valid ledger |
| Bidding.BiddingManager.GetCurrentBid | app/src/main/java/com/example/bidforstudy/data/BiddingManager.kt:104-107 | the highest amount bid (attained and bounding all entries), 0 for an auction without entries |
| Bidding.BiddingManager.GetHighestBidEntry | app/src/main/java/com/example/bidforstudy/data/BiddingManager.kt:109-112 | an entry of the auction carrying the current bid, with no earlier entry as high (the first of equal maxima); none exactly when the auction has no entries |
| Bidding.BiddingManager.GetLastBidsForAuction | app/src/main/java/com/example/bidforstudy/data/BiddingManager.kt:114-119 | `min(limit, size)` entries of the auction, latest first |
| Bidding.BiddingManager.LastBidsAreLatest | app/src/main/java/com/example/bidforstudy/data/BiddingManager.kt:114-119 | no entry left out is later than an entry returned |
| Bidding.BiddingManager.EndedStaysEnded | app/src/main/java/com/example/bidforstudy/data/BiddingManager.kt:121-126 | once an auction has ended, it stays ended as time goes on |
| Bidding.BiddingManager.ForceCloseAuction | app/src/main/java/com/example/bidforstudy/data/BiddingManager.kt:131-133 | only the closed set changes (the key is added), and the auction counts as ended at any time |
| Bidding.BiddingManager.GetPendingGroupsForUser | app/src/main/java/com/example/bidforstudy/data/BiddingManager.kt:465-469 | exactly the pending groups having the user as a member |
| Bidding.BiddingManager.GetPendingGroup | app/src/main/java/com/example/bidforstudy/data/BiddingManager.kt:471-476 | a stored group exactly when one is pending under (key, join code) |
| Bidding.BiddingManager.PendingGroupShape | app/src/main/java/com/example/bidforstudy/data/BiddingManager.kt:252-260 | a group found by join code belongs to that auction, is owned by the join code's user who is its first member, and fits the room with distinct members |
| Bidding.BiddingManager.GetSecondChanceBidsForUser | app/src/main/java/com/example/bidforstudy/data/BiddingManager.kt:584-586 | exactly the offers to the user, each as often as it is pending |
| Bidding.BiddingManager.TopRefundSpec | app/src/main/java/com/example/bidforstudy/data/BiddingManager.kt:183-186 | the previous top's refund consists of positive credits; when its snapshot exists, the refund totals the current bid |
| Bidding.BiddingManager.RefundBid | app/src/main/java/com/example/bidforstudy/data/BiddingManager.kt:204-217 | the ledger becomes the old ledger with the entry's refund credits applied (single bidder, or each recorded member of that auction's group) |
| Bidding.BiddingManager.DebitMembers | app/src/main/java/com/example/bidforstudy/data/BiddingManager.kt:421-423 | the ledger becomes the old ledger with one debit per member applied, in order |
| Bidding.BiddingManager.RefundHalves | app/src/main/java/com/example/bidforstudy/data/BiddingManager.kt:688-693 | the ledger becomes the old ledger with a credit of half of each member's pledge, for halves above 0 |
| Bidding.BiddingManager.RefundHalf | app/src/main/java/com/example/bidforstudy/data/BiddingManager.kt:689-692 | a credit of half the member's pledge when that half is positive, otherwise no change |
| Bidding.BiddingManager.PlaceSingleBid | app/src/main/java/com/example/bidforstudy/data/BiddingManager.kt:137-201 | refused with the first failing check, in source order (not a single room, ended, amount ≤ 0, not above the current bid, not enough tokens), and then nothing changes. On success only the entry is appended, it becomes the highest, the previous top is refunded, the bidder is debited, balances stay non-negative, and the total moves by (old top − bid) |
| Bidding.BiddingManager.ChargeSingleBid | app/src/main/java/com/example/bidforstudy/data/BiddingManager.kt:182-189 | refund of the previous top then the bidder's debit: exact new ledger, non-negativity, total |
| Bidding.BiddingManager.NewHighest | app/src/main/java/com/example/bidforstudy/data/BiddingManager.kt:192-200 | an entry above all earlier ones is the current bid and the highest entry |
| Bidding.BiddingManager.StartGroupBid | app/src/main/java/com/example/bidforstudy/data/BiddingManager.kt:219-263 | refused in source order (not multi-person, amount ≤ 0, ended, already started); on success only a new pending group exists under (key, owner) with the owner as sole member, and the owner sees it among their pending groups |
| Bidding.BiddingManager.JoinGroupBid | app/src/main/java/com/example/bidforstudy/data/BiddingManager.kt:265-305 | refused in source order (amount ≤ 0, no group, second-chance group, already a member, full); on success only the member is appended, the group stays within capacity with distinct members, and the joiner sees it |
| Bidding.BiddingManager.UpdateGroupMemberBid | app/src/main/java/com/example/bidforstudy/data/BiddingManager.kt:307-334 | refused in source order (amount ≤ 0, no group, second-chance group, not a member); on success only that member's pledge changes, to the new amount, and all ids and other pledges are kept |
| Bidding.BiddingManager.OfferNextGroupSecondChance | app/src/main/java/com/example/bidforstudy/data/BiddingManager.kt:478-509 | creates the `GroupOffer` of the current entries and refusals, if any, stores it under (key, owner) and marks the second-chance round; returns whether it did |
| Bidding.BiddingManager.CancelGroupBid | app/src/main/java/com/example/bidforstudy/data/BiddingManager.kt:336-366 | refused when there is no group, or when the requester is not the owner. On success the group is gone. For a second-chance group the owner is also refused on this auction, and the next group offer is made or the round ends |
| Bidding.BiddingManager.FindShortMember | app/src/main/java/com/example/bidforstudy/data/BiddingManager.kt:404-412 | the loop finds the first member who cannot cover their pledge |
| Bidding.BiddingManager.ChargeGroupBid | app/src/main/java/com/example/bidforstudy/data/BiddingManager.kt:414-423 | refund of the previous top then one debit per member: exact new ledger, non-negativity for distinct accounts, total |
| Bidding.BiddingManager.PushHistories | app/src/main/java/com/example/bidforstudy/data/BiddingManager.kt:442-454 | the histories become `RecordGroupBid` of the old ones; the bound of ten is kept |
| Bidding.BiddingManager.CommitGroupStores | app/src/main/java/com/example/bidforstudy/data/BiddingManager.kt:425-460 | the stores become `SubmittedStores`: entry appended, snapshot recorded, histories pushed, pending group removed, second-chance round ended |
| Bidding.BiddingManager.SubmitGroupBid | app/src/main/java/com/example/bidforstudy/data/BiddingManager.kt:368-463 | refused in source order (no group, not the owner, ended, total ≤ 0, not above the current bid unless second chance, a member short of tokens). On success the result is the total; stores and ledger change as stated, the group entry becomes the highest (outside a second-chance round), balances stay non-negative for distinct accounts, and the total moves by (old top − group total) |
| Bidding.BiddingManager.CommitGroupBid | app/src/main/java/com/example/bidforstudy/data/BiddingManager.kt:414-463 | everything a submission does once its checks have passed, with its ledger and highest-entry effects |
| Bidding.BiddingManager.CancelReservationForUser | app/src/main/java/com/example/bidforstudy/data/BiddingManager.kt:511-582 | refused in source order (not a single room, past the deadline, no entries, not the winner with that amount). On success the user gets `amount / 2` back, none of their single entries remain, the round starts, and the next candidate is offered their own amount; no balance becomes negative |
| Bidding.BiddingManager.ReleaseSingleWin | app/src/main/java/com/example/bidforstudy/data/BiddingManager.kt:553-579 | the stores become `SingleWinReleased` |
| Bidding.BiddingManager.SubmitSecondChanceBid | app/src/main/java/com/example/bidforstudy/data/BiddingManager.kt:588-611 | refused with no offer, or when the user cannot pay for it. On success the user is debited the offered amount and ends at a balance ≥ 0; that offer is removed and the round ends |
| Bidding.BiddingManager.CancelSecondChanceBid | app/src/main/java/com/example/bidforstudy/data/BiddingManager.kt:613-646 | refused with no offer. On success the offer is removed and the user is refused, and the next candidate's offer is appended or the round ends; an unchanged count of offers means the new one is to another bidder |
| Bidding.BiddingManager.CancelGroupReservationForOwner | app/src/main/java/com/example/bidforstudy/data/BiddingManager.kt:649-707 | refused in source order (not multi-person, past the deadline, no entries, winner is not this owner's group, no snapshot). On success each recorded member gets half of the pledge back, the winning entry is removed, and the next group is re-offered or the round ends |
| Bidding.BiddingManager.ReleaseGroupWin | app/src/main/java/com/example/bidforstudy/data/BiddingManager.kt:687-704 | half refunds of the snapshot and the stores become `GroupWinReleased` |
| Bidding.BiddingManager.GetUserBidHistory | app/src/main/java/com/example/bidforstudy/data/BiddingManager.kt:709-755 | at most `limit` summaries, ordered by the source's sort key, never more copies of a summary than the user's entries and records produce, all of them when fewer than `limit`, and none left out sorts before one kept |
| Bidding.BiddingManager.CollectSingles | app/src/main/java/com/example/bidforstudy/data/BiddingManager.kt:714-730 | the loop over the auctions gathers each single summary exactly as often as the user's entries produce it |
| Bidding.BiddingManager.ReservationFor | app/src/main/java/com/example/bidforstudy/data/BiddingManager.kt:764-791 | a reservation only on an ended auction with entries and outside a second-chance round, at the current bid, for its single winner or for a member of the last snapshot recorded for the winning group entry; the single winner and every member of that snapshot always have one |
| Bidding.BiddingManager.GetUserReservationHistory | app/src/main/java/com/example/bidforstudy/data/BiddingManager.kt:757-797 | at most `limit` reservations, latest reservation day first, each held by the user and listed once, all of them when fewer than `limit`, and none left out is later than one kept |
| Bidding.BiddingManager.CollectReservations | app/src/main/java/com/example/bidforstudy/data/BiddingManager.kt:762-792 | the loop over the auctions gathers each of the user's reservations exactly once |

## Left out

- Kotlin `Int` is 32-bit. The model uses unbounded integers, so balances, totals and amounts
  never overflow. Tokens enter the ledger only through `addTokens`, and no overflow check
  exists in the source to model.
- `LocalDateTime.now()` is not read. Every operation that needs the time takes `now` as a
  parameter.
- `LocalDate`/`LocalDateTime` arithmetic is modelled as integer days and nanoseconds. `minusWeeks(1).atStartOfDay()` becomes the start of day `d - 7`, and `minusDays(1)` the start of day `d - 1`.
- `LocalDateTime.MIN`, the sort key of singles in `getUserBidHistory`, is the start of epoch day −365243219162. Timestamps are not constrained to lie after it.
- Iteration order of the Kotlin maps: the model's maps have no order. So the loops in
  `getUserBidHistory` and `getUserReservationHistory` visit the auctions in an unspecified
  order, and the model does not fix the relative order of entries with equal sort keys:
  - in the bid history, the singles amongst themselves, and group summaries with equal times;
  - in the reservation history, reservations on the same day.

  What can be listed is fully specified.
- Bidding.BiddingManager.GetUserBidHistory: does not say which summaries are kept when the
  limit cuts through equal sort keys, because that depends on map order.
- Bidding.BiddingManager.GetUserReservationHistory: does not say which reservations are kept
  when the limit cuts through one day, for the same reason.
- `limit` is a `nat`. Kotlin's `take` rejects a negative limit with an exception, and that
  exception is not modelled.
- `pendingGroups` is modelled as a map and `getPendingGroupsForUser` returns a set. The
  source returns a list in map order.
- Mutable group objects. In the source, `getPendingGroup` hands out the live
  `PendingGroupBid`, and a caller could mutate it outside the engine. The model returns
  values, so this aliasing is not captured.
- The snapshot copies members (`members.map { it.copy() }`), so it is not aliased with the
  pending group. The model's values agree with this.
- `trim()` uses the JVM whitespace set of `Char.isWhitespace`. Two different raw ids that trim
  to the same name share one account. The engine's group-ledger non-negativity claim
  therefore assumes distinct trimmed member ids (`DistinctAccounts`). Membership checks
  compare raw ids, as the source does.
- Bidding.BiddingManager.TopRefund: the engine refunds an outbid group entry through the key-aware lookup
  `RefundCredits` (the corrected half of the Findings row). `refundBid` as written looks up
  the last snapshot with that group id and total on any auction (`RefundCreditsAsWritten`).
- Bidding.BiddingManager.TopRefundSpec: is proved for the key-aware refund, not for the
  lookup as written.
- Bidding.BiddingManager.RefundBid: credits the members of this auction's snapshot. The
  source credits those of the last snapshot with the same id and total, which can belong to
  another auction.
- Bidding.BiddingManager.PlaceSingleBid: refunds a group top entry through the key-aware
  lookup, not the lookup as written.
- Bidding.BiddingManager.ChargeSingleBid: uses the same key-aware refund.
- Bidding.BiddingManager.ChargeGroupBid: uses the same key-aware refund.
- Bidding.BiddingManager.SubmitGroupBid: refunds the outbid group entry through the
  key-aware lookup, not the lookup as written.
- Bidding.BiddingManager.CommitGroupBid: uses the same key-aware refund.
- Error messages are not modelled. Each failure is a `BidError` tag naming the failing check.
- Behaviours of the source that the model keeps as they are:
  - `joinGroupBid` checks neither that the auction is still open nor that the user is in no
    other group on the same auction.
  - `submitSecondChanceBid` debits the offered amount but adds no bid entry.
  - `cancelSecondChanceBid` appends the next offer without removing an existing offer to the
    same bidder.
  - `cancelGroupReservationForOwner` re-offers using the refusals as they were, without
    adding the cancelling owner.
- The Android UI, the view model and the `AuthRepository` interface are not part of this
  model. The engine's ledger calls go straight to `InMemoryAuthRepository`, as the engine's
  `authRepo` field does.
- Concurrency: the source is a single-threaded object, and the model is sequential.

## Findings

| source | as written | input that shows it | evidently intended | confidence | as-written member | corrected member |
|---|---|---|---|---|---|---|
| app/src/main/java/com/example/bidforstudy/data/BiddingManager.kt:208-210 | `refundBid` looks up the outbid group's snapshot by group id and total only, ignoring the auction | owner `o` wins room 101 with `a` (total 45), later room 102 with `c` (total 45); room 101's group entry is outbid: `o` and `c` are refunded, `a` is not | look the snapshot up by auction as well, as `cancelGroupReservationForOwner` and `offerNextGroupSecondChance` do, so that the outbid group's own members get their pledges back | not executed | Auctions.RefundCreditsAsWritten, shown by Auctions.RefundIgnoringKeyCreditsWrongMembers | Auctions.RefundCredits, with Auctions.RefundRestoresAmount; used by Bidding.BiddingManager.RefundBid |
