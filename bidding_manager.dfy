/**
 * `BiddingManager`: the auction engine. It keeps the bids of every auction, the groups being
 * formed, the recorded (submitted) groups, each user's group history and the second-chance
 * offers, and moves tokens through the ledger of an `InMemoryAuthRepository`.
 */
module Bidding {
  import opened Wrappers
  import opened Auth
  import opened Sorting
  import opened Auctions

  /** The engine's stores as one value, so that a contract can state the whole new state. */
  datatype Stores = Stores(
    bids: map<AuctionKey, seq<BidEntry>>,
    pending: map<(AuctionKey, string), PendingGroupBid>,
    finals: seq<FinalGroupBid>,
    histories: map<string, seq<UserGroupBidRecord>>,
    offers: seq<SecondChanceBid>,
    secondChance: set<AuctionKey>,
    refused: set<(AuctionKey, string)>,
    closed: set<AuctionKey>)

  /**
   * The ledger of a successful group bid: refunds (all credits) followed by one debit per member,
   * each covered by that member's balance, change the total by the refunds less the group total,
   * and keep balances non-negative when the members' accounts are distinct.
   */
  lemma RefundThenDebits(tokens: map<string, int>, refund: seq<Credit>, ms: seq<GroupMemberBid>)
    requires forall i :: 0 <= i < |refund| ==> refund[i].delta > 0
    requires PositiveAmounts(ms) && FirstShortMember(ms, tokens).None?
    ensures ApplyCredits(ApplyCredits(tokens, refund), MemberDebits(ms)) == ApplyCredits(tokens, refund + MemberDebits(ms))
    ensures NonNegative(tokens) && DistinctAccounts(ms) ==> NonNegative(ApplyCredits(tokens, refund + MemberDebits(ms)))
    ensures Total(ApplyCredits(tokens, refund + MemberDebits(ms))) == Total(tokens) + SumDeltas(refund) - SumAmounts(ms)
  {
    var debits := MemberDebits(ms);
    ApplyCreditsAppend(tokens, refund, debits);
    ApplyCreditsTotal(tokens, refund + debits);
    SumDeltasAppend(refund, debits);
    SumMemberCredits(ms);
    if NonNegative(tokens) && DistinctAccounts(ms) {
      var refunded := ApplyCredits(tokens, refund);
      NonNegativeCreditsKeepNonNegative(tokens, refund);
      forall i | 0 <= i < |debits|
        ensures debits[i].delta <= 0 && Balance(refunded, debits[i].user) + debits[i].delta >= 0
      {
        NonNegativeCreditsOnlyRaise(tokens, refund, ms[i].userId);
      }
      CoveredDebitsKeepNonNegative(refunded, debits);
    }
  }

  function TimestampOf(e: BidEntry): int {
    e.timestamp
  }

  function DayOf(s: ReservationSummary): int {
    s.auctionKey.reservationDay
  }

  /** The epoch day of `LocalDate.MIN` (-999999999-01-01); `LocalDateTime.MIN` is its start. */
  const MinEpochDay: int := -365_243_219_162

  /** `find { it.auctionKey == key }` over a history: the position of its first record for `key`. */
  function FirstRecordFor(recs: seq<UserGroupBidRecord>, key: AuctionKey): (r: Option<nat>)
    ensures r.Some? ==> r.value < |recs| && recs[r.value].auctionKey == key
    ensures r.Some? ==> forall j :: 0 <= j < r.value ==> recs[j].auctionKey != key
    ensures r.None? <==> forall j :: 0 <= j < |recs| ==> recs[j].auctionKey != key
    decreases |recs|
  {
    if recs == [] then None
    else if recs[0].auctionKey == key then Some(0)
    else
      match FirstRecordFor(recs[1..], key)
      case None => None
      case Some(i) => Some(i + 1)
  }

  /**
   * The sort key of the bid history: for a group summary the time of the first (newest) record
   * of the user's history on that auction, otherwise `LocalDateTime.MIN`.
   */
  function SortTime(recs: seq<UserGroupBidRecord>, s: UserBidSummary): int {
    if !s.isGroup then StartOfDay(MinEpochDay)
    else
      match FirstRecordFor(recs, s.auctionKey)
      case None => StartOfDay(MinEpochDay)
      case Some(i) => recs[i].timestamp
  }

  function SortTimeIn(recs: seq<UserGroupBidRecord>): UserBidSummary -> int {
    s => SortTime(recs, s)
  }

  /**
   * The ledger of a successful bid: refunds (all credits) followed by the bidder's debit, which
   * the bidder's balance covers, keep balances non-negative and change the total by the refunds
   * less the new bid.
   */
  lemma RefundThenDebit(tokens: map<string, int>, refund: seq<Credit>, u: string, amount: int)
    requires forall i :: 0 <= i < |refund| ==> refund[i].delta > 0
    requires Balance(tokens, u) >= amount
    ensures ApplyCredits(ApplyCredits(tokens, refund), [Credit(u, -amount)]) == ApplyCredits(tokens, refund + [Credit(u, -amount)])
    ensures NonNegative(tokens) ==> NonNegative(ApplyCredits(tokens, refund + [Credit(u, -amount)]))
    ensures Total(ApplyCredits(tokens, refund + [Credit(u, -amount)])) == Total(tokens) + SumDeltas(refund) - amount
  {
    ApplyCreditsAppend(tokens, refund, [Credit(u, -amount)]);
    RefundThenDebitTotal(tokens, refund, u, amount);
    if NonNegative(tokens) {
      RefundThenDebitNonNegative(tokens, refund, u, amount);
    }
  }

  /** The total after a refund and one debit: the refund's deltas added, the debit taken. */
  lemma RefundThenDebitTotal(tokens: map<string, int>, refund: seq<Credit>, u: string, amount: int)
    ensures Total(ApplyCredits(tokens, refund + [Credit(u, -amount)])) == Total(tokens) + SumDeltas(refund) - amount
  {
    var debit := Credit(u, -amount);
    var refunded := ApplyCredits(tokens, refund);
    ApplyCreditsSnoc(tokens, refund, debit);
    assert ApplyCredits(tokens, refund + [debit]) == Credited(refunded, u, -amount);
    ApplyCreditsTotal(tokens, refund);
    assert Total(refunded) == Total(tokens) + SumDeltas(refund);
    CreditedTotal(refunded, u, -amount);
  }

  /** A refund of positive credits followed by a debit the balance covers leaves no balance negative. */
  lemma RefundThenDebitNonNegative(tokens: map<string, int>, refund: seq<Credit>, u: string, amount: int)
    requires forall i :: 0 <= i < |refund| ==> refund[i].delta > 0
    requires Balance(tokens, u) >= amount
    requires NonNegative(tokens)
    ensures NonNegative(ApplyCredits(tokens, refund + [Credit(u, -amount)]))
  {
    var debit := Credit(u, -amount);
    var refunded := ApplyCredits(tokens, refund);
    ApplyCreditsSnoc(tokens, refund, debit);
    assert ApplyCredits(tokens, refund + [debit]) == Credited(refunded, u, -amount);
    assert forall i :: 0 <= i < |refund| ==> refund[i].delta >= 0;
    NonNegativeCreditsKeepNonNegative(tokens, refund);
    NonNegativeCreditsOnlyRaise(tokens, refund, u);
    assert Balance(refunded, u) - amount >= 0;
    CreditedKeepsNonNegative(refunded, u, -amount);
  }

  /**
   * The stores after the group `g`, pending under `(key, joinCode)`, is submitted: its total is
   * bid under the group's id, the group is recorded, each member's history gets the pledge, the
   * pending group is gone and a second-chance round on the auction ends.
   */
  function SubmittedStores(s: Stores, key: AuctionKey, joinCode: string, g: PendingGroupBid, now: int): Stores {
    var total := SumAmounts(g.members);
    var groupId := GroupIdOf(g.ownerId);
    var list := if key in s.bids then s.bids[key] else [];
    s.(bids := s.bids[key := list + [BidEntry(groupId, total, now)]],
       pending := s.pending - {(key, joinCode)},
       finals := s.finals + [FinalGroupBid(key, groupId, g.members, total)],
       histories := RecordGroupBid(s.histories, g.members, key, total, now),
       secondChance := if g.isSecondChance then s.secondChance - {key} else s.secondChance)
  }

  /**
   * The stores after the winning group entry of `key` (its first highest entry) is withdrawn:
   * the entry leaves the auction and the best group entry not yet refused is re-offered with its
   * recorded members, which keeps the auction in its second-chance round, or the round ends.
   */
  function GroupWinReleased(s: Stores, key: AuctionKey): Stores
    requires key in s.bids && s.bids[key] != []
  {
    var bids := s.bids[key];
    var rest := RemoveAt(bids, HighestIndex(bids).value);
    var offer := GroupOffer(key, rest, s.refused, s.finals);
    s.(bids := s.bids[key := rest],
       pending := WithOffer(s.pending, offer),
       secondChance := if offer.Some? then s.secondChance + {key} else s.secondChance - {key})
  }

  /**
   * The stores after the winning single bidder `userId` of `key` withdraws: all of their single
   * entries leave the auction, which enters its second-chance round, and the best remaining
   * single bidder who has not refused is offered their own amount.
   */
  function SingleWinReleased(s: Stores, key: AuctionKey, userId: string): Stores
    requires key in s.bids
  {
    var rest := WithoutSinglesOf(s.bids[key], userId);
    var candidate := SingleCandidateIndex(key, rest, s.refused, userId);
    s.(bids := s.bids[key := rest],
       offers := if candidate.Some? then Reoffer(s.offers, key, rest[candidate.value]) else s.offers,
       secondChance := s.secondChance + {key})
  }

  /** The pending groups once a re-offer, if any, is stored under its owner's id. */
  function WithOffer(pending: map<(AuctionKey, string), PendingGroupBid>, offer: Option<PendingGroupBid>): map<(AuctionKey, string), PendingGroupBid> {
    match offer
    case None => pending
    case Some(g) => pending[(g.key, g.ownerId) := g]
  }

  class BiddingManager {
    const repo: InMemoryAuthRepository
    var bidsByAuction: map<AuctionKey, seq<BidEntry>>
    /** Groups being formed, by (auction, join code); the join code is the owner's id. */
    var pendingGroups: map<(AuctionKey, string), PendingGroupBid>
    var finalGroupBids: seq<FinalGroupBid>
    var userGroupHistory: map<string, seq<UserGroupBidRecord>>
    var pendingSecondChances: seq<SecondChanceBid>
    var auctionsWithSecondChance: set<AuctionKey>
    var refusedSecondChances: set<(AuctionKey, string)>
    var forceClosedAuctions: set<AuctionKey>

    ghost function State(): Stores
      reads this
    {
      Stores(bidsByAuction, pendingGroups, finalGroupBids, userGroupHistory, pendingSecondChances,
             auctionsWithSecondChance, refusedSecondChances, forceClosedAuctions)
    }

    /**
     * What every operation keeps: a consistent ledger, positive entries, well-formed pending
     * and recorded groups, and personal group histories of at most ten records.
     */
    ghost predicate Valid()
      reads this, repo
    {
      repo.Valid() && StoresValid()
    }

    /** The part of `Valid` about the engine's own stores. */
    ghost predicate StoresValid()
      reads this
    {
      && (forall k :: k in bidsByAuction ==> PositiveEntries(bidsByAuction[k]))
      && (forall pk :: pk in pendingGroups ==> WellFormedPending(pk, pendingGroups[pk]))
      && (forall j :: 0 <= j < |finalGroupBids| ==> WellFormedSnapshot(finalGroupBids[j]))
      && (forall u :: u in userGroupHistory ==> |userGroupHistory[u]| <= MaxGroupHistory)
    }

    constructor (repo: InMemoryAuthRepository)
      requires repo.Valid()
      ensures Valid() && this.repo == repo
      ensures State() == Stores(map[], map[], [], map[], [], {}, {}, {})
    {
      this.repo := repo;
      bidsByAuction := map[];
      pendingGroups := map[];
      finalGroupBids := [];
      userGroupHistory := map[];
      pendingSecondChances := [];
      auctionsWithSecondChance := {};
      refusedSecondChances := {};
      forceClosedAuctions := {};
    }

    // ---------- queries ----------

    /** The entries of an auction (none when nobody bid). */
    function Bids(key: AuctionKey): seq<BidEntry>
      reads this
    {
      if key in bidsByAuction then bidsByAuction[key] else []
    }

    /** `getCurrentBid`: the highest amount bid on the auction, 0 when there is none. */
    function GetCurrentBid(key: AuctionKey): (r: int)
      reads this
      ensures Bids(key) == [] ==> r == 0
      ensures forall i :: 0 <= i < |Bids(key)| ==> Bids(key)[i].amount <= r
      ensures Bids(key) != [] ==> exists i :: 0 <= i < |Bids(key)| && Bids(key)[i].amount == r
    {
      MaxAmount(Bids(key))
    }

    /** `getHighestBidEntry`: the earliest of the entries with the highest amount. */
    function GetHighestBidEntry(key: AuctionKey): (r: Option<BidEntry>)
      reads this
      ensures r.None? <==> Bids(key) == []
      ensures r.Some? ==> r.value in Bids(key) && r.value.amount == GetCurrentBid(key)
      ensures r.Some? ==>
        exists i :: 0 <= i < |Bids(key)| && Bids(key)[i] == r.value && (forall j :: 0 <= j < i ==> Bids(key)[j].amount < r.value.amount)
    {
      match HighestIndex(Bids(key))
      case None => None
      case Some(i) => Some(Bids(key)[i])
    }

    /** `getLastBidsForAuction`: the `limit` latest entries, latest first. */
    function GetLastBidsForAuction(key: AuctionKey, limit: nat): (r: seq<BidEntry>)
      reads this
      ensures |r| == if limit < |Bids(key)| then limit else |Bids(key)|
      ensures SortedDesc(r, TimestampOf)
      ensures multiset(r) <= multiset(Bids(key))
    {
      var sorted := SortDesc(Bids(key), TimestampOf);
      var r := Take(sorted, limit);
      assert multiset(r) <= multiset(sorted) by {
        assert sorted == r + sorted[|r|..];
      }
      r
    }

    /** No entry left out of `getLastBidsForAuction` is later than one it returns. */
    lemma LastBidsAreLatest(key: AuctionKey, limit: nat, x: BidEntry, y: BidEntry)
      requires x in GetLastBidsForAuction(key, limit)
      requires y in multiset(Bids(key)) - multiset(GetLastBidsForAuction(key, limit))
      ensures y.timestamp <= x.timestamp
    {
      TakeKeepsLargest(SortDesc(Bids(key), TimestampOf), limit, TimestampOf, x, y);
    }

    /** `isAuctionEnded`: bidding has reached its end time, or the auction was force-closed. */
    predicate IsAuctionEnded(key: AuctionKey, now: int)
      reads this
    {
      now >= BiddingEnd(key) || key in forceClosedAuctions
    }

    /** An auction that has ended stays ended as time goes on. */
    lemma EndedStaysEnded(key: AuctionKey, t1: int, t2: int)
      requires t1 <= t2 && IsAuctionEnded(key, t1)
      ensures IsAuctionEnded(key, t2)
    {
    }

    /** `getPendingGroupsForUser`: the pending groups the user is a member of. */
    function GetPendingGroupsForUser(userId: string): (r: set<PendingGroupBid>)
      reads this
      ensures forall g :: g in r <==> g in pendingGroups.Values && MemberIndex(g.members, userId).Some?
    {
      set pk | pk in pendingGroups && MemberIndex(pendingGroups[pk].members, userId).Some? :: pendingGroups[pk]
    }

    /** `getPendingGroup`: the group being formed under this join code, if any. */
    function GetPendingGroup(key: AuctionKey, joinCode: string): (r: Option<PendingGroupBid>)
      reads this
      ensures r.Some? <==> (key, joinCode) in pendingGroups
      ensures r.Some? ==> r.value in pendingGroups.Values
    {
      if (key, joinCode) in pendingGroups then Some(pendingGroups[(key, joinCode)]) else None
    }

    /** A group found by `getPendingGroup` belongs to that auction, is owned by the join code's user and fits the room. */
    lemma PendingGroupShape(key: AuctionKey, joinCode: string)
      requires Valid() && GetPendingGroup(key, joinCode).Some?
      ensures var g := GetPendingGroup(key, joinCode).value;
        g.key == key && g.ownerId == joinCode && g.joinCode == joinCode && g.capacity == key.capacity &&
        1 <= |g.members| <= key.capacity && g.members[0].userId == joinCode && DistinctIds(g.members)
    {
      assert WellFormedPending((key, joinCode), pendingGroups[(key, joinCode)]);
    }

    /** `getSecondChanceBidsForUser`: the offers to this user, in offer order. */
    function GetSecondChanceBidsForUser(userId: string): (r: seq<SecondChanceBid>)
      reads this
      ensures forall o :: o in r <==> o in pendingSecondChances && o.bidderId == userId
      ensures forall o :: multiset(r)[o] == if o.bidderId == userId then multiset(pendingSecondChances)[o] else 0
    {
      Filter(pendingSecondChances, (o: SecondChanceBid) => o.bidderId == userId)
    }

    /** `forceCloseAuction`: from now on the auction counts as ended, whatever the time. */
    method ForceCloseAuction(key: AuctionKey)
      requires Valid()
      modifies this
      ensures Valid()
      ensures State() == old(State()).(closed := old(forceClosedAuctions) + {key})
      ensures forall now :: IsAuctionEnded(key, now)
    {
      forceClosedAuctions := forceClosedAuctions + {key};
    }

    // ---------- the ledger side of refunds and debits ----------

    /** The credits that refund the current highest entry of the auction (none when there is no entry). */
    function TopRefund(key: AuctionKey): seq<Credit>
      reads this
    {
      match GetHighestBidEntry(key)
      case None => []
      case Some(e) => RefundCredits(e, key, finalGroupBids)
    }

    /** The highest entry, if any, is a single bid or a group bid whose members were recorded. */
    ghost predicate TopRefundable(key: AuctionKey)
      reads this
    {
      match GetHighestBidEntry(key)
      case None => true
      case Some(e) => !IsGroupId(e.bidderId) || HasSnapshot(finalGroupBids, key, e)
    }

    /** Refunding the highest entry gives back exactly the current bid and never debits anyone. */
    lemma TopRefundSpec(key: AuctionKey)
      requires Valid()
      ensures TopRefundable(key) ==> SumDeltas(TopRefund(key)) == GetCurrentBid(key)
      ensures forall i :: 0 <= i < |TopRefund(key)| ==> TopRefund(key)[i].delta > 0
    {
      match GetHighestBidEntry(key)
      case None =>
      case Some(e) =>
        assert forall j :: 0 <= j < |finalGroupBids| ==> SnapshotConsistent(finalGroupBids[j]);
        var i :| 0 <= i < |Bids(key)| && Bids(key)[i] == e;
        assert e.amount > 0;
        RefundIsCredit(e, key, finalGroupBids);
        if TopRefundable(key) {
          RefundRestoresAmount(e, key, finalGroupBids);
        }
    }

    /**
     * `refundBid`: a single bidder is credited its whole amount; for a group entry, each
     * member of the group recorded for this auction, id and total is credited their own pledge.
     */
    method RefundBid(bid: BidEntry, key: AuctionKey)
      requires repo.Valid()
      modifies repo
      ensures repo.Valid()
      ensures repo.tokens == ApplyCredits(old(repo.tokens), RefundCredits(bid, key, old(finalGroupBids)))
      ensures repo.users == old(repo.users)
    {
      if IsGroupId(bid.bidderId) {
        var j := SnapshotFor(finalGroupBids, key, bid.bidderId, bid.amount);
        if j.None? {
          return;
        }
        var ms := finalGroupBids[j.value].members;
        var cs := MemberCredits(ms);
        var i := 0;
        while i < |ms|
          invariant 0 <= i <= |ms|
          invariant repo.Valid()
          invariant repo.tokens == ApplyCredits(old(repo.tokens), cs[..i])
          invariant repo.users == old(repo.users)
        {
          ApplyCreditsStep(old(repo.tokens), cs, i);
          var c := cs[i];
          assert c == Credit(ms[i].userId, ms[i].amount);
          repo.AddTokens(c.user, c.delta);
          i := i + 1;
        }
        assert cs[..|ms|] == cs;
      } else {
        ApplyCreditsStep(old(repo.tokens), [Credit(bid.bidderId, bid.amount)], 0);
        repo.AddTokens(bid.bidderId, bid.amount);
        assert [Credit(bid.bidderId, bid.amount)][..1] == [Credit(bid.bidderId, bid.amount)];
      }
    }

    /** `members.forEach { addTokens(m.userId, -m.amount) }`: each member pays their own pledge. */
    method DebitMembers(ms: seq<GroupMemberBid>)
      requires repo.Valid()
      modifies repo
      ensures repo.Valid()
      ensures repo.tokens == ApplyCredits(old(repo.tokens), MemberDebits(ms))
      ensures repo.users == old(repo.users)
    {
      var cs := MemberDebits(ms);
      var i := 0;
      while i < |ms|
        invariant 0 <= i <= |ms|
        invariant repo.Valid()
        invariant repo.tokens == ApplyCredits(old(repo.tokens), cs[..i])
        invariant repo.users == old(repo.users)
      {
        ApplyCreditsStep(old(repo.tokens), cs, i);
        var c := cs[i];
        assert c == Credit(ms[i].userId, -ms[i].amount);
        repo.AddTokens(c.user, c.delta);
        i := i + 1;
      }
      assert cs[..|ms|] == cs;
    }

    /** The 50 % refunds of a cancelled group reservation, member by member, skipping zero refunds. */
    method RefundHalves(ms: seq<GroupMemberBid>)
      requires repo.Valid()
      modifies repo
      ensures repo.Valid()
      ensures repo.tokens == ApplyCredits(old(repo.tokens), HalfRefunds(ms))
      ensures repo.users == old(repo.users)
    {
      ghost var base := repo.tokens;
      ghost var done: seq<Credit> := [];
      var i := 0;
      while i < |ms|
        invariant 0 <= i <= |ms|
        invariant done == HalfRefunds(ms[..i])
        invariant repo.Valid()
        invariant repo.tokens == ApplyCredits(base, done)
        invariant repo.users == old(repo.users)
      {
        HalfRefundsStep(ms, i);
        var m := ms[i];
        ghost var before := repo.tokens;
        RefundHalf(m);
        if Half(m.amount) > 0 {
          var c := Credit(m.userId, Half(m.amount));
          ApplyCreditsSnoc(base, done, c);
          assert repo.tokens == Credited(before, c.user, c.delta);
          done := done + [c];
        } else {
          assert repo.tokens == before;
          assert HalfRefunds(ms[..i + 1]) == done;
        }
        i := i + 1;
      }
      assert ms[..|ms|] == ms;
    }

    /** One member's 50 % refund; `amount / 2` truncates, and a zero refund is skipped. */
    method RefundHalf(m: GroupMemberBid)
      requires repo.Valid()
      modifies repo
      ensures repo.Valid()
      ensures repo.tokens == if Half(m.amount) > 0 then Credited(old(repo.tokens), m.userId, Half(m.amount)) else old(repo.tokens)
      ensures repo.users == old(repo.users)
    {
      var refund := Half(m.amount);
      if refund > 0 {
        repo.AddTokens(m.userId, refund);
      }
    }

    // ---------- single-person bidding ----------

    /** The first check of `placeSingleBid` that fails, in the order they are made. */
    function SingleBidRejection(key: AuctionKey, bidderId: string, amount: int, now: int): Option<BidError>
      reads this, repo
    {
      if key.capacity != 1 then Some(NotSingleRoom)
      else if IsAuctionEnded(key, now) then Some(AuctionEnded)
      else if amount <= 0 then Some(NonPositiveAmount)
      else if amount <= GetCurrentBid(key) then Some(NotAboveCurrentBid(GetCurrentBid(key)))
      else if amount > repo.GetTokens(bidderId) then Some(InsufficientTokens)
      else None
    }

    /**
     * `placeSingleBid`: after the checks, refunds the previous highest entry, debits the bidder
     * and appends the new entry, which becomes the highest; a rejection changes nothing.
     */
    method PlaceSingleBid(key: AuctionKey, bidderId: string, amount: int, now: int) returns (r: BidResult)
      requires Valid()
      modifies this, repo
      ensures Valid()
      ensures r.Failure? <==> old(SingleBidRejection(key, bidderId, amount, now)).Some?
      ensures r.Failure? ==> r.error == old(SingleBidRejection(key, bidderId, amount, now)).value
      ensures r.Failure? ==> unchanged(this) && unchanged(repo)
      ensures r.Success? ==> r.newCurrentBid == amount
      ensures r.Success? ==>
        State() == old(State()).(bids := old(bidsByAuction)[key := old(Bids(key)) + [BidEntry(bidderId, amount, now)]])
      ensures r.Success? ==> repo.tokens == ApplyCredits(old(repo.tokens), old(TopRefund(key)) + [Credit(bidderId, -amount)])
      ensures r.Success? ==> repo.users == old(repo.users)
      ensures r.Success? ==> GetCurrentBid(key) == amount && GetHighestBidEntry(key) == Some(BidEntry(bidderId, amount, now))
      ensures r.Success? && old(NonNegative(repo.tokens)) ==> NonNegative(repo.tokens)
      ensures r.Success? && old(TopRefundable(key)) ==>
        Total(repo.tokens) == old(Total(repo.tokens)) + old(GetCurrentBid(key)) - amount
    {
      if key.capacity != 1 {
        return Failure(NotSingleRoom);
      }
      if IsAuctionEnded(key, now) {
        return Failure(AuctionEnded);
      }
      if amount <= 0 {
        return Failure(NonPositiveAmount);
      }
      var currentBid := GetCurrentBid(key);
      if amount <= currentBid {
        return Failure(NotAboveCurrentBid(currentBid));
      }
      var userTokens := repo.GetTokens(bidderId);
      if amount > userTokens {
        return Failure(InsufficientTokens);
      }
      CommitSingleBid(key, bidderId, amount, now);
      r := Success(amount);
    }

    /** The accepted single bid: the ledger is charged and the entry is appended as the new highest. */
    method CommitSingleBid(key: AuctionKey, bidderId: string, amount: int, now: int)
      requires Valid()
      requires GetCurrentBid(key) < amount <= repo.GetTokens(bidderId)
      modifies this, repo
      ensures Valid()
      ensures State() == old(State()).(bids := old(bidsByAuction)[key := old(Bids(key)) + [BidEntry(bidderId, amount, now)]])
      ensures repo.tokens == ApplyCredits(old(repo.tokens), old(TopRefund(key)) + [Credit(bidderId, -amount)])
      ensures repo.users == old(repo.users)
      ensures GetCurrentBid(key) == amount && GetHighestBidEntry(key) == Some(BidEntry(bidderId, amount, now))
      ensures old(NonNegative(repo.tokens)) ==> NonNegative(repo.tokens)
      ensures old(TopRefundable(key)) ==> Total(repo.tokens) == old(Total(repo.tokens)) + old(GetCurrentBid(key)) - amount
    {
      var list := Bids(key);
      TopRefundSpec(key);
      ChargeSingleBid(key, bidderId, amount);
      var entry := BidEntry(bidderId, amount, now);
      AppendEntry(key, entry);
      NewHighest(key, list, entry);
    }

    /** The ledger side of a single bid: refund the previous highest entry, then debit the bidder. */
    method ChargeSingleBid(key: AuctionKey, bidderId: string, amount: int)
      requires repo.Valid() && 0 < amount <= repo.GetTokens(bidderId)
      requires forall i :: 0 <= i < |TopRefund(key)| ==> TopRefund(key)[i].delta > 0
      modifies repo
      ensures repo.Valid()
      ensures repo.tokens == ApplyCredits(old(repo.tokens), old(TopRefund(key)) + [Credit(bidderId, -amount)])
      ensures repo.users == old(repo.users)
      ensures old(NonNegative(repo.tokens)) ==> NonNegative(repo.tokens)
      ensures Total(repo.tokens) == old(Total(repo.tokens)) + old(SumDeltas(TopRefund(key))) - amount
    {
      RefundTop(key);
      RefundThenDebit(old(repo.tokens), TopRefund(key), bidderId, amount);
      CreditAccount(bidderId, -amount);
    }

    /** `authRepo.addTokens(u, amount)`, seen as a one-credit ledger change. */
    method CreditAccount(u: string, amount: int)
      requires repo.Valid()
      modifies repo
      ensures repo.Valid()
      ensures repo.tokens == ApplyCredits(old(repo.tokens), [Credit(u, amount)])
      ensures repo.users == old(repo.users)
    {
      ApplyCreditsSnoc(repo.tokens, [], Credit(u, amount));
      assert [] + [Credit(u, amount)] == [Credit(u, amount)];
      repo.AddTokens(u, amount);
    }

    /** `getHighestBidEntry(key)?.let { refundBid(it) }`. */
    method RefundTop(key: AuctionKey)
      requires repo.Valid()
      modifies repo
      ensures repo.Valid()
      ensures repo.tokens == ApplyCredits(old(repo.tokens), old(TopRefund(key)))
      ensures repo.users == old(repo.users)
    {
      var previousHighest := GetHighestBidEntry(key);
      if previousHighest.Some? {
        RefundBid(previousHighest.value, key);
      }
    }

    /** `getOrPut(key) { mutableListOf() }.add(entry)`. */
    method AppendEntry(key: AuctionKey, entry: BidEntry)
      requires Valid() && entry.amount > 0
      modifies this
      ensures Valid()
      ensures State() == old(State()).(bids := old(bidsByAuction)[key := old(Bids(key)) + [entry]])
    {
      AppendPositive(Bids(key), entry);
      bidsByAuction := bidsByAuction[key := Bids(key) + [entry]];
    }

    /** An entry above every earlier one becomes the current bid and the highest entry. */
    lemma NewHighest(key: AuctionKey, list: seq<BidEntry>, entry: BidEntry)
      requires Bids(key) == list + [entry]
      requires forall i :: 0 <= i < |list| ==> list[i].amount < entry.amount
      ensures GetCurrentBid(key) == entry.amount
      ensures GetHighestBidEntry(key) == Some(entry)
    {
      var s := list + [entry];
      assert s[|list|] == entry;
      assert forall i :: 0 <= i < |list| ==> s[i] == list[i];
    }
 
    // ---------- group bidding ----------

    /** `pendingGroups[pk] = g`. */
    method SetPending(pk: (AuctionKey, string), g: PendingGroupBid)
      requires Valid() && WellFormedPending(pk, g)
      modifies this
      ensures Valid()
      ensures State() == old(State()).(pending := old(pendingGroups)[pk := g])
    {
      pendingGroups := pendingGroups[pk := g];
    }

    /** `pendingGroups.remove(pk)`. */
    method RemovePending(pk: (AuctionKey, string))
      requires Valid()
      modifies this
      ensures Valid()
      ensures State() == old(State()).(pending := old(pendingGroups) - {pk})
    {
      pendingGroups := pendingGroups - {pk};
    }

    /** The first check of `startGroupBid` that fails, in the order they are made. */
    function StartGroupRejection(key: AuctionKey, ownerId: string, amount: int, now: int): Option<BidError>
      reads this
    {
      if key.capacity <= 1 then Some(NotGroupRoom)
      else if amount <= 0 then Some(NonPositiveAmount)
      else if IsAuctionEnded(key, now) then Some(AuctionEnded)
      else if (key, ownerId) in pendingGroups then Some(GroupAlreadyStarted)
      else None
    }

    /**
     * `startGroupBid`: opens a group whose join code is the owner's id, with the owner as its
     * only member; the owner then finds it among their pending groups.
     */
    method StartGroupBid(key: AuctionKey, ownerId: string, amount: int, now: int) returns (r: BidResult)
      requires Valid()
      modifies this
      ensures Valid()
      ensures r.Failure? <==> old(StartGroupRejection(key, ownerId, amount, now)).Some?
      ensures r.Failure? ==> r.error == old(StartGroupRejection(key, ownerId, amount, now)).value && unchanged(this)
      ensures r.Success? ==> r.newCurrentBid == 0
      ensures r.Success? ==> State() == old(State()).(pending := old(pendingGroups)[(key, ownerId) :=
        PendingGroupBid(key, ownerId, ownerId, key.capacity, [GroupMemberBid(ownerId, amount)], false)])
      ensures r.Success? ==> GetPendingGroup(key, ownerId).Some? && GetPendingGroup(key, ownerId).value in GetPendingGroupsForUser(ownerId)
    {
      if key.capacity <= 1 {
        return Failure(NotGroupRoom);
      }
      if amount <= 0 {
        return Failure(NonPositiveAmount);
      }
      if IsAuctionEnded(key, now) {
        return Failure(AuctionEnded);
      }
      var pairKey := (key, ownerId);
      if pairKey in pendingGroups {
        return Failure(GroupAlreadyStarted);
      }
      var group := PendingGroupBid(key, ownerId, ownerId, key.capacity, [GroupMemberBid(ownerId, amount)], false);
      SetPending(pairKey, group);
      r := Success(0);
    }

    /** The first check of `joinGroupBid` that fails, in the order they are made. */
    function JoinRejection(key: AuctionKey, joinCode: string, userId: string, amount: int): Option<BidError>
      reads this
    {
      if amount <= 0 then Some(NonPositiveAmount)
      else if (key, joinCode) !in pendingGroups then Some(GroupNotFound)
      else
        var g := pendingGroups[(key, joinCode)];
        if g.isSecondChance then Some(CannotJoinSecondChance)
        else if MemberIndex(g.members, userId).Some? then Some(AlreadyMember)
        else if |g.members| >= g.capacity then Some(GroupFull)
        else None
    }

    /**
     * `joinGroupBid`: a newcomer is appended to a group that is not full; the group keeps fitting
     * the room and having one pledge per member, and the newcomer finds it among their pending groups.
     */
    method JoinGroupBid(key: AuctionKey, joinCode: string, userId: string, amount: int) returns (r: BidResult)
      requires Valid()
      modifies this
      ensures Valid()
      ensures r.Failure? <==> old(JoinRejection(key, joinCode, userId, amount)).Some?
      ensures r.Failure? ==> r.error == old(JoinRejection(key, joinCode, userId, amount)).value && unchanged(this)
      ensures r.Success? ==> r.newCurrentBid == 0
      ensures r.Success? ==> var g := old(pendingGroups[(key, joinCode)]);
        State() == old(State()).(pending := old(pendingGroups)[(key, joinCode) :=
          g.(members := g.members + [GroupMemberBid(userId, amount)])])
      ensures r.Success? ==> var g := pendingGroups[(key, joinCode)];
        |g.members| <= g.capacity && DistinctIds(g.members) && g in GetPendingGroupsForUser(userId)
    {
      if amount <= 0 {
        return Failure(NonPositiveAmount);
      }
      var pairKey := (key, joinCode);
      if pairKey !in pendingGroups {
        return Failure(GroupNotFound);
      }
      var group := pendingGroups[pairKey];
      if group.isSecondChance {
        return Failure(CannotJoinSecondChance);
      }
      var existing := MemberIndex(group.members, userId);
      if existing.None? {
        if |group.members| >= group.capacity {
          return Failure(GroupFull);
        }
        var joined := group.(members := group.members + [GroupMemberBid(userId, amount)]);
        JoinKeepsWellFormed(pairKey, group, userId, amount);
        SetPending(pairKey, joined);
        assert joined.members[|group.members|].userId == userId;
        r := Success(0);
      } else {
        r := Failure(AlreadyMember);
      }
    }

    /** The first check of `updateGroupMemberBid` that fails, in the order they are made. */
    function UpdateRejection(key: AuctionKey, joinCode: string, userId: string, newAmount: int): Option<BidError>
      reads this
    {
      if newAmount <= 0 then Some(NonPositiveAmount)
      else if (key, joinCode) !in pendingGroups then Some(GroupNotFound)
      else
        var g := pendingGroups[(key, joinCode)];
        if g.isSecondChance then Some(CannotUpdateSecondChance)
        else if MemberIndex(g.members, userId).None? then Some(NotMember)
        else None
    }

    /**
     * `updateGroupMemberBid`: the member's pledge becomes the new amount; every other pledge and
     * the group's membership stay as they were.
     */
    method UpdateGroupMemberBid(key: AuctionKey, joinCode: string, userId: string, newAmount: int) returns (r: BidResult)
      requires Valid()
      modifies this
      ensures Valid()
      ensures r.Failure? <==> old(UpdateRejection(key, joinCode, userId, newAmount)).Some?
      ensures r.Failure? ==> r.error == old(UpdateRejection(key, joinCode, userId, newAmount)).value && unchanged(this)
      ensures r.Success? ==> r.newCurrentBid == 0
      ensures r.Success? ==> var g := old(pendingGroups[(key, joinCode)]); var i := MemberIndex(g.members, userId).value;
        State() == old(State()).(pending := old(pendingGroups)[(key, joinCode) :=
          g.(members := g.members[i := GroupMemberBid(userId, newAmount)])])
      ensures r.Success? ==> var g := old(pendingGroups[(key, joinCode)]); var g' := pendingGroups[(key, joinCode)];
        && |g'.members| == |g.members|
        && (forall j :: 0 <= j < |g.members| ==> g'.members[j].userId == g.members[j].userId)
        && (forall j :: 0 <= j < |g.members| && g.members[j].userId != userId ==> g'.members[j] == g.members[j])
        && MemberIndex(g'.members, userId).Some? && g'.members[MemberIndex(g'.members, userId).value].amount == newAmount
    {
      if newAmount <= 0 {
        return Failure(NonPositiveAmount);
      }
      var pairKey := (key, joinCode);
      if pairKey !in pendingGroups {
        return Failure(GroupNotFound);
      }
      var group := pendingGroups[pairKey];
      if group.isSecondChance {
        return Failure(CannotUpdateSecondChance);
      }
      var member := MemberIndex(group.members, userId);
      if member.None? {
        return Failure(NotMember);
      }
      var i := member.value;
      var updated := group.(members := group.members[i := GroupMemberBid(userId, newAmount)]);
      UpdateKeepsWellFormed(pairKey, group, i, newAmount);
      SetPending(pairKey, updated);
      MemberIndexSame(group.members, updated.members, userId);
      r := Success(0);
    }
 
    /** `offerNextGroupSecondChance`: re-offers the best group entry not yet refused, with its recorded members. */
    method OfferNextGroupSecondChance(key: AuctionKey) returns (created: bool)
      requires Valid()
      modifies this
      ensures Valid()
      ensures created == old(GroupOffer(key, Bids(key), refusedSecondChances, finalGroupBids)).Some?
      ensures State() == old(State()).(
        pending := WithOffer(old(pendingGroups), old(GroupOffer(key, Bids(key), refusedSecondChances, finalGroupBids))),
        secondChance := if created then old(auctionsWithSecondChance) + {key} else old(auctionsWithSecondChance))
    {
      var offer := GroupOffer(key, Bids(key), refusedSecondChances, finalGroupBids);
      if offer.None? {
        return false;
      }
      var pending := offer.value;
      GroupOfferWellFormed(key, Bids(key), refusedSecondChances, finalGroupBids);
      SetPending((key, pending.ownerId), pending);
      auctionsWithSecondChance := auctionsWithSecondChance + {key};
      created := true;
    }

    /** The first check of `cancelGroupBid` that fails. */
    function CancelGroupRejection(key: AuctionKey, joinCode: string, requesterId: string): Option<BidError>
      reads this
    {
      if (key, joinCode) !in pendingGroups then Some(GroupNotFound)
      else if pendingGroups[(key, joinCode)].ownerId != requesterId then Some(NotOwnerCancel)
      else None
    }

    /**
     * `cancelGroupBid`: the owner withdraws the group. A second-chance group counts as a refusal:
     * the auction's second chance moves to the best group not yet refused, or ends. Either way
     * the cancelled group is gone.
     */
    method CancelGroupBid(key: AuctionKey, joinCode: string, requesterId: string) returns (r: BidResult)
      requires Valid()
      modifies this
      ensures Valid()
      ensures r.Failure? <==> old(CancelGroupRejection(key, joinCode, requesterId)).Some?
      ensures r.Failure? ==> r.error == old(CancelGroupRejection(key, joinCode, requesterId)).value && unchanged(this)
      ensures r.Success? ==> r.newCurrentBid == 0 && (key, joinCode) !in pendingGroups
      ensures r.Success? && !old(pendingGroups[(key, joinCode)]).isSecondChance ==>
        State() == old(State()).(pending := old(pendingGroups) - {(key, joinCode)})
      ensures r.Success? && old(pendingGroups[(key, joinCode)]).isSecondChance ==>
        var refused := old(refusedSecondChances) + {(key, requesterId)};
        var offer := GroupOffer(key, old(Bids(key)), refused, old(finalGroupBids));
        State() == old(State()).(
          pending := WithOffer(old(pendingGroups) - {(key, joinCode)}, offer),
          refused := refused,
          secondChance := if offer.Some? then old(auctionsWithSecondChance) + {key} else old(auctionsWithSecondChance) - {key})
    {
      var pairKey := (key, joinCode);
      if pairKey !in pendingGroups {
        return Failure(GroupNotFound);
      }
      var group := pendingGroups[pairKey];
      if group.ownerId != requesterId {
        return Failure(NotOwnerCancel);
      }
      RemovePending(pairKey);
      if !group.isSecondChance {
        return Success(0);
      }
      refusedSecondChances := refusedSecondChances + {(key, group.ownerId)};
      var created := OfferNextGroupSecondChance(key);
      if !created {
        auctionsWithSecondChance := auctionsWithSecondChance - {key};
      }
      r := Success(0);
    }

    /** The first check of `submitGroupBid` that fails, in the order they are made. */
    function GroupSubmitRejection(key: AuctionKey, joinCode: string, requesterId: string, now: int): Option<BidError>
      reads this, repo
    {
      if (key, joinCode) !in pendingGroups then Some(GroupNotFound)
      else
        var g := pendingGroups[(key, joinCode)];
        var total := SumAmounts(g.members);
        if g.ownerId != requesterId then Some(NotOwnerSubmit)
        else if IsAuctionEnded(key, now) then Some(AuctionEnded)
        else if total <= 0 then Some(NonPositiveTotal)
        else if !g.isSecondChance && total <= GetCurrentBid(key) then Some(GroupTotalNotAboveCurrentBid(total, GetCurrentBid(key)))
        else match FirstShortMember(g.members, repo.tokens)
          case Some(i) => Some(MemberInsufficientTokens(g.members[i].userId))
          case None => None
    }

    /** The token check of `submitGroupBid`: the first member whose balance does not cover their pledge. */
    method FindShortMember(ms: seq<GroupMemberBid>) returns (r: Option<nat>)
      ensures r == FirstShortMember(ms, repo.tokens)
    {
      var i := 0;
      while i < |ms|
        invariant 0 <= i <= |ms|
        invariant forall j :: 0 <= j < i ==> ms[j].amount <= Balance(repo.tokens, ms[j].userId)
      {
        var tokens := repo.GetTokens(ms[i].userId);
        if ms[i].amount > tokens {
          return Some(i);
        }
        i := i + 1;
      }
      r := None;
    }
 
    /** The ledger side of a group bid: refund the previous highest entry, then debit every member. */
    method ChargeGroupBid(key: AuctionKey, ms: seq<GroupMemberBid>)
      requires Valid()
      requires PositiveAmounts(ms) && FirstShortMember(ms, repo.tokens).None?
      modifies repo
      ensures Valid()
      ensures repo.tokens == ApplyCredits(old(repo.tokens), old(TopRefund(key)) + MemberDebits(ms))
      ensures repo.users == old(repo.users)
      ensures old(NonNegative(repo.tokens)) && DistinctAccounts(ms) ==> NonNegative(repo.tokens)
      ensures old(TopRefundable(key)) ==> Total(repo.tokens) == old(Total(repo.tokens)) + old(GetCurrentBid(key)) - SumAmounts(ms)
    {
      TopRefundSpec(key);
      RefundTop(key);
      RefundThenDebits(old(repo.tokens), TopRefund(key), ms);
      DebitMembers(ms);
    }

    /** `finalGroupBids.add(fg)`. */
    method RecordSnapshot(fg: FinalGroupBid)
      requires Valid() && WellFormedSnapshot(fg)
      modifies this
      ensures Valid()
      ensures State() == old(State()).(finals := old(finalGroupBids) + [fg])
    {
      finalGroupBids := finalGroupBids + [fg];
    }

    /** Every member, in order, gets the record of their pledge at the front of their history, which keeps ten records at most. */
    method PushHistories(ms: seq<GroupMemberBid>, key: AuctionKey, total: int, now: int)
      requires Valid()
      modifies this
      ensures Valid()
      ensures State() == old(State()).(histories := RecordGroupBid(old(userGroupHistory), ms, key, total, now))
    {
      var i := 0;
      while i < |ms|
        invariant 0 <= i <= |ms|
        invariant userGroupHistory == RecordGroupBid(old(userGroupHistory), ms[..i], key, total, now)
        invariant State() == old(State()).(histories := userGroupHistory)
      {
        RecordGroupBidStep(old(userGroupHistory), ms, i, key, total, now);
        PushHistory(ms[i].userId, UserGroupBidRecord(key, ms[i].amount, total, now));
        i := i + 1;
      }
      assert ms[..|ms|] == ms;
      RecordGroupBidBounded(old(userGroupHistory), ms, key, total, now);
    }

    /** `h.add(0, record); if (h.size > 10) h.removeLast()` on the user's history. */
    method PushHistory(u: string, record: UserGroupBidRecord)
      modifies this
      ensures State() == old(State()).(histories := old(userGroupHistory)[u := PushRecord(HistoryOf(old(userGroupHistory), u), record)])
    {
      var h := if u in userGroupHistory then userGroupHistory[u] else [];
      h := [record] + h;
      if |h| > MaxGroupHistory {
        h := h[..|h| - 1];
      }
      userGroupHistory := userGroupHistory[u := h];
    }

    /** `auctionsWithSecondChance.remove(key)`. */
    method EndSecondChance(key: AuctionKey)
      requires Valid()
      modifies this
      ensures Valid()
      ensures State() == old(State()).(secondChance := old(auctionsWithSecondChance) - {key})
    {
      auctionsWithSecondChance := auctionsWithSecondChance - {key};
    }

    /** The store updates of a successful `submitGroupBid`, one after another. */
    method CommitGroupStores(key: AuctionKey, joinCode: string, g: PendingGroupBid, now: int)
      requires Valid() && (key, joinCode) in pendingGroups && pendingGroups[(key, joinCode)] == g
      modifies this
      ensures Valid()
      ensures State() == SubmittedStores(old(State()), key, joinCode, g, now)
    {
      var total := SumAmounts(g.members);
      var groupId := GroupIdOf(g.ownerId);
      PositiveTotal(g.members);
      AppendEntry(key, BidEntry(groupId, total, now));
      SubmittedSnapshotWellFormed((key, joinCode), g);
      RecordSnapshot(FinalGroupBid(key, groupId, g.members, total));
      PushHistories(g.members, key, total, now);
      RemovePending((key, joinCode));
      if g.isSecondChance {
        EndSecondChance(key);
      }
    }

    /**
     * `submitGroupBid`: after the checks, refunds the previous highest entry, debits every member
     * their own pledge, bids the total under the group's id, records the group and each member's
     * history, and closes the pending group; a first-round group becomes the highest entry.
     */
    method SubmitGroupBid(key: AuctionKey, joinCode: string, requesterId: string, now: int) returns (r: BidResult)
      requires Valid()
      modifies this, repo
      ensures Valid()
      ensures r.Failure? <==> old(GroupSubmitRejection(key, joinCode, requesterId, now)).Some?
      ensures r.Failure? ==> r.error == old(GroupSubmitRejection(key, joinCode, requesterId, now)).value
      ensures r.Failure? ==> unchanged(this) && unchanged(repo)
      ensures r.Success? ==> r.newCurrentBid == SumAmounts(old(pendingGroups[(key, joinCode)]).members)
      ensures r.Success? ==> State() == SubmittedStores(old(State()), key, joinCode, old(pendingGroups[(key, joinCode)]), now)
      ensures r.Success? ==>
        repo.tokens == ApplyCredits(old(repo.tokens), old(TopRefund(key)) + MemberDebits(old(pendingGroups[(key, joinCode)]).members))
      ensures r.Success? ==> repo.users == old(repo.users)
      ensures r.Success? && !old(pendingGroups[(key, joinCode)]).isSecondChance ==>
        GetCurrentBid(key) == r.newCurrentBid && GetHighestBidEntry(key) == Some(BidEntry(GroupIdOf(requesterId), r.newCurrentBid, now))
      ensures r.Success? && old(NonNegative(repo.tokens)) && DistinctAccounts(old(pendingGroups[(key, joinCode)]).members) ==>
        NonNegative(repo.tokens)
      ensures r.Success? && old(TopRefundable(key)) ==>
        Total(repo.tokens) == old(Total(repo.tokens)) + old(GetCurrentBid(key)) - r.newCurrentBid
    {
      var pairKey := (key, joinCode);
      if pairKey !in pendingGroups {
        return Failure(GroupNotFound);
      }
      var group := pendingGroups[pairKey];
      if group.ownerId != requesterId {
        return Failure(NotOwnerSubmit);
      }
      if IsAuctionEnded(key, now) {
        return Failure(AuctionEnded);
      }
      var total := SumAmounts(group.members);
      if total <= 0 {
        return Failure(NonPositiveTotal);
      }
      var currentBid := GetCurrentBid(key);
      if !group.isSecondChance && total <= currentBid {
        return Failure(GroupTotalNotAboveCurrentBid(total, currentBid));
      }
      var short := FindShortMember(group.members);
      if short.Some? {
        return Failure(MemberInsufficientTokens(group.members[short.value].userId));
      }
      CommitGroupBid(key, joinCode, now);
      r := Success(total);
    }

    /** Everything a successful `submitGroupBid` does once its checks have passed. */
    method CommitGroupBid(key: AuctionKey, joinCode: string, now: int)
      requires Valid() && (key, joinCode) in pendingGroups
      requires FirstShortMember(pendingGroups[(key, joinCode)].members, repo.tokens).None?
      requires !pendingGroups[(key, joinCode)].isSecondChance ==> SumAmounts(pendingGroups[(key, joinCode)].members) > GetCurrentBid(key)
      modifies this, repo
      ensures Valid()
      ensures State() == SubmittedStores(old(State()), key, joinCode, old(pendingGroups[(key, joinCode)]), now)
      ensures repo.tokens == ApplyCredits(old(repo.tokens), old(TopRefund(key)) + MemberDebits(old(pendingGroups[(key, joinCode)]).members))
      ensures repo.users == old(repo.users)
      ensures !old(pendingGroups[(key, joinCode)]).isSecondChance ==>
        var g := old(pendingGroups[(key, joinCode)]);
        GetHighestBidEntry(key) == Some(BidEntry(GroupIdOf(g.ownerId), SumAmounts(g.members), now))
      ensures old(NonNegative(repo.tokens)) && DistinctAccounts(old(pendingGroups[(key, joinCode)]).members) ==>
        NonNegative(repo.tokens)
      ensures old(TopRefundable(key)) ==>
        Total(repo.tokens) == old(Total(repo.tokens)) + old(GetCurrentBid(key)) - SumAmounts(old(pendingGroups[(key, joinCode)]).members)
    {
      var group := pendingGroups[(key, joinCode)];
      var list := Bids(key);
      ChargeGroupBid(key, group.members);
      CommitGroupStores(key, joinCode, group, now);
      if !group.isSecondChance {
        NewHighest(key, list, BidEntry(GroupIdOf(group.ownerId), SumAmounts(group.members), now));
      }
    }
 
    // ---------- cancellations and second chances ----------

    /** `bidsByAuction[key]` becomes `list`. */
    method SetBids(key: AuctionKey, list: seq<BidEntry>)
      requires Valid() && PositiveEntries(list)
      modifies this
      ensures Valid()
      ensures State() == old(State()).(bids := old(bidsByAuction)[key := list])
    {
      bidsByAuction := bidsByAuction[key := list];
    }

    /** `auctionsWithSecondChance.add(key)`. */
    method StartSecondChance(key: AuctionKey)
      requires Valid()
      modifies this
      ensures Valid()
      ensures State() == old(State()).(secondChance := old(auctionsWithSecondChance) + {key})
    {
      auctionsWithSecondChance := auctionsWithSecondChance + {key};
    }

    /** `pendingSecondChances` becomes `offers`. */
    method SetOffers(offers: seq<SecondChanceBid>)
      requires Valid()
      modifies this
      ensures Valid()
      ensures State() == old(State()).(offers := offers)
    {
      pendingSecondChances := offers;
    }

    /** `refusedSecondChances.add(refusal)`. */
    method AddRefusal(refusal: (AuctionKey, string))
      requires Valid()
      modifies this
      ensures Valid()
      ensures State() == old(State()).(refused := old(refusedSecondChances) + {refusal})
    {
      refusedSecondChances := refusedSecondChances + {refusal};
    }

    /** The first check of `cancelReservationForUser` that fails, in the order they are made. */
    function SingleCancelRejection(key: AuctionKey, userId: string, amount: int, now: int): Option<BidError>
      reads this
    {
      if key.capacity != 1 then Some(SingleCancelOnly)
      else if now >= CancelDeadline(key) then Some(TooLateToCancel)
      else if key !in bidsByAuction then Some(NoBidsFound)
      else match GetHighestBidEntry(key)
        case None => Some(NoWinningBid)
        case Some(top) =>
          if IsGroupId(top.bidderId) || top.bidderId != userId || top.amount != amount then Some(NotCurrentWinner)
          else None
    }

    /**
     * `cancelReservationForUser`: the winning single bidder gets half of the amount back
     * (rounded toward zero), all of their single entries leave the auction, the auction enters
     * its second-chance round, and the best remaining single bidder who has not refused is
     * offered their own amount, replacing any earlier offer to them on this auction.
     */
    method CancelReservationForUser(key: AuctionKey, userId: string, amount: int, now: int) returns (r: BidResult)
      requires Valid()
      modifies this, repo
      ensures Valid()
      ensures r.Failure? <==> old(SingleCancelRejection(key, userId, amount, now)).Some?
      ensures r.Failure? ==> r.error == old(SingleCancelRejection(key, userId, amount, now)).value
      ensures r.Failure? ==> unchanged(this) && unchanged(repo)
      ensures r.Success? ==> r.newCurrentBid == 0
      ensures r.Success? ==> old(key in bidsByAuction) && State() == SingleWinReleased(old(State()), key, userId)
      ensures r.Success? ==> repo.tokens == if Half(amount) > 0 then Credited(old(repo.tokens), userId, Half(amount)) else old(repo.tokens)
      ensures r.Success? ==> repo.users == old(repo.users) && repo.GetTokens(userId) == old(repo.GetTokens(userId)) + amount / 2
      ensures r.Success? ==> forall e :: e in Bids(key) ==> IsGroupId(e.bidderId) || e.bidderId != userId
      ensures r.Success? && old(NonNegative(repo.tokens)) ==> NonNegative(repo.tokens)
    {
      if key.capacity != 1 {
        return Failure(SingleCancelOnly);
      }
      if now >= CancelDeadline(key) {
        return Failure(TooLateToCancel);
      }
      if key !in bidsByAuction {
        return Failure(NoBidsFound);
      }
      var top := GetHighestBidEntry(key);
      if top.None? {
        return Failure(NoWinningBid);
      }
      if IsGroupId(top.value.bidderId) || top.value.bidderId != userId || top.value.amount != amount {
        return Failure(NotCurrentWinner);
      }
      assert amount > 0;
      var refund := Half(amount);
      if refund > 0 {
        if NonNegative(repo.tokens) {
          CreditedKeepsNonNegative(repo.tokens, userId, refund);
        }
        repo.AddTokens(userId, refund);
      }
      ReleaseSingleWin(key, userId);
      r := Success(0);
    }

    /** The store updates of a successful `cancelReservationForUser`. */
    method ReleaseSingleWin(key: AuctionKey, userId: string)
      requires Valid() && key in bidsByAuction
      modifies this
      ensures Valid()
      ensures State() == SingleWinReleased(old(State()), key, userId)
    {
      var list := bidsByAuction[key];
      var rest := WithoutSinglesOf(list, userId);
      WithoutSinglesPositive(list, userId);
      SetBids(key, rest);
      StartSecondChance(key);
      var candidate := SingleCandidateIndex(key, rest, refusedSecondChances, userId);
      if candidate.Some? {
        SetOffers(Reoffer(pendingSecondChances, key, rest[candidate.value]));
      }
    }

    /** The first check of `submitSecondChanceBid` that fails. */
    function SecondChanceRejection(key: AuctionKey, userId: string): Option<BidError>
      reads this, repo
    {
      match FirstOffer(pendingSecondChances, key, userId)
      case None => Some(NoPendingOffer)
      case Some(i) => if repo.GetTokens(userId) < pendingSecondChances[i].amount then Some(OfferInsufficientTokens) else None
    }

    /**
     * `submitSecondChanceBid`: the offeree pays the offered amount, which their balance covers;
     * the offer is used up and the auction's second-chance round ends.
     */
    method SubmitSecondChanceBid(key: AuctionKey, userId: string) returns (r: BidResult)
      requires Valid()
      modifies this, repo
      ensures Valid()
      ensures r.Failure? <==> old(SecondChanceRejection(key, userId)).Some?
      ensures r.Failure? ==> r.error == old(SecondChanceRejection(key, userId)).value
      ensures r.Failure? ==> unchanged(this) && unchanged(repo)
      ensures r.Success? ==> r.newCurrentBid == 0
      ensures r.Success? ==> var i := old(FirstOffer(pendingSecondChances, key, userId)).value;
        && State() == old(State()).(offers := RemoveAt(old(pendingSecondChances), i),
                                    secondChance := old(auctionsWithSecondChance) - {key})
        && repo.tokens == Credited(old(repo.tokens), userId, -old(pendingSecondChances[i].amount))
        && repo.GetTokens(userId) == old(repo.GetTokens(userId)) - old(pendingSecondChances[i].amount) >= 0
      ensures r.Success? ==> repo.users == old(repo.users)
      ensures r.Success? && old(NonNegative(repo.tokens)) ==> NonNegative(repo.tokens)
    {
      var rejection := SecondChanceRejection(key, userId);
      if rejection.Some? {
        return Failure(rejection.value);
      }
      var i := FirstOffer(pendingSecondChances, key, userId).value;
      CommitSecondChance(key, userId, i);
      r := Success(0);
    }

    /** The accepted offer at index `i`: its amount is debited, the offer is dropped and the round ends. */
    method CommitSecondChance(key: AuctionKey, userId: string, i: nat)
      requires Valid()
      requires FirstOffer(pendingSecondChances, key, userId) == Some(i)
      requires repo.GetTokens(userId) >= pendingSecondChances[i].amount
      modifies this, repo
      ensures Valid()
      ensures State() == old(State()).(offers := RemoveAt(old(pendingSecondChances), i),
                                       secondChance := old(auctionsWithSecondChance) - {key})
      ensures repo.tokens == Credited(old(repo.tokens), userId, -old(pendingSecondChances[i].amount))
      ensures repo.GetTokens(userId) == old(repo.GetTokens(userId)) - old(pendingSecondChances[i].amount) >= 0
      ensures repo.users == old(repo.users)
      ensures old(NonNegative(repo.tokens)) ==> NonNegative(repo.tokens)
    {
      var needed := pendingSecondChances[i].amount;
      DebitAccount(userId, needed);
      FirstOfferIsFirstOccurrence(pendingSecondChances, key, userId);
      SetOffers(RemoveAt(pendingSecondChances, i));
      EndSecondChance(key);
    }

    /** `authRepo.addTokens(u, -amount)` for a debit the balance covers. */
    method DebitAccount(u: string, amount: int)
      requires repo.Valid() && repo.GetTokens(u) >= amount
      modifies repo
      ensures repo.Valid()
      ensures repo.tokens == Credited(old(repo.tokens), u, -amount)
      ensures repo.GetTokens(u) == old(repo.GetTokens(u)) - amount >= 0
      ensures repo.users == old(repo.users)
      ensures old(NonNegative(repo.tokens)) ==> NonNegative(repo.tokens)
    {
      if NonNegative(repo.tokens) {
        CreditedKeepsNonNegative(repo.tokens, u, -amount);
      }
      repo.AddTokens(u, -amount);
    }

    /** The first check of `cancelSecondChanceBid` that fails. */
    function DeclineRejection(key: AuctionKey, userId: string): Option<BidError>
      reads this
    {
      if FirstOffer(pendingSecondChances, key, userId).None? then Some(NoPendingOffer) else None
    }

    /**
     * `cancelSecondChanceBid`: the offer is declined for good; the best single entry whose bidder
     * has not refused is offered next, never to the one who declined, or the round ends.
     */
    method CancelSecondChanceBid(key: AuctionKey, userId: string) returns (r: BidResult)
      requires Valid()
      modifies this
      ensures Valid()
      ensures r.Failure? <==> old(DeclineRejection(key, userId)).Some?
      ensures r.Failure? ==> r.error == NoPendingOffer && unchanged(this)
      ensures r.Success? ==> r.newCurrentBid == 0
      ensures r.Success? ==>
        var remaining := RemoveAt(old(pendingSecondChances), old(FirstOffer(pendingSecondChances, key, userId)).value);
        var refused := old(refusedSecondChances) + {(key, userId)};
        var next := NextSingleCandidateIndex(key, old(Bids(key)), refused);
        State() == old(State()).(
          offers := if next.Some? then remaining + [SecondChanceBid(key, old(Bids(key))[next.value].bidderId, old(Bids(key))[next.value].amount)]
                    else remaining,
          refused := refused,
          secondChance := if next.Some? then old(auctionsWithSecondChance) else old(auctionsWithSecondChance) - {key})
      ensures r.Success? && |pendingSecondChances| == old(|pendingSecondChances|) ==>
        pendingSecondChances[|pendingSecondChances| - 1].bidderId != userId
    {
      var found := FirstOffer(pendingSecondChances, key, userId);
      if found.None? {
        return Failure(NoPendingOffer);
      }
      FirstOfferIsFirstOccurrence(pendingSecondChances, key, userId);
      SetOffers(RemoveAt(pendingSecondChances, found.value));
      AddRefusal((key, userId));
      var list := Bids(key);
      var next := NextSingleCandidateIndex(key, list, refusedSecondChances);
      if next.Some? {
        SetOffers(pendingSecondChances + [SecondChanceBid(key, list[next.value].bidderId, list[next.value].amount)]);
      } else {
        EndSecondChance(key);
      }
      r := Success(0);
    }

    /** The first check of `cancelGroupReservationForOwner` that fails, in the order they are made. */
    function GroupCancelRejection(key: AuctionKey, ownerId: string, now: int): Option<BidError>
      reads this
    {
      if key.capacity <= 1 then Some(GroupCancelOnly)
      else if now >= CancelDeadline(key) then Some(TooLateToCancel)
      else if key !in bidsByAuction then Some(NoBidsFound)
      else match GetHighestBidEntry(key)
        case None => Some(NoWinningBid)
        case Some(top) =>
          if top.bidderId != GroupIdOf(ownerId) then Some(NotWinningGroupOwner)
          else if SnapshotFor(finalGroupBids, key, GroupIdOf(ownerId), top.amount).None? then Some(GroupDetailsNotFound)
          else None
    }

    /**
     * `cancelGroupReservationForOwner`: every member of the winning group gets half of their own
     * pledge back, the group's entry leaves the auction, and the best group entry not yet refused
     * is re-offered with its recorded members, or the second-chance round ends.
     */
    method CancelGroupReservationForOwner(key: AuctionKey, ownerId: string, now: int) returns (r: BidResult)
      requires Valid()
      modifies this, repo
      ensures Valid()
      ensures r.Failure? <==> old(GroupCancelRejection(key, ownerId, now)).Some?
      ensures r.Failure? ==> r.error == old(GroupCancelRejection(key, ownerId, now)).value
      ensures r.Failure? ==> unchanged(this) && unchanged(repo)
      ensures r.Success? ==> r.newCurrentBid == 0
      ensures r.Success? ==> old(Bids(key)) != [] && State() == GroupWinReleased(old(State()), key)
      ensures r.Success? ==>
        var j := SnapshotFor(old(finalGroupBids), key, GroupIdOf(ownerId), old(GetHighestBidEntry(key)).value.amount).value;
        repo.tokens == ApplyCredits(old(repo.tokens), HalfRefunds(old(finalGroupBids[j].members)))
      ensures r.Success? ==> repo.users == old(repo.users)
    {
      if key.capacity <= 1 {
        return Failure(GroupCancelOnly);
      }
      if now >= CancelDeadline(key) {
        return Failure(TooLateToCancel);
      }
      if key !in bidsByAuction {
        return Failure(NoBidsFound);
      }
      var top := GetHighestBidEntry(key);
      if top.None? {
        return Failure(NoWinningBid);
      }
      var expectedGroupId := GroupIdOf(ownerId);
      if top.value.bidderId != expectedGroupId {
        return Failure(NotWinningGroupOwner);
      }
      var j := SnapshotFor(finalGroupBids, key, expectedGroupId, top.value.amount);
      if j.None? {
        return Failure(GroupDetailsNotFound);
      }
      ReleaseGroupWin(key, j.value);
      r := Success(0);
    }

    /** Everything a successful `cancelGroupReservationForOwner` does once its checks have passed. */
    method ReleaseGroupWin(key: AuctionKey, j: nat)
      requires Valid() && key in bidsByAuction && Bids(key) != [] && j < |finalGroupBids|
      modifies this, repo
      ensures Valid()
      ensures State() == GroupWinReleased(old(State()), key)
      ensures repo.tokens == ApplyCredits(old(repo.tokens), HalfRefunds(old(finalGroupBids[j].members)))
      ensures repo.users == old(repo.users)
    {
      var list := bidsByAuction[key];
      RefundHalves(finalGroupBids[j].members);
      var t := HighestIndex(list).value;
      HighestIsFirstOccurrence(list);
      RemoveAtPositive(list, t);
      SetBids(key, RemoveAt(list, t));
      StartSecondChance(key);
      var created := OfferNextGroupSecondChance(key);
      if !created {
        EndSecondChance(key);
      }
    }

    // ---------- histories ----------

    /** The summary of one of the user's own single entries on `key`. */
    function SingleSummary(key: AuctionKey, e: BidEntry, now: int): (r: UserBidSummary)
      reads this
      ensures r.auctionKey == key && r.amount == e.amount && !r.isGroup && r.groupTotalAmount.None?
      ensures r.isActive <==> !IsAuctionEnded(key, now)
      ensures r.isCurrentHighest <==> r.isActive && e.amount == GetCurrentBid(key)
    {
      var isActive := !IsAuctionEnded(key, now);
      UserBidSummary(key, e.amount, None, e.amount == GetCurrentBid(key) && isActive, isActive, false)
    }

    /** The summaries of the entries `userId` made themselves among `list`, the entries of `key`, in order. */
    function SinglesIn(key: AuctionKey, list: seq<BidEntry>, userId: string, now: int): (r: seq<UserBidSummary>)
      reads this
      ensures |r| <= |list|
      ensures forall i :: 0 <= i < |r| ==> r[i].auctionKey == key && !r[i].isGroup
      decreases |list|
    {
      if list == [] then []
      else
        var n := |list| - 1;
        var prefix := SinglesIn(key, list[..n], userId, now);
        if list[n].bidderId == userId then prefix + [SingleSummary(key, list[n], now)] else prefix
    }

    /** The summary of one record of the user's group history. */
    function GroupSummary(rec: UserGroupBidRecord, now: int): (r: UserBidSummary)
      reads this
      ensures r.auctionKey == rec.auctionKey && r.amount == rec.userAmount && r.isGroup
      ensures r.groupTotalAmount == Some(rec.groupTotal)
      ensures r.isActive <==> !IsAuctionEnded(rec.auctionKey, now)
      ensures r.isCurrentHighest <==> r.isActive && rec.groupTotal == GetCurrentBid(rec.auctionKey)
    {
      var isActive := !IsAuctionEnded(rec.auctionKey, now);
      UserBidSummary(rec.auctionKey, rec.userAmount, Some(rec.groupTotal),
                     rec.groupTotal == GetCurrentBid(rec.auctionKey) && isActive, isActive, true)
    }

    /** One summary per history record, in the history's order (newest first). */
    function GroupSummaries(recs: seq<UserGroupBidRecord>, now: int): (r: seq<UserBidSummary>)
      reads this
      ensures |r| == |recs|
      ensures forall i :: 0 <= i < |r| ==> r[i].isGroup
      decreases |recs|
    {
      if recs == [] then [] else [GroupSummary(recs[0], now)] + GroupSummaries(recs[1..], now)
    }

    /** How often `x` belongs in the user's bid history before it is cut to `limit`. */
    ghost function BidSummaryCount(userId: string, now: int, x: UserBidSummary): nat
      reads this
    {
      if x.isGroup then multiset(GroupSummaries(HistoryOf(userGroupHistory, userId), now))[x]
      else multiset(SinglesIn(x.auctionKey, Bids(x.auctionKey), userId, now))[x]
    }

    /**
     * `getUserBidHistory`: a summary of every single entry the user made, auction by auction, and
     * of every record of their group history, ordered by the time of the user's latest group
     * record on that auction (singles sort last, at the earliest time), cut to `limit`.
     */
    method GetUserBidHistory(userId: string, limit: nat, now: int) returns (r: seq<UserBidSummary>)
      ensures |r| <= limit
      ensures SortedDesc(r, SortTimeIn(HistoryOf(userGroupHistory, userId)))
      ensures forall x :: multiset(r)[x] <= BidSummaryCount(userId, now, x)
      ensures |r| < limit ==> forall x :: multiset(r)[x] == BidSummaryCount(userId, now, x)
      ensures forall x, y :: x in r && multiset(r)[y] < BidSummaryCount(userId, now, y) ==>
                SortTime(HistoryOf(userGroupHistory, userId), y) <= SortTime(HistoryOf(userGroupHistory, userId), x)
    {
      var singles := CollectSingles(userId, now);
      var hist := HistoryOf(userGroupHistory, userId);
      var all := singles + GroupSummaries(hist, now);
      SummariesCounted(userId, now, singles);
      r := TopN(all, SortTimeIn(hist), limit);
      forall x, y | x in r && multiset(r)[y] < BidSummaryCount(userId, now, y)
        ensures SortTime(hist, y) <= SortTime(hist, x)
      {
        assert multiset(r)[y] < multiset(all)[y];
        TopNKeepsLargest(all, SortTimeIn(hist), limit, x, y);
      }
    }

    /** The single summaries and the group summaries together hold every summary as often as it belongs. */
    lemma SummariesCounted(userId: string, now: int, singles: seq<UserBidSummary>)
      requires forall x :: multiset(singles)[x] == if x.isGroup then 0 else BidSummaryCount(userId, now, x)
      ensures forall x :: multiset(singles + GroupSummaries(HistoryOf(userGroupHistory, userId), now))[x] == BidSummaryCount(userId, now, x)
    {
      var groups := GroupSummaries(HistoryOf(userGroupHistory, userId), now);
      forall x: UserBidSummary | x in groups
        ensures x.isGroup
      {
        var i :| 0 <= i < |groups| && groups[i] == x;
      }
    }

    /** The single summaries of `getUserBidHistory`, gathered auction by auction. */
    method CollectSingles(userId: string, now: int) returns (singles: seq<UserBidSummary>)
      ensures forall x :: multiset(singles)[x] == if x.isGroup then 0 else BidSummaryCount(userId, now, x)
    {
      singles := [];
      var keys := bidsByAuction.Keys;
      ghost var done: set<AuctionKey> := {};
      while keys != {}
        invariant keys !! done && keys + done == bidsByAuction.Keys
        invariant forall x :: multiset(singles)[x] ==
                    if !x.isGroup && x.auctionKey in done then multiset(SinglesIn(x.auctionKey, Bids(x.auctionKey), userId, now))[x] else 0
        decreases keys
      {
        var key :| key in keys;
        var mine := SinglesIn(key, bidsByAuction[key], userId, now);
        forall x: UserBidSummary | multiset(mine)[x] > 0
          ensures x.auctionKey == key && !x.isGroup
        {
          var i :| 0 <= i < |mine| && mine[i] == x;
        }
        singles := singles + mine;
        keys := keys - {key};
        done := done + {key};
      }
      forall x: UserBidSummary | x.auctionKey !in bidsByAuction
        ensures SinglesIn(x.auctionKey, Bids(x.auctionKey), userId, now) == []
      {
      }
    }

    /**
     * The reservation the user holds on `key`, if any: the auction has entries and has ended, is
     * not in a second-chance round, and its first highest entry is the user's own or that of a
     * group whose last recorded snapshot for that entry counts the user as a member.
     */
    function ReservationFor(userId: string, key: AuctionKey, now: int): (r: Option<ReservationSummary>)
      reads this
      ensures r.Some? ==> r.value == ReservationSummary(key, GetCurrentBid(key))
      ensures r.Some? ==> Bids(key) != [] && IsAuctionEnded(key, now) && key !in auctionsWithSecondChance
      ensures r.Some? && !IsGroupId(GetHighestBidEntry(key).value.bidderId) ==> GetHighestBidEntry(key).value.bidderId == userId
      ensures r.Some? && IsGroupId(GetHighestBidEntry(key).value.bidderId) ==>
                var j := SnapshotFor(finalGroupBids, key, GetHighestBidEntry(key).value.bidderId, GetCurrentBid(key));
                j.Some? && j.value < |finalGroupBids| && MemberIndex(finalGroupBids[j.value].members, userId).Some?
      ensures (Bids(key) != [] && IsAuctionEnded(key, now) && key !in auctionsWithSecondChance &&
               GetHighestBidEntry(key).value.bidderId == userId && !IsGroupId(userId)) ==> r.Some?
      ensures (Bids(key) != [] && IsAuctionEnded(key, now) && key !in auctionsWithSecondChance &&
               IsGroupId(GetHighestBidEntry(key).value.bidderId) &&
               var j := SnapshotFor(finalGroupBids, key, GetHighestBidEntry(key).value.bidderId, GetCurrentBid(key));
               j.Some? && j.value < |finalGroupBids| && MemberIndex(finalGroupBids[j.value].members, userId).Some?) ==> r.Some?
    {
      if Bids(key) == [] || !IsAuctionEnded(key, now) || key in auctionsWithSecondChance then None
      else
        var top := GetHighestBidEntry(key).value;
        if !IsGroupId(top.bidderId) then
          if top.bidderId == userId then Some(ReservationSummary(key, top.amount)) else None
        else
          match SnapshotFor(finalGroupBids, key, top.bidderId, top.amount)
          case None => None
          case Some(j) =>
            if MemberIndex(finalGroupBids[j].members, userId).Some? then Some(ReservationSummary(key, top.amount)) else None
    }

    /** How often `x` belongs in the user's reservation history before it is cut to `limit`: once or never. */
    ghost function ReservationCount(userId: string, now: int, x: ReservationSummary): nat
      reads this
    {
      if ReservationFor(userId, x.auctionKey, now) == Some(x) then 1 else 0
    }

    /**
     * `getUserReservationHistory`: the reservations the user holds, one per auction, latest
     * reservation day first, cut to `limit`.
     */
    method GetUserReservationHistory(userId: string, limit: nat, now: int) returns (r: seq<ReservationSummary>)
      ensures |r| <= limit
      ensures SortedDesc(r, DayOf)
      ensures forall x :: multiset(r)[x] <= ReservationCount(userId, now, x)
      ensures |r| < limit ==> forall x :: multiset(r)[x] == ReservationCount(userId, now, x)
      ensures forall x, y :: x in r && multiset(r)[y] < ReservationCount(userId, now, y) ==> DayOf(y) <= DayOf(x)
    {
      var results := CollectReservations(userId, now);
      r := TopN(results, DayOf, limit);
      forall x, y | x in r && multiset(r)[y] < ReservationCount(userId, now, y)
        ensures DayOf(y) <= DayOf(x)
      {
        TopNKeepsLargest(results, DayOf, limit, x, y);
      }
    }

    /** The reservations of `getUserReservationHistory`, gathered auction by auction. */
    method CollectReservations(userId: string, now: int) returns (results: seq<ReservationSummary>)
      ensures forall x :: multiset(results)[x] == ReservationCount(userId, now, x)
    {
      results := [];
      var keys := bidsByAuction.Keys;
      ghost var done: set<AuctionKey> := {};
      while keys != {}
        invariant keys !! done && keys + done == bidsByAuction.Keys
        invariant forall x :: multiset(results)[x] ==
                    if x.auctionKey in done && ReservationFor(userId, x.auctionKey, now) == Some(x) then 1 else 0
        decreases keys
      {
        var key :| key in keys;
        var found := ReservationFor(userId, key, now);
        if found.Some? {
          results := results + [found.value];
        }
        keys := keys - {key};
        done := done + {key};
      }
    }
  }
}
