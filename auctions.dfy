/**
 * The values of the auction engine (auction keys, bid entries, group members, pending and
 * finalised groups, second-chance offers, history records, results) and the pure
 * computations over them that the engine's operations use.
 */
module Auctions {
  import opened Wrappers
  import opened Auth

  // ---------- time ----------

  /** `LocalDateTime` is a count of nanoseconds; `LocalDate` is a day number. */
  const NanosPerDay: int := 86_400_000_000_000

  /** `atStartOfDay()` of a day number. */
  function StartOfDay(day: int): int {
    day * NanosPerDay
  }

  // ---------- values ----------

  /** One auction: a room, its capacity (1 for a single-person room), a time range and a day. */
  datatype AuctionKey = AuctionKey(roomNumber: string, capacity: int, timeRange: string, reservationDay: int)

  /** Bidding ends one week before the reservation day, at 00:00. */
  function BiddingEnd(key: AuctionKey): int {
    StartOfDay(key.reservationDay - 7)
  }

  /** A won reservation can be cancelled only before the day before the reservation, at 00:00. */
  function CancelDeadline(key: AuctionKey): int {
    StartOfDay(key.reservationDay - 1)
  }

  datatype BidEntry = BidEntry(bidderId: string, amount: int, timestamp: int)

  datatype GroupMemberBid = GroupMemberBid(userId: string, amount: int)

  datatype PendingGroupBid = PendingGroupBid(
    key: AuctionKey,
    ownerId: string,
    joinCode: string,
    capacity: int,
    members: seq<GroupMemberBid>,
    isSecondChance: bool)

  datatype FinalGroupBid = FinalGroupBid(
    key: AuctionKey,
    groupId: string,
    members: seq<GroupMemberBid>,
    totalAmount: int)

  /** A re-offer to a single bidder after the winner of a single-person room cancelled. */
  datatype SecondChanceBid = SecondChanceBid(key: AuctionKey, bidderId: string, amount: int)

  datatype UserGroupBidRecord = UserGroupBidRecord(
    auctionKey: AuctionKey,
    userAmount: int,
    groupTotal: int,
    timestamp: int)

  datatype UserBidSummary = UserBidSummary(
    auctionKey: AuctionKey,
    amount: int,
    groupTotalAmount: Option<int>,
    isCurrentHighest: bool,
    isActive: bool,
    isGroup: bool)

  datatype ReservationSummary = ReservationSummary(auctionKey: AuctionKey, amount: int)

  /** The failure reasons; the message texts of the source are not modelled. */
  datatype BidError =
    | NotSingleRoom
    | NotGroupRoom
    | AuctionEnded
    | NonPositiveAmount
    | NotAboveCurrentBid(currentBid: int)
    | InsufficientTokens
    | GroupAlreadyStarted
    | GroupNotFound
    | CannotJoinSecondChance
    | GroupFull
    | AlreadyMember
    | CannotUpdateSecondChance
    | NotMember
    | NotOwnerCancel
    | NotOwnerSubmit
    | NonPositiveTotal
    | GroupTotalNotAboveCurrentBid(total: int, currentBid: int)
    | MemberInsufficientTokens(userId: string)
    | SingleCancelOnly
    | TooLateToCancel
    | NoBidsFound
    | NoWinningBid
    | NotCurrentWinner
    | NoPendingOffer
    | OfferInsufficientTokens
    | GroupCancelOnly
    | NotWinningGroupOwner
    | GroupDetailsNotFound

  /** `BidResult`: success with the new current bid (0 where the source leaves the default), or a failure reason. */
  datatype BidResult = Success(newCurrentBid: int) | Failure(error: BidError)

  /** Kotlin's `/` on `Int` truncates toward zero. */
  function Half(a: int): (h: int)
    ensures a >= 0 ==> 0 <= 2 * h <= a && a - 2 * h <= 1
    ensures a < 0 ==> a <= 2 * h <= 0 && 2 * h - a <= 1
  {
    if a >= 0 then a / 2 else -((-a) / 2)
  }

  // ---------- group bidder ids ----------

  /** The synthetic bidder id of a group is its owner's id behind this prefix. */
  const GroupPrefix: string := "group:"

  /** `startsWith("group:")`. */
  predicate IsGroupId(id: string) {
    |id| >= |GroupPrefix| && id[..|GroupPrefix|] == GroupPrefix
  }

  function GroupIdOf(ownerId: string): string {
    GroupPrefix + ownerId
  }

  /** `removePrefix("group:")`. */
  function OwnerOf(id: string): string {
    if IsGroupId(id) then id[|GroupPrefix|..] else id
  }

  /** A group id is recognised as one and gives its owner back. */
  lemma GroupIdRoundTrip(ownerId: string)
    ensures IsGroupId(GroupIdOf(ownerId))
    ensures OwnerOf(GroupIdOf(ownerId)) == ownerId
  {
    assert GroupIdOf(ownerId)[..|GroupPrefix|] == GroupPrefix;
  }

  /** Every id that carries the prefix is the group id of the owner it names. */
  lemma OwnerRoundTrip(id: string)
    requires IsGroupId(id)
    ensures GroupIdOf(OwnerOf(id)) == id
  {
    assert id == id[..|GroupPrefix|] + id[|GroupPrefix|..];
  }

  // ---------- selections over bid lists ----------

  /** `maxOfOrNull { it.amount } ?: 0`. */
  function MaxAmount(bids: seq<BidEntry>): (m: int)
    ensures forall i :: 0 <= i < |bids| ==> bids[i].amount <= m
    ensures bids == [] ==> m == 0
    ensures bids != [] ==> exists i :: 0 <= i < |bids| && bids[i].amount == m
    decreases |bids|
  {
    if |bids| <= 1 then (if bids == [] then 0 else bids[0].amount)
    else
      var rest := MaxAmount(bids[..|bids| - 1]);
      var last := bids[|bids| - 1].amount;
      if last > rest then last else rest
  }

  /**
   * `filter(p).maxByOrNull { it.amount }` as a position in `bids`: the FIRST of the entries
   * that satisfy `p` with the largest amount (Kotlin keeps the earlier element on a tie).
   */
  function FirstMaxWhere(bids: seq<BidEntry>, p: BidEntry -> bool): (r: Option<nat>)
    ensures r.Some? ==> r.value < |bids| && p(bids[r.value])
    ensures r.Some? ==> forall j :: 0 <= j < |bids| && p(bids[j]) ==> bids[j].amount <= bids[r.value].amount
    ensures r.Some? ==> forall j :: 0 <= j < r.value && p(bids[j]) ==> bids[j].amount < bids[r.value].amount
    ensures r.None? <==> forall j :: 0 <= j < |bids| ==> !p(bids[j])
    decreases |bids|
  {
    if bids == [] then None
    else
      var n := |bids| - 1;
      var prev := FirstMaxWhere(bids[..n], p);
      if !p(bids[n]) then prev
      else if prev.None? || bids[prev.value].amount < bids[n].amount then Some(n)
      else prev
  }

  /** `maxByOrNull { it.amount }`: the first entry with the largest amount, if any. */
  function HighestIndex(bids: seq<BidEntry>): (r: Option<nat>)
    ensures r.None? <==> bids == []
    ensures r.Some? ==> r.value < |bids| && bids[r.value].amount == MaxAmount(bids)
    ensures r.Some? ==> forall j :: 0 <= j < r.value ==> bids[j].amount < MaxAmount(bids)
  {
    FirstMaxWhere(bids, (e: BidEntry) => true)
  }

  /** `lastOrNull { p(it) }` over the finalised groups, as a position. */
  function LastWhere(fgs: seq<FinalGroupBid>, p: FinalGroupBid -> bool): (r: Option<nat>)
    ensures r.Some? ==> r.value < |fgs| && p(fgs[r.value])
    ensures r.Some? ==> forall j :: r.value < j < |fgs| ==> !p(fgs[j])
    ensures r.None? <==> forall j :: 0 <= j < |fgs| ==> !p(fgs[j])
    decreases |fgs|
  {
    if fgs == [] then None
    else if p(fgs[|fgs| - 1]) then Some(|fgs| - 1)
    else LastWhere(fgs[..|fgs| - 1], p)
  }

  /** The finalised group recorded for the group entry `(groupId, total)` of `key`. */
  predicate SnapshotMatches(fg: FinalGroupBid, key: AuctionKey, groupId: string, total: int) {
    fg.key == key && fg.groupId == groupId && fg.totalAmount == total
  }

  /** The last finalised group recorded for `(key, groupId, total)`. */
  function SnapshotFor(fgs: seq<FinalGroupBid>, key: AuctionKey, groupId: string, total: int): Option<nat> {
    LastWhere(fgs, (fg: FinalGroupBid) => SnapshotMatches(fg, key, groupId, total))
  }

  /** `firstOrNull { it.key == key && it.bidderId == userId }`, as a position. */
  function FirstOffer(offers: seq<SecondChanceBid>, key: AuctionKey, userId: string): (r: Option<nat>)
    ensures r.Some? ==> r.value < |offers| && offers[r.value].key == key && offers[r.value].bidderId == userId
    ensures r.Some? ==> forall j :: 0 <= j < r.value ==> !(offers[j].key == key && offers[j].bidderId == userId)
    ensures r.None? <==> forall j :: 0 <= j < |offers| ==> !(offers[j].key == key && offers[j].bidderId == userId)
    decreases |offers|
  {
    if offers == [] then None
    else if offers[0].key == key && offers[0].bidderId == userId then Some(0)
    else
      match FirstOffer(offers[1..], key, userId)
      case None => None
      case Some(i) => Some(i + 1)
  }

  /** `filter(p)` / `removeIf(!p)`: keeps every element satisfying `p`, as often and in the order it occurs. */
  function Filter<T(!new)>(s: seq<T>, p: T -> bool): (r: seq<T>)
    ensures forall x :: multiset(r)[x] == if p(x) then multiset(s)[x] else 0
    ensures forall x :: x in r <==> x in s && p(x)
    ensures |r| <= |s|
    decreases |s|
  {
    if s == [] then []
    else
      var n := |s| - 1;
      assert s == s[..n] + [s[n]];
      var prefix := Filter(s[..n], p);
      if p(s[n]) then prefix + [s[n]] else prefix
  }

  /** The sequence without its `i`-th element. */
  function RemoveAt<T>(s: seq<T>, i: nat): (r: seq<T>)
    requires i < |s|
    ensures |r| == |s| - 1
    ensures forall j :: 0 <= j < i ==> r[j] == s[j]
    ensures forall j :: i <= j < |r| ==> r[j] == s[j + 1]
  {
    s[..i] + s[i + 1..]
  }

  // ---------- group members ----------

  /** `members.sumOf { it.amount }`. */
  function SumAmounts(ms: seq<GroupMemberBid>): int
    decreases |ms|
  {
    if ms == [] then 0 else SumAmounts(ms[..|ms| - 1]) + ms[|ms| - 1].amount
  }

  /** No user id occurs twice. */
  predicate DistinctIds(ms: seq<GroupMemberBid>) {
    forall i, j :: 0 <= i < j < |ms| ==> ms[i].userId != ms[j].userId
  }

  /** No two members share a ledger account (ids differ even after trimming). */
  predicate DistinctAccounts(ms: seq<GroupMemberBid>) {
    forall i, j :: 0 <= i < j < |ms| ==> Trim(ms[i].userId) != Trim(ms[j].userId)
  }

  predicate PositiveAmounts(ms: seq<GroupMemberBid>) {
    forall i :: 0 <= i < |ms| ==> ms[i].amount > 0
  }

  /** The position of the member `userId` (`members.find { it.userId == userId }`). */
  function MemberIndex(ms: seq<GroupMemberBid>, userId: string): (r: Option<nat>)
    ensures r.Some? ==> r.value < |ms| && ms[r.value].userId == userId
    ensures r.Some? ==> forall j :: 0 <= j < r.value ==> ms[j].userId != userId
    ensures r.None? <==> forall j :: 0 <= j < |ms| ==> ms[j].userId != userId
    decreases |ms|
  {
    if ms == [] then None
    else if ms[0].userId == userId then Some(0)
    else
      match MemberIndex(ms[1..], userId)
      case None => None
      case Some(i) => Some(i + 1)
  }

  /** The position of a member depends only on the members' ids. */
  lemma MemberIndexSame(a: seq<GroupMemberBid>, b: seq<GroupMemberBid>, userId: string)
    requires |a| == |b| && forall j :: 0 <= j < |a| ==> a[j].userId == b[j].userId
    ensures MemberIndex(a, userId) == MemberIndex(b, userId)
  {
  }

  /** One credit per member, of that member's own amount, in member order. */
  function MemberCredits(ms: seq<GroupMemberBid>): (cs: seq<Credit>)
    ensures |cs| == |ms|
    ensures forall i :: 0 <= i < |ms| ==> cs[i] == Credit(ms[i].userId, ms[i].amount)
  {
    seq(|ms|, i requires 0 <= i < |ms| => Credit(ms[i].userId, ms[i].amount))
  }

  /** One debit per member, of that member's own pledge, in member order. */
  function MemberDebits(ms: seq<GroupMemberBid>): (cs: seq<Credit>)
    ensures |cs| == |ms|
    ensures forall i :: 0 <= i < |ms| ==> cs[i] == Credit(ms[i].userId, -ms[i].amount)
  {
    seq(|ms|, i requires 0 <= i < |ms| => Credit(ms[i].userId, -ms[i].amount))
  }

  /**
   * `refundBid` and the debits of `submitGroupBid` address each member by their own pledge:
   * with distinct accounts, member `k` is credited its own amount and debited exactly that.
   */
  lemma {:induction false} MemberCreditsFor(ms: seq<GroupMemberBid>, k: nat)
    requires DistinctAccounts(ms)
    requires k < |ms|
    ensures DeltaFor(MemberCredits(ms), ms[k].userId) == ms[k].amount
    ensures DeltaFor(MemberDebits(ms), ms[k].userId) == -ms[k].amount
    decreases |ms|
  {
    var n := |ms| - 1;
    var prefix := ms[..n];
    var u := ms[k].userId;
    assert MemberCredits(ms)[..n] == MemberCredits(prefix);
    assert MemberDebits(ms)[..n] == MemberDebits(prefix);
    if k < n {
      assert prefix[k] == ms[k];
      assert DistinctAccounts(prefix) by {
        forall i, j | 0 <= i < j < |prefix| ensures Trim(prefix[i].userId) != Trim(prefix[j].userId) {
          assert prefix[i] == ms[i] && prefix[j] == ms[j];
        }
      }
      MemberCreditsFor(prefix, k);
      assert Trim(ms[n].userId) != Trim(u);
    } else {
      forall i | 0 <= i < |prefix| ensures Trim(prefix[i].userId) != Trim(u) {
        assert prefix[i] == ms[i];
      }
      MemberCreditsOthers(prefix, u);
    }
  }

  /** Nobody outside the group is credited or debited by the member credits and debits. */
  lemma MemberCreditsOthers(ms: seq<GroupMemberBid>, u: string)
    requires forall i :: 0 <= i < |ms| ==> Trim(ms[i].userId) != Trim(u)
    ensures DeltaFor(MemberCredits(ms), u) == 0
    ensures DeltaFor(MemberDebits(ms), u) == 0
  {
    DeltaForUntouched(MemberCredits(ms), u);
    DeltaForUntouched(MemberDebits(ms), u);
  }

  /** The 50 % refunds of a cancelled group reservation: half of each pledge, skipping zero refunds. */
  function HalfRefunds(ms: seq<GroupMemberBid>): (cs: seq<Credit>)
    ensures forall i :: 0 <= i < |cs| ==> cs[i].delta > 0
    decreases |ms|
  {
    if ms == [] then []
    else
      var last := ms[|ms| - 1];
      var refund := Half(last.amount);
      HalfRefunds(ms[..|ms| - 1]) + (if refund > 0 then [Credit(last.userId, refund)] else [])
  }

  /** One more member's half refund, when it is not zero. */
  lemma HalfRefundsStep(ms: seq<GroupMemberBid>, i: nat)
    requires i < |ms|
    ensures HalfRefunds(ms[..i + 1]) == HalfRefunds(ms[..i]) +
      (if Half(ms[i].amount) > 0 then [Credit(ms[i].userId, Half(ms[i].amount))] else [])
  {
    assert ms[..i + 1][..i] == ms[..i];
  }

  /** Each member of a cancelled group gets back half of their own pledge, not a share of the total. */
  lemma {:induction false} HalfRefundsFor(ms: seq<GroupMemberBid>, k: nat)
    requires DistinctAccounts(ms) && PositiveAmounts(ms)
    requires k < |ms|
    ensures DeltaFor(HalfRefunds(ms), ms[k].userId) == ms[k].amount / 2
    decreases |ms|
  {
    var n := |ms| - 1;
    var prefix := ms[..n];
    var u := ms[k].userId;
    var refund := Half(ms[n].amount);
    var tail := if refund > 0 then [Credit(ms[n].userId, refund)] else [];
    assert HalfRefunds(ms) == HalfRefunds(prefix) + tail;
    DeltaForAppend(HalfRefunds(prefix), tail, u);
    assert DeltaFor(tail, u) == if Trim(ms[n].userId) == Trim(u) then refund else 0 by {
      if tail != [] {
        assert tail[..0] == [];
      }
    }
    if k < n {
      assert prefix[k] == ms[k];
      assert DistinctAccounts(prefix) by {
        forall i, j | 0 <= i < j < |prefix| ensures Trim(prefix[i].userId) != Trim(prefix[j].userId) {
          assert prefix[i] == ms[i] && prefix[j] == ms[j];
        }
      }
      assert PositiveAmounts(prefix) by {
        forall i | 0 <= i < |prefix| ensures prefix[i].amount > 0 {
          assert prefix[i] == ms[i];
        }
      }
      HalfRefundsFor(prefix, k);
      assert Trim(ms[n].userId) != Trim(u);
    } else {
      forall i | 0 <= i < |HalfRefunds(prefix)| ensures Trim(HalfRefunds(prefix)[i].user) != Trim(u) {
        HalfRefundsUsers(prefix, i);
        var j :| 0 <= j < |prefix| && HalfRefunds(prefix)[i].user == prefix[j].userId;
        assert prefix[j] == ms[j];
      }
      DeltaForUntouched(HalfRefunds(prefix), u);
      assert refund == ms[n].amount / 2;
    }
  }

  /** Every refund of a cancelled group goes to one of its members. */
  lemma {:induction false} HalfRefundsUsers(ms: seq<GroupMemberBid>, i: nat)
    requires i < |HalfRefunds(ms)|
    ensures exists j :: 0 <= j < |ms| && HalfRefunds(ms)[i].user == ms[j].userId
    decreases |ms|
  {
    var n := |ms| - 1;
    var prefix := ms[..n];
    if i < |HalfRefunds(prefix)| {
      HalfRefundsUsers(prefix, i);
      var j :| 0 <= j < |prefix| && HalfRefunds(prefix)[i].user == prefix[j].userId;
      assert prefix[j] == ms[j];
    } else {
      assert HalfRefunds(ms)[i].user == ms[n].userId;
    }
  }

  /** The deltas for one account add up over concatenation. */
  lemma {:induction false} DeltaForAppend(a: seq<Credit>, b: seq<Credit>, u: string)
    ensures DeltaFor(a + b, u) == DeltaFor(a, u) + DeltaFor(b, u)
    decreases |b|
  {
    if b == [] {
      assert a + b == a;
    } else {
      DeltaForAppend(a, b[..|b| - 1], u);
      assert (a + b)[..|a + b| - 1] == a + b[..|b| - 1];
    }
  }

  /** The credits of a group's members add up to the group's sum. */
  lemma {:induction false} SumMemberCredits(ms: seq<GroupMemberBid>)
    ensures SumDeltas(MemberCredits(ms)) == SumAmounts(ms)
    ensures SumDeltas(MemberDebits(ms)) == -SumAmounts(ms)
    decreases |ms|
  {
    if ms != [] {
      var n := |ms| - 1;
      SumMemberCredits(ms[..n]);
      assert MemberCredits(ms)[..n] == MemberCredits(ms[..n]);
      assert MemberDebits(ms)[..n] == MemberDebits(ms[..n]);
    }
  }

  // ---------- refunds to the previous highest bidder ----------

  /**
   * `refundBid` with the snapshot looked up by key, group id and total: a single bidder gets
   * the whole amount back; the members of a group get their own pledges back; a group entry
   * with no recorded snapshot refunds nothing.
   */
  function RefundCredits(bid: BidEntry, key: AuctionKey, fgs: seq<FinalGroupBid>): seq<Credit> {
    if IsGroupId(bid.bidderId) then
      match SnapshotFor(fgs, key, bid.bidderId, bid.amount)
      case None => []
      case Some(i) => MemberCredits(fgs[i].members)
    else [Credit(bid.bidderId, bid.amount)]
  }

  /** A recorded snapshot whose total is the sum of its pledges, all positive. */
  predicate SnapshotConsistent(fg: FinalGroupBid) {
    fg.totalAmount == SumAmounts(fg.members) && PositiveAmounts(fg.members)
  }

  /** Some snapshot was recorded for this group entry of `key`. */
  predicate HasSnapshot(fgs: seq<FinalGroupBid>, key: AuctionKey, e: BidEntry) {
    exists j :: 0 <= j < |fgs| && SnapshotMatches(fgs[j], key, e.bidderId, e.amount)
  }

  /**
   * An outbid party is credited exactly what it paid: the refund of an entry adds up to the
   * entry's amount, for a single bidder and for a group whose snapshot was recorded.
   */
  lemma RefundRestoresAmount(bid: BidEntry, key: AuctionKey, fgs: seq<FinalGroupBid>)
    requires forall j :: 0 <= j < |fgs| ==> SnapshotConsistent(fgs[j])
    requires IsGroupId(bid.bidderId) ==> HasSnapshot(fgs, key, bid)
    ensures SumDeltas(RefundCredits(bid, key, fgs)) == bid.amount
  {
    if IsGroupId(bid.bidderId) {
      var i := SnapshotFor(fgs, key, bid.bidderId, bid.amount).value;
      SumMemberCredits(fgs[i].members);
    } else {
      assert [Credit(bid.bidderId, bid.amount)][..0] == [];
    }
  }

  /** Refunds of positive amounts never take tokens away. */
  lemma RefundIsCredit(bid: BidEntry, key: AuctionKey, fgs: seq<FinalGroupBid>)
    requires forall j :: 0 <= j < |fgs| ==> SnapshotConsistent(fgs[j])
    requires bid.amount > 0
    ensures forall i :: 0 <= i < |RefundCredits(bid, key, fgs)| ==> RefundCredits(bid, key, fgs)[i].delta > 0
  {
  }

  /**
   * `refundBid` as written: the snapshot is looked up by group id and total only, so a group that
   * bid the same total on two auctions can have the wrong auction's members refunded.
   */
  function RefundCreditsAsWritten(bid: BidEntry, fgs: seq<FinalGroupBid>): seq<Credit> {
    if IsGroupId(bid.bidderId) then
      match LastWhere(fgs, (fg: FinalGroupBid) => fg.groupId == bid.bidderId && fg.totalAmount == bid.amount)
      case None => []
      case Some(i) => MemberCredits(fgs[i].members)
    else [Credit(bid.bidderId, bid.amount)]
  }

  /**
   * Owner "o" won two capacity-3 rooms with groups of total 45: with "a" on room 101, later with
   * "c" on room 102. When the group on room 101 is outbid, the lookup as written refunds "o"
   * and "c" (room 102's members) and nothing to "a"; the lookup by key refunds "o" and "a".
   */
  lemma RefundIgnoringKeyCreditsWrongMembers()
    ensures var k1 := AuctionKey("101", 3, "9-11", 20000);
      var k2 := AuctionKey("102", 3, "9-11", 20000);
      var fgs := [FinalGroupBid(k1, "group:o", [GroupMemberBid("o", 20), GroupMemberBid("a", 25)], 45),
                  FinalGroupBid(k2, "group:o", [GroupMemberBid("o", 20), GroupMemberBid("c", 25)], 45)];
      var entry := BidEntry("group:o", 45, 0);
      && RefundCreditsAsWritten(entry, fgs) == [Credit("o", 20), Credit("c", 25)]
      && RefundCredits(entry, k1, fgs) == [Credit("o", 20), Credit("a", 25)]
  {
    var k1 := AuctionKey("101", 3, "9-11", 20000);
    var k2 := AuctionKey("102", 3, "9-11", 20000);
    var fgs := [FinalGroupBid(k1, "group:o", [GroupMemberBid("o", 20), GroupMemberBid("a", 25)], 45),
                FinalGroupBid(k2, "group:o", [GroupMemberBid("o", 20), GroupMemberBid("c", 25)], 45)];
    var entry := BidEntry("group:o", 45, 0);
    assert IsGroupId(entry.bidderId);
    assert LastWhere(fgs, (fg: FinalGroupBid) => fg.groupId == entry.bidderId && fg.totalAmount == entry.amount) == Some(1);
    assert k2.roomNumber[2] != k1.roomNumber[2];
    assert !SnapshotMatches(fgs[1], k1, entry.bidderId, entry.amount);
    assert fgs[..1] == [fgs[0]];
    assert SnapshotFor(fgs, k1, entry.bidderId, entry.amount) == Some(0);
  }

  // ---------- per-user group history ----------

  /** Personal group histories hold at most this many records. */
  const MaxGroupHistory: nat := 10

  /** `add(0, rec)` then `if (size > 10) removeLast()`. */
  function PushRecord(h: seq<UserGroupBidRecord>, rec: UserGroupBidRecord): (r: seq<UserGroupBidRecord>)
    ensures |r| == if |h| < MaxGroupHistory then |h| + 1 else |h|
    ensures r != [] && r[0] == rec
    ensures |h| <= MaxGroupHistory ==> |r| <= MaxGroupHistory
    ensures forall i :: 1 <= i < |r| ==> r[i] == h[i - 1]
  {
    var pushed := [rec] + h;
    if |pushed| > MaxGroupHistory then pushed[..|pushed| - 1] else pushed
  }

  function HistoryOf(hist: map<string, seq<UserGroupBidRecord>>, u: string): seq<UserGroupBidRecord> {
    if u in hist then hist[u] else []
  }

  /** The histories after each member, in order, gets the record of their pledge to this group bid. */
  function RecordGroupBid(hist: map<string, seq<UserGroupBidRecord>>, ms: seq<GroupMemberBid>,
                          key: AuctionKey, total: int, now: int): map<string, seq<UserGroupBidRecord>>
    decreases |ms|
  {
    if ms == [] then hist
    else
      var before := RecordGroupBid(hist, ms[..|ms| - 1], key, total, now);
      var m := ms[|ms| - 1];
      before[m.userId := PushRecord(HistoryOf(before, m.userId), UserGroupBidRecord(key, m.amount, total, now))]
  }

  /** One more member's record. */
  lemma RecordGroupBidStep(hist: map<string, seq<UserGroupBidRecord>>, ms: seq<GroupMemberBid>, i: nat,
                           key: AuctionKey, total: int, now: int)
    requires i < |ms|
    ensures var before := RecordGroupBid(hist, ms[..i], key, total, now);
      RecordGroupBid(hist, ms[..i + 1], key, total, now) ==
        before[ms[i].userId := PushRecord(HistoryOf(before, ms[i].userId), UserGroupBidRecord(key, ms[i].amount, total, now))]
  {
    assert ms[..i + 1][..i] == ms[..i];
  }

  /** Users not among `ms` keep their history. */
  lemma {:induction false} RecordGroupBidOthers(hist: map<string, seq<UserGroupBidRecord>>, ms: seq<GroupMemberBid>,
                                                key: AuctionKey, total: int, now: int, u: string)
    requires forall i :: 0 <= i < |ms| ==> ms[i].userId != u
    ensures HistoryOf(RecordGroupBid(hist, ms, key, total, now), u) == HistoryOf(hist, u)
    decreases |ms|
  {
    if ms != [] {
      var prefix := ms[..|ms| - 1];
      assert forall i :: 0 <= i < |prefix| ==> prefix[i] == ms[i];
      RecordGroupBidOthers(hist, prefix, key, total, now, u);
    }
  }

  /**
   * After a group bid is submitted, the history of each member (ids distinct) starts with the
   * record of their own pledge and the group total, followed by their old history.
   */
  lemma {:induction false} RecordGroupBidMembers(hist: map<string, seq<UserGroupBidRecord>>, ms: seq<GroupMemberBid>,
                                                 key: AuctionKey, total: int, now: int, k: nat)
    requires DistinctIds(ms) && k < |ms|
    ensures var h := RecordGroupBid(hist, ms, key, total, now);
      ms[k].userId in h &&
      h[ms[k].userId] == PushRecord(HistoryOf(hist, ms[k].userId), UserGroupBidRecord(key, ms[k].amount, total, now))
    decreases |ms|
  {
    var n := |ms| - 1;
    var prefix := ms[..n];
    var before := RecordGroupBid(hist, prefix, key, total, now);
    var u := ms[k].userId;
    assert RecordGroupBid(hist, ms, key, total, now) ==
      before[ms[n].userId := PushRecord(HistoryOf(before, ms[n].userId), UserGroupBidRecord(key, ms[n].amount, total, now))];
    if k < n {
      assert prefix[k] == ms[k];
      assert DistinctIds(prefix) by {
        forall i, j | 0 <= i < j < |prefix| ensures prefix[i].userId != prefix[j].userId {
          assert prefix[i] == ms[i] && prefix[j] == ms[j];
        }
      }
      RecordGroupBidMembers(hist, prefix, key, total, now, k);
      assert ms[n].userId != u;
    } else {
      assert forall i :: 0 <= i < |prefix| ==> prefix[i].userId != u by {
        forall i | 0 <= i < |prefix| ensures prefix[i].userId != u {
          assert prefix[i] == ms[i];
        }
      }
      RecordGroupBidOthers(hist, prefix, key, total, now, u);
    }
  }

  /** No history grows past ten records. */
  lemma {:induction false} RecordGroupBidBounded(hist: map<string, seq<UserGroupBidRecord>>, ms: seq<GroupMemberBid>,
                                                 key: AuctionKey, total: int, now: int)
    requires forall u :: u in hist ==> |hist[u]| <= MaxGroupHistory
    ensures forall u :: u in RecordGroupBid(hist, ms, key, total, now) ==>
      |RecordGroupBid(hist, ms, key, total, now)[u]| <= MaxGroupHistory
    decreases |ms|
  {
    if ms != [] {
      var before := RecordGroupBid(hist, ms[..|ms| - 1], key, total, now);
      RecordGroupBidBounded(hist, ms[..|ms| - 1], key, total, now);
      assert |HistoryOf(before, ms[|ms| - 1].userId)| <= MaxGroupHistory;
    }
  }

  // ---------- shapes the engine keeps ----------

  /** Every entry of an auction carries a positive amount. */
  predicate PositiveEntries(bids: seq<BidEntry>) {
    forall i :: 0 <= i < |bids| ==> bids[i].amount > 0
  }

  /**
   * A pending group stored under `(key, code)`: owned by `code` (the join code is the owner's
   * id), sized by the room's capacity, led by its owner, with distinct members and positive pledges.
   */
  predicate WellFormedPending(pk: (AuctionKey, string), g: PendingGroupBid) {
    && g.key == pk.0 && g.ownerId == pk.1 && g.joinCode == pk.1 && g.capacity == pk.0.capacity
    && 1 <= |g.members| <= g.capacity
    && g.members[0].userId == g.ownerId
    && DistinctIds(g.members) && PositiveAmounts(g.members)
  }

  /** A recorded group: its total is the sum of its positive pledges, it fits the room, and it bids as its first member. */
  predicate WellFormedSnapshot(fg: FinalGroupBid) {
    && SnapshotConsistent(fg)
    && 1 <= |fg.members| <= fg.key.capacity
    && fg.groupId == GroupIdOf(fg.members[0].userId)
    && DistinctIds(fg.members)
  }

  /** The first member, in member order, whose pledge exceeds their balance. */
  function FirstShortMember(ms: seq<GroupMemberBid>, tokens: map<string, int>): (r: Option<nat>)
    ensures r.Some? ==> r.value < |ms| && ms[r.value].amount > Balance(tokens, ms[r.value].userId)
    ensures r.Some? ==> forall j :: 0 <= j < r.value ==> ms[j].amount <= Balance(tokens, ms[j].userId)
    ensures r.None? <==> forall j :: 0 <= j < |ms| ==> ms[j].amount <= Balance(tokens, ms[j].userId)
    decreases |ms|
  {
    if ms == [] then None
    else if ms[0].amount > Balance(tokens, ms[0].userId) then Some(0)
    else
      match FirstShortMember(ms[1..], tokens)
      case None => None
      case Some(i) => Some(i + 1)
  }

  // ---------- second-chance candidates ----------

  /** A group entry whose owner has not refused a second chance on `key`. */
  predicate GroupCandidate(key: AuctionKey, refused: set<(AuctionKey, string)>, e: BidEntry) {
    IsGroupId(e.bidderId) && (key, OwnerOf(e.bidderId)) !in refused
  }

  /** The group entry re-offered after a group cancellation: the first highest candidate. */
  function GroupCandidateIndex(key: AuctionKey, bids: seq<BidEntry>, refused: set<(AuctionKey, string)>): (r: Option<nat>)
    ensures r.Some? ==> r.value < |bids| && GroupCandidate(key, refused, bids[r.value])
    ensures r.Some? ==> forall j :: 0 <= j < |bids| && GroupCandidate(key, refused, bids[j]) ==> bids[j].amount <= bids[r.value].amount
    ensures r.Some? ==> forall j :: 0 <= j < r.value && GroupCandidate(key, refused, bids[j]) ==> bids[j].amount < bids[r.value].amount
    ensures r.None? <==> forall j :: 0 <= j < |bids| ==> !GroupCandidate(key, refused, bids[j])
  {
    FirstMaxWhere(bids, (e: BidEntry) => GroupCandidate(key, refused, e))
  }

  /**
   * `offerNextGroupSecondChance` as a value: a pending second-chance group of the best group
   * candidate's owner, with a copy of that group's recorded members, if both exist.
   */
  function GroupOffer(key: AuctionKey, bids: seq<BidEntry>, refused: set<(AuctionKey, string)>,
                      fgs: seq<FinalGroupBid>): (r: Option<PendingGroupBid>)
    ensures r.Some? ==> r.value.isSecondChance && r.value.key == key && r.value.capacity == key.capacity
    ensures r.Some? ==> r.value.joinCode == r.value.ownerId && (key, r.value.ownerId) !in refused
    ensures r.Some? ==> var i := GroupCandidateIndex(key, bids, refused);
      i.Some? && bids[i.value].bidderId == GroupIdOf(r.value.ownerId)
    ensures r.Some? ==> var i := GroupCandidateIndex(key, bids, refused).value;
      var j := SnapshotFor(fgs, key, bids[i].bidderId, bids[i].amount);
      j.Some? && j.value < |fgs| && r.value.members == fgs[j.value].members
    ensures r.None? <==> match GroupCandidateIndex(key, bids, refused)
      case None => true
      case Some(i) => SnapshotFor(fgs, key, bids[i].bidderId, bids[i].amount).None?
  {
    match GroupCandidateIndex(key, bids, refused)
    case None => None
    case Some(i) =>
      var e := bids[i];
      match SnapshotFor(fgs, key, e.bidderId, e.amount)
      case None => None
      case Some(j) =>
        OwnerRoundTrip(e.bidderId);
        Some(PendingGroupBid(key, OwnerOf(e.bidderId), OwnerOf(e.bidderId), key.capacity, fgs[j].members, true))
  }

  /** A re-offered group is well formed whenever the recorded groups are. */
  lemma GroupOfferWellFormed(key: AuctionKey, bids: seq<BidEntry>, refused: set<(AuctionKey, string)>, fgs: seq<FinalGroupBid>)
    requires forall j :: 0 <= j < |fgs| ==> WellFormedSnapshot(fgs[j])
    requires GroupOffer(key, bids, refused, fgs).Some?
    ensures var g := GroupOffer(key, bids, refused, fgs).value; WellFormedPending((key, g.ownerId), g)
  {
    var i := GroupCandidateIndex(key, bids, refused).value;
    var e := bids[i];
    var j := SnapshotFor(fgs, key, e.bidderId, e.amount).value;
    GroupIdRoundTrip(fgs[j].members[0].userId);
  }

  /** A single entry of someone other than `userId` who has not refused a second chance on `key`. */
  predicate SingleCandidate(key: AuctionKey, refused: set<(AuctionKey, string)>, userId: string, e: BidEntry) {
    !IsGroupId(e.bidderId) && e.bidderId != userId && (key, e.bidderId) !in refused
  }

  /** The single entry offered a second chance after `userId` cancels: the first highest candidate. */
  function SingleCandidateIndex(key: AuctionKey, bids: seq<BidEntry>, refused: set<(AuctionKey, string)>, userId: string): (r: Option<nat>)
    ensures r.Some? ==> r.value < |bids| && SingleCandidate(key, refused, userId, bids[r.value])
    ensures r.Some? ==> forall j :: 0 <= j < |bids| && SingleCandidate(key, refused, userId, bids[j]) ==> bids[j].amount <= bids[r.value].amount
    ensures r.Some? ==> forall j :: 0 <= j < r.value && SingleCandidate(key, refused, userId, bids[j]) ==> bids[j].amount < bids[r.value].amount
    ensures r.None? <==> forall j :: 0 <= j < |bids| ==> !SingleCandidate(key, refused, userId, bids[j])
  {
    FirstMaxWhere(bids, (e: BidEntry) => SingleCandidate(key, refused, userId, e))
  }

  /** A single entry whose bidder has not refused a second chance on `key`. */
  predicate NextSingleCandidate(key: AuctionKey, refused: set<(AuctionKey, string)>, e: BidEntry) {
    !IsGroupId(e.bidderId) && (key, e.bidderId) !in refused
  }

  /** The single entry offered next after an offer is declined: the first highest candidate. */
  function NextSingleCandidateIndex(key: AuctionKey, bids: seq<BidEntry>, refused: set<(AuctionKey, string)>): (r: Option<nat>)
    ensures r.Some? ==> r.value < |bids| && NextSingleCandidate(key, refused, bids[r.value])
    ensures r.Some? ==> forall j :: 0 <= j < |bids| && NextSingleCandidate(key, refused, bids[j]) ==> bids[j].amount <= bids[r.value].amount
    ensures r.Some? ==> forall j :: 0 <= j < r.value && NextSingleCandidate(key, refused, bids[j]) ==> bids[j].amount < bids[r.value].amount
    ensures r.None? <==> forall j :: 0 <= j < |bids| ==> !NextSingleCandidate(key, refused, bids[j])
  {
    FirstMaxWhere(bids, (e: BidEntry) => NextSingleCandidate(key, refused, e))
  }

  /** `removeIf { !it.bidderId.startsWith("group:") && it.bidderId == userId }`. */
  function WithoutSinglesOf(bids: seq<BidEntry>, userId: string): (r: seq<BidEntry>)
    ensures forall e :: e in r <==> e in bids && (IsGroupId(e.bidderId) || e.bidderId != userId)
    ensures forall e :: multiset(r)[e] == if IsGroupId(e.bidderId) || e.bidderId != userId then multiset(bids)[e] else 0
  {
    Filter(bids, (e: BidEntry) => IsGroupId(e.bidderId) || e.bidderId != userId)
  }

  /** `removeIf { it.key == key && it.bidderId == bidderId }` on the offers. */
  function WithoutOffersTo(offers: seq<SecondChanceBid>, key: AuctionKey, bidderId: string): (r: seq<SecondChanceBid>)
    ensures forall o :: o in r <==> o in offers && !(o.key == key && o.bidderId == bidderId)
    ensures forall o :: multiset(r)[o] == if o.key == key && o.bidderId == bidderId then 0 else multiset(offers)[o]
  {
    Filter(offers, (o: SecondChanceBid) => !(o.key == key && o.bidderId == bidderId))
  }

  /**
   * The offers after `e`'s bidder is offered `e`'s amount again: any earlier offer to them on
   * this auction is dropped and the new one comes last, so it is the one they find.
   */
  function Reoffer(offers: seq<SecondChanceBid>, key: AuctionKey, e: BidEntry): (r: seq<SecondChanceBid>)
    ensures r != [] && r[|r| - 1] == SecondChanceBid(key, e.bidderId, e.amount)
    ensures forall j :: 0 <= j < |r| - 1 ==> !(r[j].key == key && r[j].bidderId == e.bidderId)
    ensures forall o :: o in offers && !(o.key == key && o.bidderId == e.bidderId) ==> o in r
    ensures forall o :: o in r ==> o == SecondChanceBid(key, e.bidderId, e.amount) || (o in offers && !(o.key == key && o.bidderId == e.bidderId))
  {
    var kept := WithoutOffersTo(offers, key, e.bidderId);
    var r := kept + [SecondChanceBid(key, e.bidderId, e.amount)];
    assert forall j :: 0 <= j < |kept| ==> r[j] == kept[j];
    r
  }

  /** The offered bidder finds exactly the new offer. */
  lemma ReofferFound(offers: seq<SecondChanceBid>, key: AuctionKey, e: BidEntry)
    ensures FirstOffer(Reoffer(offers, key, e), key, e.bidderId) == Some(|Reoffer(offers, key, e)| - 1)
  {
  }

  /** `list.remove(sc)` on the offers removes the first equal one, which is the first offer found. */
  lemma FirstOfferIsFirstOccurrence(offers: seq<SecondChanceBid>, key: AuctionKey, userId: string)
    requires FirstOffer(offers, key, userId).Some?
    ensures var i := FirstOffer(offers, key, userId).value; forall j :: 0 <= j < i ==> offers[j] != offers[i]
  {
  }

  // ---------- how the operations keep the shapes ----------

  /** A newcomer joining a non-full group keeps it well formed. */
  lemma JoinKeepsWellFormed(pk: (AuctionKey, string), g: PendingGroupBid, userId: string, amount: int)
    requires WellFormedPending(pk, g)
    requires MemberIndex(g.members, userId).None? && |g.members| < g.capacity && amount > 0
    ensures WellFormedPending(pk, g.(members := g.members + [GroupMemberBid(userId, amount)]))
  {
    var ms := g.members + [GroupMemberBid(userId, amount)];
    assert forall i :: 0 <= i < |g.members| ==> ms[i] == g.members[i];
  }

  /** Changing one member's pledge to a positive amount keeps the group well formed. */
  lemma UpdateKeepsWellFormed(pk: (AuctionKey, string), g: PendingGroupBid, i: nat, amount: int)
    requires WellFormedPending(pk, g) && i < |g.members| && amount > 0
    ensures WellFormedPending(pk, g.(members := g.members[i := GroupMemberBid(g.members[i].userId, amount)]))
  {
  }

  /** The group recorded when a well-formed pending group is submitted is well formed. */
  lemma SubmittedSnapshotWellFormed(pk: (AuctionKey, string), g: PendingGroupBid)
    requires WellFormedPending(pk, g)
    ensures WellFormedSnapshot(FinalGroupBid(pk.0, GroupIdOf(g.ownerId), g.members, SumAmounts(g.members)))
  {
  }

  /** The pledges of a non-empty group with positive pledges add up to a positive total. */
  lemma {:induction false} PositiveTotal(ms: seq<GroupMemberBid>)
    requires PositiveAmounts(ms) && ms != []
    ensures SumAmounts(ms) > 0
    decreases |ms|
  {
    var n := |ms| - 1;
    if n > 0 {
      assert forall i :: 0 <= i < n ==> ms[..n][i] == ms[i];
      PositiveTotal(ms[..n]);
    }
  }

  /** `list.remove(top)` removes the first equal element, which is the first highest entry itself. */
  lemma HighestIsFirstOccurrence(bids: seq<BidEntry>)
    requires bids != []
    ensures var t := HighestIndex(bids).value; forall j :: 0 <= j < t ==> bids[j] != bids[t]
  {
  }

  /** Removing an entry keeps the remaining entries positive. */
  lemma RemoveAtPositive(bids: seq<BidEntry>, i: nat)
    requires PositiveEntries(bids) && i < |bids|
    ensures PositiveEntries(RemoveAt(bids, i))
  {
  }

  /** Dropping a user's single entries keeps the remaining entries positive. */
  lemma WithoutSinglesPositive(bids: seq<BidEntry>, userId: string)
    requires PositiveEntries(bids)
    ensures PositiveEntries(WithoutSinglesOf(bids, userId))
  {
    var r := WithoutSinglesOf(bids, userId);
    forall i | 0 <= i < |r| ensures r[i].amount > 0 {
      assert r[i] in bids;
    }
  }

  /** Appending a positive entry to positive entries. */
  lemma AppendPositive(list: seq<BidEntry>, entry: BidEntry)
    requires PositiveEntries(list) && entry.amount > 0
    ensures PositiveEntries(list + [entry])
  {
    assert forall i :: 0 <= i < |list| ==> (list + [entry])[i] == list[i];
  }
}
