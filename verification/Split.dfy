/**
 Sharing costs among the members of a trip and squaring their accounts
 (backend/internal/domain/split.go). Amounts are whole cents.
 */
module Split {
  import opened Common
  import opened Document

  // ------------------------------------------------------------- shares of one cost

  /** The amount a split shares: in a report what was spent, once that is known. */
  function SplitTotal(cost: Cost, travelers: int, report: bool): Money {
    if report && cost.actual.Some? then cost.ActualTotal(travelers) else cost.PlannedTotal(travelers)
  }

  function EqualPart(total: Money, count: nat, index: nat): Money
    requires index < count
  {
    Quotient(total, count) + if index < Remainder(total, count) then 1 else 0
  }

  /** What each member sharing a cost owes. */
  function Shares(cost: Cost, travelers: int, report: bool): (r: seq<Money>)
    ensures cost.split != SplitNone ==> |r| == |cost.shares|
  {
    match cost.split
    case SplitNone => []
    case SplitEveryone =>
      seq(|cost.shares|, i requires 0 <= i < |cost.shares| =>
        EqualPart(SplitTotal(cost, travelers, report), |cost.shares|, i))
    case SplitIndividuals =>
      seq(|cost.shares|, i requires 0 <= i < |cost.shares| => cost.shares[i].amount.GetOr(0))
  }

  method ShareAmounts(cost: Cost, travelers: int, report: bool) returns (amounts: seq<Money>)
    ensures amounts == Shares(cost, travelers, report)
  {
    match cost.split
    case SplitEveryone =>
      if |cost.shares| == 0 {
        return [];
      }
      var total, count := SplitTotal(cost, travelers, report), |cost.shares|;
      amounts := seq(count, _ => 0);
      for index := 0 to count
        invariant |amounts| == count
        invariant forall i :: 0 <= i < index ==> amounts[i] == EqualPart(total, count, i)
      {
        amounts := amounts[index := Quotient(total, count)];
        if index < Remainder(total, count) {
          amounts := amounts[index := amounts[index] + 1];
        }
      }
    case SplitIndividuals =>
      amounts := seq(|cost.shares|, _ => 0);
      for index := 0 to |cost.shares|
        invariant |amounts| == |cost.shares|
        invariant forall i :: 0 <= i < index ==> amounts[i] == cost.shares[i].amount.GetOr(0)
        invariant forall i :: index <= i < |amounts| ==> amounts[i] == 0
      {
        if cost.shares[index].amount.Some? {
          amounts := amounts[index := cost.shares[index].amount.value];
        }
      }
    case SplitNone =>
      amounts := [];
  }

  function EqualParts(total: Money, count: nat, n: nat): seq<Money>
    requires n <= count
  {
    seq(n, i requires 0 <= i < n => EqualPart(total, count, i))
  }

  lemma {:induction false} EqualPartsSum(total: Money, count: nat, n: nat)
    requires n <= count && count > 0
    ensures Sum(EqualParts(total, count, n))
         == n * Quotient(total, count) + Max(0, Min(n, Remainder(total, count)))
  {
    if n > 0 {
      EqualPartsSum(total, count, n - 1);
      var parts := EqualParts(total, count, n);
      assert parts == EqualParts(total, count, n - 1) + [EqualPart(total, count, n - 1)];
      SumAppend(EqualParts(total, count, n - 1), [EqualPart(total, count, n - 1)]);
      assert n * Quotient(total, count) == (n - 1) * Quotient(total, count) + Quotient(total, count);
    }
  }

  lemma RemainderBounds(a: int, b: int)
    requires b > 0
    ensures a >= 0 ==> 0 <= Remainder(a, b) < b
    ensures a < 0 ==> -b < Remainder(a, b) <= 0
  {
  }

  /** An equal split shares every cent of a cost that is not negative, in parts at most
      one cent apart, the larger ones first; a negative cost is shared exactly only
      when it divides evenly. */
  lemma EqualSplitIsExact(cost: Cost, travelers: int, report: bool)
    requires cost.split == SplitEveryone && cost.shares != []
    ensures var total, parts := SplitTotal(cost, travelers, report), Shares(cost, travelers, report);
            && (Sum(parts) == total <==> total >= 0 || Remainder(total, |cost.shares|) == 0)
            && forall i, j :: 0 <= i <= j < |parts| ==> parts[j] <= parts[i] <= parts[j] + 1
  {
    var total, count := SplitTotal(cost, travelers, report), |cost.shares|;
    EqualPartsSum(total, count, count);
    RemainderBounds(total, count);
    assert Shares(cost, travelers, report) == EqualParts(total, count, count);
    assert count * Quotient(total, count) == Quotient(total, count) * count;
  }

  function GivenAmounts(shares: seq<CostShare>): seq<Money> {
    seq(|shares|, i requires 0 <= i < |shares| => shares[i].amount.GetOr(0))
  }

  datatype SplitError = Fits | UnknownPayer | UnknownMember | SumMismatch

  /** The first thing about a split that does not fit the trip. */
  method CheckCostSplit(cost: Cost, allowed: set<Id>, travelers: int, report: bool) returns (error: SplitError)
    ensures error == UnknownPayer <==> cost.paidBy.Some? && cost.paidBy.value !in allowed
    ensures error == UnknownMember <==>
              && (cost.paidBy.Some? ==> cost.paidBy.value in allowed)
              && exists i :: 0 <= i < |cost.shares| && cost.shares[i].userId !in allowed
    ensures error == SumMismatch <==>
              && (cost.paidBy.Some? ==> cost.paidBy.value in allowed)
              && (forall i :: 0 <= i < |cost.shares| ==> cost.shares[i].userId in allowed)
              && cost.split == SplitIndividuals
              && Sum(GivenAmounts(cost.shares)) != SplitTotal(cost, travelers, report)
  {
    if cost.paidBy.Some? && cost.paidBy.value !in allowed {
      return UnknownPayer;
    }
    var sum := 0;
    for index := 0 to |cost.shares|
      invariant forall i :: 0 <= i < index ==> cost.shares[i].userId in allowed
      invariant sum == Sum(GivenAmounts(cost.shares[..index]))
    {
      if cost.shares[index].userId !in allowed {
        return UnknownMember;
      }
      var share := cost.shares[index];
      assert GivenAmounts(cost.shares[..index + 1]) == GivenAmounts(cost.shares[..index]) + [share.amount.GetOr(0)];
      SumAppend(GivenAmounts(cost.shares[..index]), [share.amount.GetOr(0)]);
      if share.amount.Some? {
        sum := sum + share.amount.value;
      }
    }
    assert cost.shares[..|cost.shares|] == cost.shares;
    if cost.split == SplitIndividuals && sum != SplitTotal(cost, travelers, report) {
      return SumMismatch;
    }
    return Fits;
  }

  /** A split that was let through shares exactly its cost, cents included. */
  lemma CheckedSplitIsExact(cost: Cost, travelers: int, report: bool)
    requires cost.split == SplitIndividuals ==> Sum(GivenAmounts(cost.shares)) == SplitTotal(cost, travelers, report)
    requires cost.split == SplitEveryone ==> cost.shares != [] && SplitTotal(cost, travelers, report) >= 0
    ensures cost.split != SplitNone ==> Sum(Shares(cost, travelers, report)) == SplitTotal(cost, travelers, report)
  {
    if cost.split == SplitEveryone {
      EqualSplitIsExact(cost, travelers, report);
    } else if cost.split == SplitIndividuals {
      assert Shares(cost, travelers, report) == GivenAmounts(cost.shares);
    }
  }

  /** What a cost comes to for the group: in a report what was spent as soon as that is known, and
      what was planned until then, as in a plan always; what each pays counts as often as there
      are travellers. */
  function Bill(cost: Cost, travelers: int, report: bool): Money {
    var amount := if report && cost.actual.Some? then cost.actual else cost.planned;
    amount.GetOr(0) * if cost.perPerson && travelers > 1 then travelers else 1
  }

  /** An accepted split shares out exactly that. */
  lemma SharedAmount(cost: Cost, travelers: int, report: bool)
    requires cost.split == SplitIndividuals ==> Sum(GivenAmounts(cost.shares)) == SplitTotal(cost, travelers, report)
    requires cost.split == SplitEveryone ==> cost.shares != [] && SplitTotal(cost, travelers, report) >= 0
    ensures SplitTotal(cost, travelers, report) == Bill(cost, travelers, report)
    ensures cost.split != SplitNone ==> Sum(Shares(cost, travelers, report)) == Bill(cost, travelers, report)
    ensures cost.split == SplitNone ==> Shares(cost, travelers, report) == []
  {
    CheckedSplitIsExact(cost, travelers, report);
  }

  // ------------------------------------------------------------- balances

  datatype MemberBalance = MemberBalance(userId: Id, paid: Money, share: Money) {
    /** The member's account: in credit above nothing, in debt below it. */
    function Net(): Money {
      paid - share
    }
  }

  ghost predicate DistinctMembers(balances: seq<MemberBalance>) {
    forall i, j :: 0 <= i < j < |balances| ==> balances[i].userId != balances[j].userId
  }

  /** What the balances say of one member; nothing of somebody they do not list. */
  function BalanceOf(balances: seq<MemberBalance>, user: Id): MemberBalance {
    if balances == [] then MemberBalance(user, 0, 0)
    else if balances[0].userId == user then balances[0]
    else BalanceOf(balances[1..], user)
  }

  function Nets(balances: seq<MemberBalance>): (r: seq<Money>)
    ensures |r| == |balances|
  {
    seq(|balances|, i requires 0 <= i < |balances| => balances[i].Net())
  }

  /** The item's cost is shared among the members. */
  predicate IsShared(item: Item) {
    item.kind.IsVisit() && item.dayId.Some? && item.cost.paidBy.Some? && item.cost.split != SplitNone
  }

  /** What a member paid for the first n shares of an item. */
  function PaidFor(item: Item, amounts: seq<Money>, n: nat, user: Id): Money
    requires n <= |amounts|
  {
    if item.cost.paidBy == Some(user) then Sum(amounts[..n]) else 0
  }

  /** What a member's own part of the first n shares is. */
  function OwnPart(shares: seq<CostShare>, amounts: seq<Money>, n: nat, user: Id): Money
    requires n <= |amounts| <= |shares|
  {
    if n == 0 then 0
    else OwnPart(shares, amounts, n - 1, user) + if shares[n - 1].userId == user then amounts[n - 1] else 0
  }

  /** What a member paid over all items. */
  function TotalPaid(items: seq<Item>, travelers: int, report: bool, user: Id): Money {
    if items == [] then 0
    else
      var last := items[|items| - 1];
      TotalPaid(items[..|items| - 1], travelers, report, user)
      + if IsShared(last) && last.cost.paidBy == Some(user) then Sum(Shares(last.cost, travelers, report)) else 0
  }

  /** What a member's own part of all items is. */
  function TotalShare(items: seq<Item>, travelers: int, report: bool, user: Id): Money {
    if items == [] then 0
    else
      var last := items[|items| - 1];
      TotalShare(items[..|items| - 1], travelers, report, user)
      + if IsShared(last)
        then OwnPart(last.cost.shares, Shares(last.cost, travelers, report), |last.cost.shares|, user) else 0
  }

  ghost predicate DistinctShares(shares: seq<CostShare>) {
    forall i, j :: 0 <= i < j < |shares| ==> shares[i].userId != shares[j].userId
  }

  lemma {:induction false} OwnPartIs(shares: seq<CostShare>, amounts: seq<Money>, n: nat, user: Id)
    requires n <= |amounts| <= |shares| && DistinctShares(shares)
    ensures (forall i :: 0 <= i < n ==> shares[i].userId != user) ==> OwnPart(shares, amounts, n, user) == 0
    ensures forall i :: 0 <= i < n && shares[i].userId == user ==> OwnPart(shares, amounts, n, user) == amounts[i]
  {
    if n > 0 {
      OwnPartIs(shares, amounts, n - 1, user);
    }
  }

  /** What one more item changes in the accounts. A stay mark, a place on no day, one that nobody
      paid for or that is not split changes nothing. Any other is credited to whoever paid it
      with all it cost, and charged to the members who share it: with the amount they agreed
      on, or an equal part up to a cent. */
  lemma {:induction false} OneMoreItem(items: seq<Item>, item: Item, travelers: int, report: bool, user: Id)
    requires DistinctShares(item.cost.shares)
    requires item.cost.split == SplitIndividuals ==>
               Sum(GivenAmounts(item.cost.shares)) == SplitTotal(item.cost, travelers, report)
    requires item.cost.split == SplitEveryone ==>
               item.cost.shares != [] && SplitTotal(item.cost, travelers, report) >= 0
    ensures var shares, bill := item.cost.shares, Bill(item.cost, travelers, report);
            var more := items + [item];
            var paid := TotalPaid(more, travelers, report, user) - TotalPaid(items, travelers, report, user);
            var owed := TotalShare(more, travelers, report, user) - TotalShare(items, travelers, report, user);
            if item.kind == StayAnchor || item.dayId == None || item.cost.paidBy == None || item.cost.split == SplitNone
            then paid == 0 && owed == 0
            else
              && paid == (if item.cost.paidBy == Some(user) then bill else 0)
              && ((forall i :: 0 <= i < |shares| ==> shares[i].userId != user) ==> owed == 0)
              && forall i :: 0 <= i < |shares| && shares[i].userId == user ==>
                   if item.cost.split == SplitIndividuals then owed == shares[i].amount.GetOr(0)
                   else bill - |shares| < owed * |shares| < bill + |shares|
  {
    assert (items + [item])[..|items|] == items;
    var cost, shares := item.cost, item.cost.shares;
    if IsShared(item) {
      SharedAmount(cost, travelers, report);
      var amounts := Shares(cost, travelers, report);
      OwnPartIs(shares, amounts, |amounts|, user);
      if cost.split == SplitEveryone {
        var total, count := SplitTotal(cost, travelers, report), |shares|;
        forall i | 0 <= i < count ensures total - count < EqualPart(total, count, i) * count < total + count {
          EqualPartNear(total, count, i);
        }
      }
    }
  }

  lemma EqualPartNear(total: Money, count: nat, i: nat)
    requires total >= 0 && i < count
    ensures total - count < EqualPart(total, count, i) * count < total + count
  {
    RemainderBounds(total, count);
    var part := Quotient(total, count);
    assert total == part * count + Remainder(total, count);
    assert (part + 1) * count == part * count + count;
  }

  ghost predicate Indexed(balances: seq<MemberBalance>, index: map<Id, nat>) {
    && DistinctMembers(balances)
    && (forall user :: user in index <==> exists i :: 0 <= i < |balances| && balances[i].userId == user)
    && (forall user :: user in index ==> index[user] < |balances| && balances[index[user]].userId == user)
  }

  lemma {:induction false} BalanceAt(balances: seq<MemberBalance>, i: nat)
    requires DistinctMembers(balances) && i < |balances|
    ensures BalanceOf(balances, balances[i].userId) == balances[i]
  {
    if i > 0 {
      BalanceAt(balances[1..], i - 1);
    }
  }

  lemma {:induction false} NoBalance(balances: seq<MemberBalance>, user: Id)
    requires forall i :: 0 <= i < |balances| ==> balances[i].userId != user
    ensures BalanceOf(balances, user) == MemberBalance(user, 0, 0)
  {
    if balances != [] {
      NoBalance(balances[1..], user);
    }
  }

  /** Adds to what a member paid or owes, listing them when they are new. */
  method Adjust(balances: seq<MemberBalance>, index: map<Id, nat>, user: Id, paid: Money, share: Money)
    returns (balances': seq<MemberBalance>, index': map<Id, nat>)
    requires Indexed(balances, index)
    ensures Indexed(balances', index')
    ensures forall other :: BalanceOf(balances', other) ==
              if other == user then MemberBalance(user, BalanceOf(balances, user).paid + paid,
                                                  BalanceOf(balances, user).share + share)
              else BalanceOf(balances, other)
    ensures Sum(Nets(balances')) == Sum(Nets(balances)) + paid - share
  {
    hide BalanceOf;
    hide Nets;
    balances', index' := balances, index;
    if user !in index {
      Listing(balances, index, user);
      index' := index'[user := |balances'|];
      balances' := balances' + [MemberBalance(user, 0, 0)];
    }
    var at := index'[user];
    Changing(balances', index', user, paid, share);
    balances' := balances'[at := MemberBalance(user, balances'[at].paid + paid, balances'[at].share + share)];
  }

  lemma NetsListed(balances: seq<MemberBalance>, user: Id)
    ensures Sum(Nets(balances + [MemberBalance(user, 0, 0)])) == Sum(Nets(balances))
  {
    assert Nets(balances + [MemberBalance(user, 0, 0)]) == Nets(balances) + [0];
    SumAppend(Nets(balances), [0]);
  }

  lemma StillIndexed(balances: seq<MemberBalance>, index: map<Id, nat>, user: Id)
    requires Indexed(balances, index) && user !in index
    ensures forall i :: 0 <= i < |balances| ==> balances[i].userId != user
    ensures Indexed(balances + [MemberBalance(user, 0, 0)], index[user := |balances|])
  {
    var listed := balances + [MemberBalance(user, 0, 0)];
    assert listed[|balances|].userId == user;
    assert forall i :: 0 <= i < |balances| ==> listed[i] == balances[i];
  }

  /** Listing a new member with nothing paid and nothing owed changes no account. */
  lemma {:induction false} Listing(balances: seq<MemberBalance>, index: map<Id, nat>, user: Id)
    requires Indexed(balances, index) && user !in index
    ensures var listed := balances + [MemberBalance(user, 0, 0)];
            && Indexed(listed, index[user := |balances|])
            && (forall other :: BalanceOf(listed, other) == BalanceOf(balances, other))
            && Sum(Nets(listed)) == Sum(Nets(balances))
  {
    hide BalanceOf;
    hide Nets;
    hide Sum;
    var listed := balances + [MemberBalance(user, 0, 0)];
    NetsListed(balances, user);
    StillIndexed(balances, index, user);
    NoBalance(balances, user);
    BalanceAt(listed, |balances|);
    forall other ensures BalanceOf(listed, other) == BalanceOf(balances, other) {
      if other != user {
        BalanceAppend(balances, MemberBalance(user, 0, 0), other);
      }
    }
  }

  lemma IndexedAfter(balances: seq<MemberBalance>, index: map<Id, nat>, user: Id, paid: Money, share: Money)
    requires Indexed(balances, index) && user in index
    ensures var at := index[user];
            && at < |balances| && balances[at].userId == user && DistinctMembers(balances)
            && var changed := balances[at := MemberBalance(user, balances[at].paid + paid, balances[at].share + share)];
               Indexed(changed, index) && DistinctMembers(changed)
  {
    var at := index[user];
    var changed := balances[at := MemberBalance(user, balances[at].paid + paid, balances[at].share + share)];
    assert forall i :: 0 <= i < |balances| ==> changed[i].userId == balances[i].userId;
    forall other | other in index ensures exists i :: 0 <= i < |changed| && changed[i].userId == other {
      assert changed[index[other]].userId == other;
    }
    forall i | 0 <= i < |changed| ensures changed[i].userId in index {
      assert balances[i].userId == changed[i].userId;
    }
  }

  lemma Changing(balances: seq<MemberBalance>, index: map<Id, nat>, user: Id, paid: Money, share: Money)
    requires Indexed(balances, index) && user in index
    ensures var at := index[user];
            var changed := balances[at := MemberBalance(user, balances[at].paid + paid, balances[at].share + share)];
            && Indexed(changed, index)
            && (forall other :: BalanceOf(changed, other) ==
                  if other == user then MemberBalance(user, BalanceOf(balances, user).paid + paid,
                                                      BalanceOf(balances, user).share + share)
                  else BalanceOf(balances, other))
            && Sum(Nets(changed)) == Sum(Nets(balances)) + paid - share
  {
    hide BalanceOf;
    hide Nets;
    hide Sum;
    IndexedAfter(balances, index, user, paid, share);
    hide Indexed;
    hide DistinctMembers;
    var at := index[user];
    var changed := balances[at := MemberBalance(user, balances[at].paid + paid, balances[at].share + share)];
    BalanceAt(balances, at);
    BalanceAt(changed, at);
    forall other | other != user ensures BalanceOf(changed, other) == BalanceOf(balances, other) {
      BalanceElsewhere(balances, at, changed[at], other);
    }
    NetsUpdate(balances, at, changed[at]);
  }

  lemma {:induction false} BalanceAppend(balances: seq<MemberBalance>, added: MemberBalance, other: Id)
    requires added.userId != other
    ensures BalanceOf(balances + [added], other) == BalanceOf(balances, other)
  {
    if balances != [] {
      assert (balances + [added])[1..] == balances[1..] + [added];
      BalanceAppend(balances[1..], added, other);
    }
  }

  lemma {:induction false} BalanceElsewhere(balances: seq<MemberBalance>, at: nat, changed: MemberBalance, other: Id)
    requires at < |balances| && balances[at].userId == changed.userId != other
    ensures BalanceOf(balances[at := changed], other) == BalanceOf(balances, other)
  {
    if at > 0 {
      assert balances[at := changed][1..] == balances[1..][at - 1 := changed];
      BalanceElsewhere(balances[1..], at - 1, changed, other);
    } else {
      assert balances[at := changed][1..] == balances[1..];
    }
  }

  lemma NetsUpdate(balances: seq<MemberBalance>, at: nat, changed: MemberBalance)
    requires at < |balances|
    ensures Sum(Nets(balances[at := changed])) == Sum(Nets(balances)) - balances[at].Net() + changed.Net()
  {
    var a, b := Nets(balances), Nets(balances[at := changed]);
    assert a == a[..at] + ([a[at]] + a[at + 1..]);
    assert b == a[..at] + ([b[at]] + a[at + 1..]);
    SumAppend(a[..at], [a[at]] + a[at + 1..]);
    SumAppend(a[..at], [b[at]] + a[at + 1..]);
    SumAppend([a[at]], a[at + 1..]);
    SumAppend([b[at]], a[at + 1..]);
  }

  /** The balances after some items say what each member paid and owes for them. */
  ghost predicate Sums(balances: seq<MemberBalance>, items: seq<Item>, travelers: int, report: bool) {
    && Sum(Nets(balances)) == 0
    && forall user :: BalanceOf(balances, user) ==
         MemberBalance(user, TotalPaid(items, travelers, report, user), TotalShare(items, travelers, report, user))
  }

  /** The shares of one item: the payer is credited with each, its member charged. */
  method ShareItem(balances: seq<MemberBalance>, index: map<Id, nat>, item: Item, travelers: int, report: bool)
    returns (balances': seq<MemberBalance>, index': map<Id, nat>)
    requires Indexed(balances, index) && IsShared(item)
    ensures Indexed(balances', index')
    ensures Sum(Nets(balances')) == Sum(Nets(balances))
    ensures var amounts := Shares(item.cost, travelers, report);
            forall user :: BalanceOf(balances', user) ==
              MemberBalance(user,
                            BalanceOf(balances, user).paid + if item.cost.paidBy == Some(user) then Sum(amounts) else 0,
                            BalanceOf(balances, user).share + OwnPart(item.cost.shares, amounts, |amounts|, user))
  {
    hide BalanceOf;
    hide Nets;
    hide Indexed;
    balances', index' := balances, index;
    var payer := item.cost.paidBy.value;
    var amounts := ShareAmounts(item.cost, travelers, report);
    forall user ensures BalanceOf(balances, user).userId == user {
      BalanceIsTheirs(balances, user);
    }
    for position := 0 to |amounts|
      invariant Indexed(balances', index')
      invariant Sum(Nets(balances')) == Sum(Nets(balances))
      invariant forall user :: BalanceOf(balances', user) ==
                  MemberBalance(user, BalanceOf(balances, user).paid + PaidFor(item, amounts, position, user),
                                BalanceOf(balances, user).share + OwnPart(item.cost.shares, amounts, position, user))
    {
      var amount := amounts[position];
      assert amounts[..position + 1] == amounts[..position] + [amount];
      SumAppend(amounts[..position], [amount]);
      balances', index' := Adjust(balances', index', payer, amount, 0);
      balances', index' := Adjust(balances', index', item.cost.shares[position].userId, 0, amount);
    }
    assert amounts[..|amounts|] == amounts;
  }

  lemma {:induction false} BalanceIsTheirs(balances: seq<MemberBalance>, user: Id)
    ensures BalanceOf(balances, user).userId == user
  {
    if balances != [] {
      BalanceIsTheirs(balances[1..], user);
    }
  }

  method SumBalances(items: seq<Item>, travelers: int, report: bool) returns (balances: seq<MemberBalance>)
    ensures DistinctMembers(balances)
    ensures Sum(Nets(balances)) == 0
    ensures forall user :: BalanceOf(balances, user) ==
              MemberBalance(user, TotalPaid(items, travelers, report, user), TotalShare(items, travelers, report, user))
  {
    hide BalanceOf;
    hide Nets;
    hide Shares;
    hide OwnPart;
    balances := [];
    var index: map<Id, nat> := map[];
    StartBalances();
    for at := 0 to |items|
      invariant Indexed(balances, index)
      invariant Sums(balances, items[..at], travelers, report)
    {
      assert items[..at + 1][..at] == items[..at];
      if !items[at].kind.IsVisit() || items[at].dayId == None || items[at].cost.paidBy == None
         || items[at].cost.split == SplitNone {
        continue;
      }
      balances, index := ShareItem(balances, index, items[at], travelers, report);
    }
    assert items[..|items|] == items;
  }

  lemma StartBalances()
    ensures Sum(Nets([])) == 0
    ensures forall user :: BalanceOf([], user) == MemberBalance(user, 0, 0)
  {
  }

  // ------------------------------------------------------------- settling

  datatype Party = Party(userId: Id, amount: Money, order: nat)

  datatype Settlement = Settlement(from: Id, to: Id, amount: Money)

  function LargestFirst(party: Party): int {
    -party.amount
  }

  /** The members who are owed, or who owe, among the first n. */
  function Parties(balances: seq<MemberBalance>, creditors: bool, n: nat): seq<Party>
    requires n <= |balances|
  {
    if n == 0 then []
    else
      var net := if creditors then balances[n - 1].Net() else -balances[n - 1].Net();
      Parties(balances, creditors, n - 1) + if net > 0 then [Party(balances[n - 1].userId, net, n - 1)] else []
  }

  function Owed(parties: seq<Party>, user: Id): Money {
    if parties == [] then 0
    else (if parties[0].userId == user then parties[0].amount else 0) + Owed(parties[1..], user)
  }

  function Total(parties: seq<Party>): Money {
    if parties == [] then 0 else parties[0].amount + Total(parties[1..])
  }

  function Received(settlements: seq<Settlement>, user: Id): Money {
    if settlements == [] then 0
    else
      var last := settlements[|settlements| - 1];
      Received(settlements[..|settlements| - 1], user) + if last.to == user then last.amount else 0
  }

  function Sent(settlements: seq<Settlement>, user: Id): Money {
    if settlements == [] then 0
    else
      var last := settlements[|settlements| - 1];
      Sent(settlements[..|settlements| - 1], user) + if last.from == user then last.amount else 0
  }

  ghost predicate Waiting(parties: seq<Party>) {
    forall i :: 0 <= i < |parties| ==> parties[i].amount > 0
  }

  /** The parties are members with a credit, or with a debt. */
  ghost predicate Members(balances: seq<MemberBalance>, creditors: bool, parties: seq<Party>) {
    forall i :: 0 <= i < |parties| ==>
      && parties[i].order < |balances| && balances[parties[i].order].userId == parties[i].userId
      && (if creditors then balances[parties[i].order].Net() > 0 else balances[parties[i].order].Net() < 0)
  }

  ghost predicate IsCreditor(balances: seq<MemberBalance>, user: Id) {
    exists i :: 0 <= i < |balances| && balances[i].userId == user && balances[i].Net() > 0
  }

  ghost predicate IsDebtor(balances: seq<MemberBalance>, user: Id) {
    exists i :: 0 <= i < |balances| && balances[i].userId == user && balances[i].Net() < 0
  }

  lemma {:induction false} OwedAppend(a: seq<Party>, b: seq<Party>, user: Id)
    ensures Owed(a + b, user) == Owed(a, user) + Owed(b, user)
    ensures Total(a + b) == Total(a) + Total(b)
  {
    if a == [] {
      assert a + b == b;
    } else {
      assert (a + b)[1..] == a[1..] + b;
      OwedAppend(a[1..], b, user);
    }
  }

  lemma {:induction false} OwedInsert(s: seq<Party>, x: Party, user: Id)
    ensures Owed(InsertBy(s, x, LargestFirst), user) == Owed(s, user) + Owed([x], user)
    ensures Total(InsertBy(s, x, LargestFirst)) == Total(s) + x.amount
  {
    OwedAppend(s, [x], user);
    if s != [] && LargestFirst(s[|s| - 1]) > LargestFirst(x) {
      var front, last := s[..|s| - 1], s[|s| - 1];
      assert s == front + [last];
      OwedInsert(front, x, user);
      OwedAppend(InsertBy(front, x, LargestFirst), [last], user);
      OwedAppend(front, [last], user);
    }
  }

  lemma {:induction false} OwedSorted(s: seq<Party>, user: Id)
    ensures Owed(StableSort(s, LargestFirst), user) == Owed(s, user)
    ensures Total(StableSort(s, LargestFirst)) == Total(s)
  {
    if s != [] {
      var front, last := s[..|s| - 1], s[|s| - 1];
      assert s == front + [last];
      OwedSorted(front, user);
      OwedInsert(StableSort(front, LargestFirst), last, user);
      OwedAppend(front, [last], user);
    }
  }

  lemma {:induction false} PartiesAre(balances: seq<MemberBalance>, creditors: bool, n: nat)
    requires n <= |balances|
    ensures Waiting(Parties(balances, creditors, n)) && Members(balances, creditors, Parties(balances, creditors, n))
    ensures |Parties(balances, creditors, n)| <= n
  {
    if n > 0 {
      PartiesAre(balances, creditors, n - 1);
    }
  }

  lemma {:induction false} PartiesOwe(balances: seq<MemberBalance>, n: nat, user: Id)
    requires n <= |balances| && DistinctMembers(balances)
    ensures Owed(Parties(balances, true, n), user) - Owed(Parties(balances, false, n), user)
         == BalanceOf(balances[..n], user).Net()
  {
    hide Parties;
    if n > 0 {
      var front, last := balances[..n - 1], balances[n - 1];
      PartiesOwe(balances, n - 1, user);
      assert balances[..n] == front + [last];
      OwedLast(balances, true, n, user);
      OwedLast(balances, false, n, user);
      if last.userId == user {
        NoBalance(front, user);
        BalanceAt(balances[..n], n - 1);
      } else {
        BalanceAppend(front, last, user);
      }
    } else {
      NoParties(balances);
    }
  }

  lemma {:induction false} PartiesTotal(balances: seq<MemberBalance>, n: nat)
    requires n <= |balances|
    ensures Total(Parties(balances, true, n)) - Total(Parties(balances, false, n)) == Sum(Nets(balances[..n]))
  {
    hide Parties;
    if n > 0 {
      var front, last := balances[..n - 1], balances[n - 1];
      PartiesTotal(balances, n - 1);
      assert Nets(balances[..n]) == Nets(front) + [last.Net()];
      SumAppend(Nets(front), [last.Net()]);
      OwedLast(balances, true, n, 0);
      OwedLast(balances, false, n, 0);
    } else {
      NoParties(balances);
    }
  }

  lemma {:induction false} NoParties(balances: seq<MemberBalance>)
    ensures Parties(balances, true, 0) == [] && Parties(balances, false, 0) == []
  {
  }

  lemma OwedLast(balances: seq<MemberBalance>, creditors: bool, n: nat, user: Id)
    requires 0 < n <= |balances|
    ensures var net := if creditors then balances[n - 1].Net() else -balances[n - 1].Net();
            && Owed(Parties(balances, creditors, n), user) == Owed(Parties(balances, creditors, n - 1), user)
                 + (if net > 0 && balances[n - 1].userId == user then net else 0)
            && Total(Parties(balances, creditors, n)) == Total(Parties(balances, creditors, n - 1)) + Max(net, 0)
  {
    var net := if creditors then balances[n - 1].Net() else -balances[n - 1].Net();
    OwedAppend(Parties(balances, creditors, n - 1),
               if net > 0 then [Party(balances[n - 1].userId, net, n - 1)] else [], user);
  }

  /** The sorted parties of the balances. */
  function Queue(balances: seq<MemberBalance>, creditors: bool): seq<Party> {
    StableSort(Parties(balances, creditors, |balances|), LargestFirst)
  }

  /** The members who are owed and those who owe, the largest amounts first. */
  method SortParties(balances: seq<MemberBalance>) returns (creditors: seq<Party>, debtors: seq<Party>)
    ensures creditors == Queue(balances, true) && debtors == Queue(balances, false)
  {
    creditors, debtors := [], [];
    for order := 0 to |balances|
      invariant creditors == Parties(balances, true, order) && debtors == Parties(balances, false, order)
    {
      var net := balances[order].Net();
      if net > 0 {
        creditors := creditors + [Party(balances[order].userId, net, order)];
      } else if net < 0 {
        debtors := debtors + [Party(balances[order].userId, -net, order)];
      }
    }
    creditors := StableSort(creditors, LargestFirst);
    debtors := StableSort(debtors, LargestFirst);
  }

  lemma {:induction false} SortedParties(balances: seq<MemberBalance>, creditors: bool)
    ensures var sorted := Queue(balances, creditors);
            && Waiting(sorted) && Members(balances, creditors, sorted)
            && |sorted| == |Parties(balances, creditors, |balances|)|
            && SortedBy(sorted, LargestFirst)
  {
    hide StableSort;
    hide Parties;
    var parties := Parties(balances, creditors, |balances|);
    var sorted := StableSort(parties, LargestFirst);
    PartiesAre(balances, creditors, |balances|);
    StableSortSorts(parties, LargestFirst);
    assert |multiset(sorted)| == |multiset(parties)|;
    forall i | 0 <= i < |sorted| ensures sorted[i] in parties {
      assert sorted[i] in multiset(parties);
    }
  }

  /** What is still owed after the front party was paid. */
  lemma {:induction false} PaidFront(parties: seq<Party>, at: nat, amount: Money, user: Id)
    requires at < |parties|
    ensures var paid := parties[at := parties[at].(amount := parties[at].amount - amount)];
            && Owed(paid[at..], user) == Owed(parties[at..], user) - (if parties[at].userId == user then amount else 0)
            && Total(paid[at..]) == Total(parties[at..]) - amount
            && Owed(paid[at + 1..], user) == Owed(parties[at + 1..], user)
            && Total(paid[at + 1..]) == Total(parties[at + 1..])
  {
    var paid := parties[at := parties[at].(amount := parties[at].amount - amount)];
    assert paid[at..] == [paid[at]] + parties[at + 1..];
    assert parties[at..] == [parties[at]] + parties[at + 1..];
    assert paid[at + 1..] == parties[at + 1..];
  }

  /** The parties not yet settled still wait for something. */
  ghost predicate Open(parties: seq<Party>, at: nat) {
    at <= |parties| && forall i :: at <= i < |parties| ==> parties[i].amount > 0
  }

  lemma {:induction false} OpenTotal(parties: seq<Party>, at: nat)
    requires Open(parties, at)
    ensures Total(parties[at..]) >= 0
    ensures Total(parties[at..]) == 0 ==> at == |parties|
    decreases |parties| - at
  {
    if at < |parties| {
      OpenTotal(parties, at + 1);
      assert parties[at..][1..] == parties[at + 1..];
    }
  }

  /** Pays the front of one queue and moves past it once nothing is left. */
  method PayFront(parties: seq<Party>, at: nat, amount: Money) returns (parties': seq<Party>, at': nat)
    requires Open(parties, at) && at < |parties| && 0 < amount <= parties[at].amount
    ensures Open(parties', at') && |parties'| == |parties|
    ensures at' == if amount == parties[at].amount then at + 1 else at
    ensures forall i :: 0 <= i < |parties| ==>
              parties'[i].userId == parties[i].userId && parties'[i].order == parties[i].order
    ensures forall user :: Owed(parties'[at'..], user)
              == Owed(parties[at..], user) - if parties[at].userId == user then amount else 0
    ensures Total(parties'[at'..]) == Total(parties[at..]) - amount
  {
    parties', at' := parties[at := parties[at].(amount := parties[at].amount - amount)], at;
    forall user
      ensures Owed(parties'[at..], user)
           == Owed(parties[at..], user) - (if parties[at].userId == user then amount else 0)
      ensures Total(parties'[at..]) == Total(parties[at..]) - amount
    {
      PaidFront(parties, at, amount, user);
    }
    if parties'[at].amount == 0 {
      at' := at + 1;
      assert parties'[at..] == [parties'[at]] + parties'[at + 1..];
      assert parties'[at..][1..] == parties'[at + 1..];
    }
  }

  /** The accounts still to be squared, with the payments made so far. */
  ghost predicate Squaring(balances: seq<MemberBalance>, settlements: seq<Settlement>, creditors: seq<Party>, c: nat,
                           debtors: seq<Party>, d: nat)
  {
    && Open(creditors, c) && Open(debtors, d)
    && Members(balances, true, creditors) && Members(balances, false, debtors)
    && Total(creditors[c..]) - Total(debtors[d..]) == Sum(Nets(balances))
    && forall user :: Received(settlements, user) - Sent(settlements, user)
                      + Owed(creditors[c..], user) - Owed(debtors[d..], user) == BalanceOf(balances, user).Net()
  }

  ghost predicate Payments(balances: seq<MemberBalance>, settlements: seq<Settlement>) {
    forall k :: 0 <= k < |settlements| ==>
      && settlements[k].amount > 0
      && IsDebtor(balances, settlements[k].from) && IsCreditor(balances, settlements[k].to)
  }

  lemma {:induction false} QueueOwes(balances: seq<MemberBalance>, user: Id)
    requires DistinctMembers(balances)
    ensures Owed(Queue(balances, true), user) - Owed(Queue(balances, false), user) == BalanceOf(balances, user).Net()
    ensures Total(Queue(balances, true)) - Total(Queue(balances, false)) == Sum(Nets(balances))
  {
    hide StableSort;
    hide Parties;
    hide BalanceOf;
    hide Owed;
    hide Total;
    hide Nets;
    assert balances[..|balances|] == balances;
    PartiesTotal(balances, |balances|);
    PartiesOwe(balances, |balances|, user);
    OwedSorted(Parties(balances, true, |balances|), user);
    OwedSorted(Parties(balances, false, |balances|), user);
  }

  lemma StartSquaring(balances: seq<MemberBalance>)
    requires DistinctMembers(balances)
    ensures Squaring(balances, [], Queue(balances, true), 0, Queue(balances, false), 0)
  {
    hide BalanceOf;
    hide Owed;
    hide Total;
    hide Nets;
    hide Members;
    SortedParties(balances, true);
    SortedParties(balances, false);
    var c, d := Queue(balances, true), Queue(balances, false);
    hide Queue;
    hide Sum;
    assert c[0..] == c && d[0..] == d;
    assert Open(c, 0) && Open(d, 0);
    forall user
      ensures Received([], user) - Sent([], user) + Owed(c[0..], user) - Owed(d[0..], user)
           == BalanceOf(balances, user).Net()
      ensures Total(c[0..]) - Total(d[0..]) == Sum(Nets(balances))
    {
      QueueOwes(balances, user);
    }
  }

  lemma {:induction false} PartyAmounts(balances: seq<MemberBalance>, creditors: bool, n: nat)
    requires n <= |balances|
    ensures forall p :: p in Parties(balances, creditors, n) ==>
              (p.order < n && p.userId == balances[p.order].userId
               && p.amount == if creditors then balances[p.order].Net() else -balances[p.order].Net())
    ensures forall i :: 0 <= i < n && (if creditors then balances[i].Net() > 0 else balances[i].Net() < 0) ==>
              exists p :: p in Parties(balances, creditors, n) && p.order == i
  {
    if n > 0 {
      PartyAmounts(balances, creditors, n - 1);
      var net := if creditors then balances[n - 1].Net() else -balances[n - 1].Net();
      if net > 0 {
        assert Party(balances[n - 1].userId, net, n - 1) in Parties(balances, creditors, n);
      }
      forall i | 0 <= i < n - 1 && (if creditors then balances[i].Net() > 0 else balances[i].Net() < 0)
        ensures exists p :: p in Parties(balances, creditors, n) && p.order == i
      {
        var p :| p in Parties(balances, creditors, n - 1) && p.order == i;
        assert p in Parties(balances, creditors, n);
      }
    }
  }

  /** The member at the head of a queue is owed, or owes, the most. */
  lemma {:induction false} QueueHead(balances: seq<MemberBalance>, creditors: bool)
    requires DistinctMembers(balances) && Queue(balances, creditors) != []
    ensures var head := BalanceOf(balances, Queue(balances, creditors)[0].userId).Net();
            forall i :: 0 <= i < |balances| ==>
              if creditors then balances[i].Net() <= head else head <= balances[i].Net()
  {
    hide StableSort;
    hide Parties;
    hide BalanceOf;
    var parties, queue := Parties(balances, creditors, |balances|), Queue(balances, creditors);
    PartyAmounts(balances, creditors, |balances|);
    SortedParties(balances, creditors);
    StableSortSorts(parties, LargestFirst);
    assert queue[0] in multiset(parties);
    BalanceAt(balances, queue[0].order);
    forall i | 0 <= i < |balances| && (if creditors then balances[i].Net() > 0 else balances[i].Net() < 0)
      ensures queue[0].amount >= if creditors then balances[i].Net() else -balances[i].Net()
    {
      var p :| p in parties && p.order == i;
      assert p in multiset(queue);
      var k :| 0 <= k < |queue| && queue[k] == p;
      assert LargestFirst(queue[0]) <= LargestFirst(queue[k]);
    }
  }

  /** One payment squares as much as it pays. */
  method PayOne(balances: seq<MemberBalance>, settlements: seq<Settlement>, creditors: seq<Party>, c: nat,
                debtors: seq<Party>, d: nat)
    returns (settlements': seq<Settlement>, creditors': seq<Party>, c': nat, debtors': seq<Party>, d': nat)
    requires Squaring(balances, settlements, creditors, c, debtors, d) && Payments(balances, settlements)
    requires c < |creditors| && d < |debtors|
    ensures Squaring(balances, settlements', creditors', c', debtors', d') && Payments(balances, settlements')
    ensures |creditors'| == |creditors| && |debtors'| == |debtors|
    ensures |settlements'| == |settlements| + 1 && settlements <= settlements'
    ensures c <= c' <= c + 1 && d <= d' <= d + 1 && c' + d' > c + d
    ensures settlements'[|settlements|] == Settlement(debtors[d].userId, creditors[c].userId,
                                                      Min(creditors[c].amount, debtors[d].amount))
  {
    hide BalanceOf;
    hide Owed;
    hide Total;
    hide Nets;
    var amount := Min(creditors[c].amount, debtors[d].amount);
    var payment := Settlement(debtors[d].userId, creditors[c].userId, amount);
    settlements' := settlements + [payment];
    assert settlements'[..|settlements|] == settlements;
    creditors', c' := PayFront(creditors, c, amount);
    debtors', d' := PayFront(debtors, d, amount);
  }

  /** Pays off the queue of debtors against the queue of creditors, both sorted by amount.
      Each payment runs between the heads of the two queues, and accounts that sum to
      nothing are all settled in the end, in fewer payments than there are accounts. */
  method Settle(balances: seq<MemberBalance>) returns (settlements: seq<Settlement>)
    requires DistinctMembers(balances)
    ensures Payments(balances, settlements)
    ensures Sum(Nets(balances)) == 0 ==> forall user ::
              Received(settlements, user) - Sent(settlements, user) == BalanceOf(balances, user).Net()
    ensures var owed, owing := |Parties(balances, true, |balances|)|, |Parties(balances, false, |balances|)|;
            |settlements| <= if owed == 0 || owing == 0 then 0 else owed + owing - 1
    ensures settlements != [] ==> forall i :: 0 <= i < |balances| ==>
              BalanceOf(balances, settlements[0].from).Net() <= balances[i].Net()
              <= BalanceOf(balances, settlements[0].to).Net()
  {
    hide BalanceOf;
    hide Queue;
    hide Parties;
    hide Nets;
    hide Members;
    hide Owed;
    hide Total;
    var creditors, debtors := SortParties(balances);
    StartSquaring(balances);
    SortedParties(balances, true);
    SortedParties(balances, false);
    settlements := [];
    var c, d := 0, 0;
    ghost var owed, owing := |creditors|, |debtors|;
    while c < |creditors| && d < |debtors|
      invariant Squaring(balances, settlements, creditors, c, debtors, d) && Payments(balances, settlements)
      invariant |creditors| == owed == |Queue(balances, true)| && |debtors| == owing == |Queue(balances, false)|
      invariant |settlements| <= c + d
      invariant settlements == [] ==>
                  c == d == 0 && creditors == Queue(balances, true) && debtors == Queue(balances, false)
      invariant settlements != [] ==> owed > 0 && owing > 0
      invariant settlements != [] ==>
                  && settlements[0].to == Queue(balances, true)[0].userId
                  && settlements[0].from == Queue(balances, false)[0].userId
      invariant settlements != [] && c == owed && d == owing ==> |settlements| < c + d
      decreases |creditors| - c + |debtors| - d
    {
      settlements, creditors, c, debtors, d := PayOne(balances, settlements, creditors, c, debtors, d);
    }
    if settlements != [] {
      QueueHead(balances, true);
      QueueHead(balances, false);
    }
    OpenTotal(creditors, c);
    OpenTotal(debtors, d);
    if Sum(Nets(balances)) == 0 {
      NothingLeft(creditors, c);
      NothingLeft(debtors, d);
    }
  }

  lemma NothingLeft(parties: seq<Party>, at: nat)
    requires at <= |parties|
    ensures at == |parties| ==> forall user :: Owed(parties[at..], user) == 0
    ensures at == |parties| ==> Total(parties[at..]) == 0
  {
  }

  /** The balances of a document's split costs, and payments after which everybody has
      paid exactly their own part. */
  method BuildBalances(items: seq<Item>, travelers: int, report: bool)
    returns (balances: seq<MemberBalance>, settlements: seq<Settlement>)
    ensures DistinctMembers(balances)
    ensures Payments(balances, settlements)
    ensures forall user :: BalanceOf(balances, user) ==
              MemberBalance(user, TotalPaid(items, travelers, report, user), TotalShare(items, travelers, report, user))
    ensures forall user ::
              TotalPaid(items, travelers, report, user) + Sent(settlements, user) - Received(settlements, user)
              == TotalShare(items, travelers, report, user)
  {
    hide BalanceOf;
    hide Nets;
    hide TotalPaid;
    hide TotalShare;
    balances := SumBalances(items, travelers, report);
    settlements := Settle(balances);
  }
}
