/** What becomes of a transaction row, read off the columns of the tables, with each status spelled out. */
module Verdicts {
  import opened Domain
  import opened Store
  import opened Eligibility
  import opened RowSteps
  import opened Outcomes
  import Ledger
  import Reward

  // ---- Reading the tables ----

  /** Place of the first product with the row's code and account. */
  ghost predicate FirstHeld(products: seq<Product>, t: Txn, m: nat) {
    m < |products| && products[m].code == t.productCode && products[m].accountId == t.accountId
    && forall j :: 0 <= j < m ==> products[j].code != t.productCode || products[j].accountId != t.accountId
  }

  /** Place of the first eligible product of a code. */
  ghost predicate FirstListed(listed: seq<EligibleProduct>, code: ProductCode, m: nat) {
    m < |listed| && listed[m].code == code && forall j :: 0 <= j < m ==> listed[j].code != code
  }

  /** The place of the row that counts on the day of an instant. */
  ghost predicate OnDay(ledger: seq<Ledger.Entry>, user: UserId, d: Instant, i: nat) {
    Ledger.NewestAt(ledger, user, d - d % 86_400_000_000 + 86_399_000_000, i)
  }

  ghost predicate TargetedOnDay(ledger: seq<Ledger.Entry>, user: UserId, offer: OfferId, d: Instant) {
    exists i: nat :: OnDay(ledger, user, d, i) && offer in ledger[i].info.targeted
  }

  ghost predicate LinkedOnDay(ledger: seq<Ledger.Entry>, user: UserId, offer: OfferId, d: Instant) {
    exists i: nat :: OnDay(ledger, user, d, i) && offer in ledger[i].info.linked
  }

  /** An authorised user's product of an offer that authorised users may redeem but only primary holders are shown. */
  ghost predicate LinkOfPrimary(c: Criteria, p: Product) {
    c.basedOn == ProductOwnershipBased && p.ownership == AuthorizedUser
    && exists m: nat :: FirstListed(c.eligibleProducts, p.code, m)
         && AuthorizedUser in c.eligibleProducts[m].redeemable
         && Primary in c.eligibleProducts[m].presentable && AuthorizedUser !in c.eligibleProducts[m].presentable
  }

  // ---- Statuses of the three kinds of row ----

  /** The status of a qualifying row; none where the row stays pending. */
  ghost function QualifyingStatus(env: Env, db: Db, t: Txn): Option<Status> {
    if t.offerId !in env.offers then Some(OfferNotFound)
    else if t.userId !in env.users then Some(CannotFindClient)
    else ClientStatus(env, db, t, env.offers[t.offerId], env.users[t.userId])
  }

  ghost function ClientStatus(env: Env, db: Db, t: Txn, c: Criteria, u: User): Option<Status> {
    if !c.hasBeenActivated || !c.isRedeemable || t.date < c.validFrom || t.date > c.validTo
    then Some(OfferNotWithinRedemptionPeriod)
    else if u.isBlacklisted then Some(ClientBlacklisted)
    else if t.cardType == OtherCard then None
    else HoldingStatus(env, db, t, c, u, if t.cardType == CreditCard then u.creditCards else u.debitCards)
  }

  ghost function HoldingStatus(env: Env, db: Db, t: Txn, c: Criteria, u: User, products: seq<Product>): Option<Status> {
    if forall m: nat :: !FirstHeld(products, t, m) then Some(UserProductForOfferNotFound)
    else
      var m: nat :| FirstHeld(products, t, m);
      ProductStatus(env, db, t, c, u, products[m])
  }

  ghost function ProductStatus(env: Env, db: Db, t: Txn, c: Criteria, u: User, p: Product): Option<Status> {
    if !p.eligible then Some(ProductHasBlockCode)
    else if c.requiresTargeting && c.basedOn != PreLoadedOptInFile
            && !(env.targetingAnswers && TargetedOnDay(env.ledger, t.userId, t.offerId, t.date))
    then Some(ClientIsNotTargeted)
    else if c.requiresLinking && c.basedOn == ProductOwnershipBased && p.ownership == AuthorizedUser
            && forall e :: e in c.eligibleProducts ==> e.code != p.code
    then None
    else if c.requiresLinking
            && !(env.linkingAnswers
                 && if LinkOfPrimary(c, p)
                    then p.primaryAccount.Some? && LinkedOnDay(env.ledger, p.primaryAccount.value, t.offerId, t.date)
                    else LinkedOnDay(env.ledger, t.userId, t.offerId, t.date))
    then Some(ClientIsNotLinked)
    else if c.redemptionLimit != 0
            && |set i: nat | i < |db.rebates| && db.rebates[i].userId == t.userId && db.rebates[i].offerId == t.offerId
                             && (c.limitType == PerCard ==> db.rebates[i].card == t.card)| >= c.redemptionLimit
    then Some(if c.limitType == PerCard then ClientReachedCardRedLimit else ClientReachedOverallRedLimit)
    else Some(RewardStatus(db, t, c, u, p))
  }

  ghost function RewardStatus(db: Db, t: Txn, c: Criteria, u: User, p: Product): Status {
    if exists i :: 0 <= i < |db.rebates| && db.rebates[i].sourceTxnId == t.txnId
    then QualifiedTransUsedAlready
    else if c.basedOn == ProductOwnershipBased
            && !exists m: nat :: FirstListed(c.eligibleProducts, p.code, m)
                                 && p.ownership in c.eligibleProducts[m].redeemable
    then if t.cardType == CreditCard then CreditCardOwnerNotAuthorized else DebitCardOwnerNotAuthorized
    else if c.basedOn == PreLoadedOptInFile
            && !exists r :: r in u.optIns && t.offerId in r.offers && r.accountId == t.accountId
                            && (t.cardType == CreditCard ==> r.customerId == t.customerId)
    then ClientNotInOptInFile
    else if c.reward.operand.coef == 0
            || (c.reward.operation == Reward.Multiplication
                && (if c.reward.unit == Dollars then t.amount else t.basePoints) == 0)
    then RebateNotDue
    else RebateCreated
  }

  ghost function FulfilmentStatus(env: Env, db: Db, t: Txn): Status {
    if t.rebateId.None? then RebateIdNotFound
    else if exists i :: 0 <= i < |db.rebates| && db.rebates[i].fulfilledTxnId == Some(t.txnId) then FulfilledTransUsedAlready
    else if t.userId !in env.users then CannotFindClient
    else if t.rebateId.value >= |db.rebates| then RebateNotFound
    else if db.rebates[t.rebateId.value].accountId != t.accountId then FulfilledTransHasDiffAccount
    else if db.rebates[t.rebateId.value].amount != t.amount then FulfilledTransHasWrongAmount
    else if db.rebates[t.rebateId.value].status != PendingFulfillment then RebateNotPending
    else FulfilledTransSuccessful
  }

  ghost function RefundStatus(env: Env, db: Db, t: Txn): Status {
    if t.offerId !in env.offers then OfferNotFound
    else if forall i :: 0 <= i < |db.rebates| ==> db.rebates[i].userId != t.userId || db.rebates[i].offerId != t.offerId
    then RebateNotFound
    else
      var c := env.offers[t.offerId];
      if c.hasBeenActivated && c.isRedeemable
         && c.validFrom <= t.date <= c.validTo + c.refundPeriodInDays * 86_400_000_000
      then RefundTrackedForReporting else RefundNotTrackedForReporting
  }

  // ---- The queries read these columns ----

  lemma HeldIsUsed(u: User, t: Txn, products: seq<Product>, m: nat)
    requires products == (if t.cardType == CreditCard then u.creditCards else u.debitCards) && FirstHeld(products, t, m)
    ensures ProductUsed(u, t) == Some(products[m])
  {
    FirstOfIffForemost(products, (p: Product) => IsProductOf(p, t), products[m]);
  }

  lemma UsedIsHeld(u: User, t: Txn, products: seq<Product>)
    requires products == (if t.cardType == CreditCard then u.creditCards else u.debitCards) && ProductUsed(u, t).Some?
    ensures exists m: nat :: FirstHeld(products, t, m)
  {
    FirstOfIsFirst(products, (p: Product) => IsProductOf(p, t));
    var m: nat :| m < |products| && IsProductOf(products[m], t) && forall j :: 0 <= j < m ==> !IsProductOf(products[j], t);
    assert FirstHeld(products, t, m);
  }

  lemma ListedIsEligible(c: Criteria, code: ProductCode, m: nat)
    requires FirstListed(c.eligibleProducts, code, m)
    ensures EligibleFor(c, code) == Some(c.eligibleProducts[m])
  {
    FirstOfIffForemost(c.eligibleProducts, (e: EligibleProduct) => e.code == code, c.eligibleProducts[m]);
  }

  lemma EligibleIsListed(c: Criteria, code: ProductCode)
    ensures match EligibleFor(c, code)
            case None => forall e :: e in c.eligibleProducts ==> e.code != code
            case Some(e) => exists m: nat :: FirstListed(c.eligibleProducts, code, m) && c.eligibleProducts[m] == e
  {
    FirstOfIsFirst(c.eligibleProducts, (e: EligibleProduct) => e.code == code);
    match EligibleFor(c, code)
    case None =>
    case Some(e) =>
      var s := c.eligibleProducts;
      var m: nat :| m < |s| && s[m] == e && s[m].code == code && forall j :: 0 <= j < m ==> s[j].code != code;
      assert FirstListed(s, code, m);
  }

  lemma OnDayIsOnLedger(env: Env, user: UserId, offer: OfferId, d: Instant)
    ensures OnLedger(env, user, offer, d, false) <==> env.targetingAnswers && TargetedOnDay(env.ledger, user, offer, d)
    ensures OnLedger(env, user, offer, d, true) <==> env.linkingAnswers && LinkedOnDay(env.ledger, user, offer, d)
  {
    var state := Ledger.StateAt(env.ledger, user, d);
    if state.Some? { Ledger.StateAtIsNewest(env.ledger, user, d, state.value); }
    forall i: nat | OnDay(env.ledger, user, d, i) ensures state == Some(env.ledger[i].info) {
      Ledger.StateAtIsNewest(env.ledger, user, d, env.ledger[i].info);
    }
  }

  lemma RewardIsDue(c: Criteria, t: Txn)
    ensures RewardOf(c, t).coef == 0 <==>
            c.reward.operand.coef == 0
            || (c.reward.operation == Reward.Multiplication
                && (if c.reward.unit == Dollars then t.amount else t.basePoints) == 0)
  {
    var a, b := c.reward.operand.coef, if c.reward.unit == Dollars then t.amount else t.basePoints;
    ProductIsZero(a, b);
    ProductIsZero(-a, b);
  }

  lemma ProductIsZero(a: int, b: int)
    ensures a * b == 0 <==> a == 0 || b == 0
  {
  }

  // ---- The order of the checks ----

  /** The status that goes with the first check to fail, or with none. */
  function StatusOf(refusal: Option<Check>, env: Env, t: Txn): Option<Status> {
    match refusal
    case None => Some(RebateCreated)
    case Some(check) => StatusFor(check, env, t)
  }

  lemma Peel(check: Check, rest: seq<Check>, env: Env, db: Db, t: Txn)
    ensures FirstFailing([check] + rest, env, db, t) ==
            if Holds(check, env, db, t) then FirstFailing(rest, env, db, t) else Some(check)
  {
    assert ([check] + rest)[1..] == rest;
  }

  lemma PeelThree(a: Check, b: Check, c: Check, rest: seq<Check>, env: Env, db: Db, t: Txn)
    ensures FirstFailing([a, b, c] + rest, env, db, t) ==
            if !Holds(a, env, db, t) then Some(a)
            else if !Holds(b, env, db, t) then Some(b)
            else if !Holds(c, env, db, t) then Some(c)
            else FirstFailing(rest, env, db, t)
  {
    var fromC := [c] + rest;
    var fromB := [b] + fromC;
    assert [a, b, c] + rest == [a] + fromB;
    Peel(a, fromB, env, db, t);
    Peel(b, fromC, env, db, t);
    Peel(c, rest, env, db, t);
  }

  /** What every lemma below is about: a known offer, a known client, and the product used. */
  predicate Known(env: Env, t: Txn, c: Criteria, u: User) {
    t.offerId in env.offers && t.userId in env.users && c == env.offers[t.offerId] && u == env.users[t.userId]
  }

  lemma PeelConcluding(order: seq<Check>, env: Env, db: Db, t: Txn)
    requires order == [NotUsed, OwnerAuthorized, OptedIn, RewardDue]
    ensures FirstFailing(order, env, db, t) ==
            if !Holds(NotUsed, env, db, t) then Some(NotUsed)
            else if !Holds(OwnerAuthorized, env, db, t) then Some(OwnerAuthorized)
            else if !Holds(OptedIn, env, db, t) then Some(OptedIn)
            else if !Holds(RewardDue, env, db, t) then Some(RewardDue)
            else None
  {
    assert order == [NotUsed, OwnerAuthorized, OptedIn] + [RewardDue];
    PeelThree(NotUsed, OwnerAuthorized, OptedIn, [RewardDue], env, db, t);
    assert [RewardDue] == [RewardDue] + [];
    Peel(RewardDue, [], env, db, t);
  }

  lemma ConcludingStatus(order: seq<Check>, env: Env, db: Db, t: Txn, c: Criteria, u: User, p: Product)
    requires order == [NotUsed, OwnerAuthorized, OptedIn, RewardDue]
    requires Known(env, t, c, u) && ProductUsed(u, t) == Some(p)
    ensures StatusOf(FirstFailing(order, env, db, t), env, t) == Some(RewardStatus(db, t, c, u, p))
  {
    PeelConcluding(order, env, db, t);
    OwnerColumns(env, db, t, c, u, p);
    RewardIsDue(c, t);
  }

  lemma OwnerColumns(env: Env, db: Db, t: Txn, c: Criteria, u: User, p: Product)
    requires Known(env, t, c, u) && ProductUsed(u, t) == Some(p)
    ensures Holds(OwnerAuthorized, env, db, t) <==>
            c.basedOn == ProductOwnershipBased ==>
              exists m: nat :: FirstListed(c.eligibleProducts, p.code, m)
                               && p.ownership in c.eligibleProducts[m].redeemable
  {
    ProductUsedIffHeld(u, t);
    EligibleIsListed(c, p.code);
    forall m: nat | FirstListed(c.eligibleProducts, p.code, m) ensures EligibleFor(c, p.code) == Some(c.eligibleProducts[m]) {
      ListedIsEligible(c, p.code, m);
    }
  }

  lemma LinkColumns(env: Env, db: Db, t: Txn, c: Criteria, u: User, p: Product)
    requires Known(env, t, c, u) && ProductUsed(u, t) == Some(p)
    ensures LinksThroughPrimary(c, p) <==> LinkOfPrimary(c, p)
    ensures Holds(LinkDecidable, env, db, t) <==>
            !(c.requiresLinking && c.basedOn == ProductOwnershipBased && p.ownership == AuthorizedUser
              && forall e :: e in c.eligibleProducts ==> e.code != p.code)
  {
    EligibleIsListed(c, p.code);
    forall m: nat | FirstListed(c.eligibleProducts, p.code, m)
      ensures EligibleFor(c, p.code) == Some(c.eligibleProducts[m]) && c.eligibleProducts[m] in c.eligibleProducts
    {
      ListedIsEligible(c, p.code, m);
    }
  }

  lemma LedgerColumns(env: Env, db: Db, t: Txn, c: Criteria, u: User, p: Product)
    requires Known(env, t, c, u) && ProductUsed(u, t) == Some(p)
    ensures Holds(Targeted, env, db, t) <==>
            !(c.requiresTargeting && c.basedOn != PreLoadedOptInFile
              && !(env.targetingAnswers && TargetedOnDay(env.ledger, t.userId, t.offerId, t.date)))
    ensures Holds(Linked, env, db, t) <==>
            !(c.requiresLinking
              && !(env.linkingAnswers
                   && if LinkOfPrimary(c, p)
                      then p.primaryAccount.Some? && LinkedOnDay(env.ledger, p.primaryAccount.value, t.offerId, t.date)
                      else LinkedOnDay(env.ledger, t.userId, t.offerId, t.date)))
  {
    LinkColumns(env, db, t, c, u, p);
    OnDayIsOnLedger(env, t.userId, t.offerId, t.date);
    if p.primaryAccount.Some? { OnDayIsOnLedger(env, p.primaryAccount.value, t.offerId, t.date); }
  }

  lemma LimitColumns(env: Env, db: Db, t: Txn, c: Criteria, u: User)
    requires Known(env, t, c, u)
    ensures Holds(UnderLimit, env, db, t) <==>
            !(c.redemptionLimit != 0
              && |set i: nat | i < |db.rebates| && db.rebates[i].userId == t.userId && db.rebates[i].offerId == t.offerId
                               && (c.limitType == PerCard ==> db.rebates[i].card == t.card)| >= c.redemptionLimit)
  {
    RedeemedIsSize(db.rebates, t.userId, t.offerId, LimitCard(c, t));
    var card := LimitCard(c, t);
    assert (set i: nat | i < |db.rebates| && db.rebates[i].userId == t.userId && db.rebates[i].offerId == t.offerId
                         && (card.Some? ==> db.rebates[i].card == card.value)) ==
           (set i: nat | i < |db.rebates| && db.rebates[i].userId == t.userId && db.rebates[i].offerId == t.offerId
                         && (c.limitType == PerCard ==> db.rebates[i].card == t.card));
  }

  lemma PeelProduct(order: seq<Check>, last: seq<Check>, env: Env, db: Db, t: Txn)
    requires order == [NotBlocked, Targeted, LinkDecidable, Linked, UnderLimit] + last
    ensures FirstFailing(order, env, db, t) ==
            if !Holds(NotBlocked, env, db, t) then Some(NotBlocked)
            else if !Holds(Targeted, env, db, t) then Some(Targeted)
            else if !Holds(LinkDecidable, env, db, t) then Some(LinkDecidable)
            else if !Holds(Linked, env, db, t) then Some(Linked)
            else if !Holds(UnderLimit, env, db, t) then Some(UnderLimit)
            else FirstFailing(last, env, db, t)
  {
    var fromLinked := [Linked, UnderLimit] + last;
    assert order == [NotBlocked, Targeted, LinkDecidable] + fromLinked;
    PeelThree(NotBlocked, Targeted, LinkDecidable, fromLinked, env, db, t);
    assert fromLinked == [Linked] + ([UnderLimit] + last);
    Peel(Linked, [UnderLimit] + last, env, db, t);
    Peel(UnderLimit, last, env, db, t);
  }

  lemma ProductColumns(
      order: seq<Check>, last: seq<Check>, env: Env, db: Db, t: Txn, c: Criteria, u: User, p: Product)
    requires last == [NotUsed, OwnerAuthorized, OptedIn, RewardDue]
    requires order == [NotBlocked, Targeted, LinkDecidable, Linked, UnderLimit] + last
    requires Known(env, t, c, u) && ProductUsed(u, t) == Some(p)
    ensures StatusOf(FirstFailing(order, env, db, t), env, t) == ProductStatus(env, db, t, c, u, p)
  {
    PeelProduct(order, last, env, db, t);
    LinkColumns(env, db, t, c, u, p);
    LedgerColumns(env, db, t, c, u, p);
    LimitColumns(env, db, t, c, u);
    ConcludingStatus(last, env, db, t, c, u, p);
  }

  lemma PeelClient(order: seq<Check>, rest: seq<Check>, env: Env, db: Db, t: Txn)
    requires order == [OfferExists, ClientExists, InRedemptionPeriod, NotBlacklisted, CardTypeKnown, HoldsProduct] + rest
    ensures FirstFailing(order, env, db, t) ==
            if !Holds(OfferExists, env, db, t) then Some(OfferExists)
            else if !Holds(ClientExists, env, db, t) then Some(ClientExists)
            else if !Holds(InRedemptionPeriod, env, db, t) then Some(InRedemptionPeriod)
            else if !Holds(NotBlacklisted, env, db, t) then Some(NotBlacklisted)
            else if !Holds(CardTypeKnown, env, db, t) then Some(CardTypeKnown)
            else if !Holds(HoldsProduct, env, db, t) then Some(HoldsProduct)
            else FirstFailing(rest, env, db, t)
  {
    var fromBlacklist := [NotBlacklisted, CardTypeKnown, HoldsProduct] + rest;
    assert order == [OfferExists, ClientExists, InRedemptionPeriod] + fromBlacklist;
    PeelThree(OfferExists, ClientExists, InRedemptionPeriod, fromBlacklist, env, db, t);
    PeelThree(NotBlacklisted, CardTypeKnown, HoldsProduct, rest, env, db, t);
  }

  lemma OneFirst(products: seq<Product>, t: Txn, m: nat, k: nat)
    requires FirstHeld(products, t, m) && FirstHeld(products, t, k)
    ensures m == k
  {
  }

  lemma HeldStatus(env: Env, db: Db, t: Txn, c: Criteria, u: User, products: seq<Product>, m: nat)
    requires FirstHeld(products, t, m)
    ensures HoldingStatus(env, db, t, c, u, products) == ProductStatus(env, db, t, c, u, products[m])
  {
    forall k: nat | FirstHeld(products, t, k) ensures k == m {
      OneFirst(products, t, m, k);
    }
  }

  lemma HoldingColumns(rest: seq<Check>, last: seq<Check>, env: Env, db: Db, t: Txn, c: Criteria, u: User)
    requires last == [NotUsed, OwnerAuthorized, OptedIn, RewardDue]
    requires rest == [NotBlocked, Targeted, LinkDecidable, Linked, UnderLimit] + last
    requires Known(env, t, c, u)
    requires c.hasBeenActivated && c.isRedeemable && c.validFrom <= t.date <= c.validTo && !u.isBlacklisted
    requires t.cardType != OtherCard
    ensures ClientStatus(env, db, t, c, u) ==
            if Holds(HoldsProduct, env, db, t) then StatusOf(FirstFailing(rest, env, db, t), env, t)
            else Some(UserProductForOfferNotFound)
  {
    var products := if t.cardType == CreditCard then u.creditCards else u.debitCards;
    ProductUsedIffHeld(u, t);
    if m: nat :| FirstHeld(products, t, m) {
      HeldIsUsed(u, t, products, m);
      HeldStatus(env, db, t, c, u, products, m);
      ProductColumns(rest, last, env, db, t, c, u, products[m]);
    } else if ProductUsed(u, t).Some? {
      UsedIsHeld(u, t, products);
    }
  }

  /** The first failing check in the fixed order gives the status that is read off the columns. */
  lemma WaterfallColumns(order: seq<Check>, env: Env, db: Db, t: Txn)
    requires order == WATERFALL
    ensures StatusOf(FirstFailing(order, env, db, t), env, t) == QualifyingStatus(env, db, t)
  {
    var last := [NotUsed, OwnerAuthorized, OptedIn, RewardDue];
    var rest := [NotBlocked, Targeted, LinkDecidable, Linked, UnderLimit] + last;
    assert order == [OfferExists, ClientExists, InRedemptionPeriod, NotBlacklisted, CardTypeKnown, HoldsProduct] + rest;
    PeelClient(order, rest, env, db, t);
    if t.offerId in env.offers && t.userId in env.users {
      var c, u := env.offers[t.offerId], env.users[t.userId];
      if c.hasBeenActivated && c.isRedeemable && c.validFrom <= t.date <= c.validTo && !u.isBlacklisted
         && t.cardType != OtherCard {
        HoldingColumns(rest, last, env, db, t, c, u);
      }
    }
  }

  /** No check refuses exactly if the status is RebateCreated. */
  lemma CreatedIff(env: Env, db: Db, t: Txn)
    ensures FirstFailing(WATERFALL, env, db, t).None? <==> QualifyingStatus(env, db, t) == Some(RebateCreated)
  {
    WaterfallColumns(WATERFALL, env, db, t);
  }

  // ---- Fulfilments and refunds ----

  lemma PeelStatus(order: seq<Status>, rest: seq<Status>, p: Status -> bool)
    requires order != []
    ensures FirstOf(order + rest, p) == if p(order[0]) then Some(order[0]) else FirstOf(order[1..] + rest, p)
  {
    assert (order + rest)[1..] == order[1..] + rest;
  }

  lemma PeelFour(order: seq<Status>, rest: seq<Status>, p: Status -> bool)
    requires |order| == 4
    ensures FirstOf(order + rest, p) ==
            if p(order[0]) then Some(order[0]) else if p(order[1]) then Some(order[1])
            else if p(order[2]) then Some(order[2]) else if p(order[3]) then Some(order[3])
            else FirstOf(rest, p)
  {
    PeelStatus(order, rest, p);
    PeelStatus(order[1..], rest, p);
    PeelStatus(order[2..], rest, p);
    PeelStatus(order[3..], rest, p);
    assert order[4..] + rest == rest;
  }

  lemma FulfilmentChain(order: seq<Status>, last: seq<Status>, env: Env, db: Db, t: Txn)
    requires last == [FulfilledTransHasDiffAccount, FulfilledTransHasWrongAmount, RebateNotPending, FulfilledTransSuccessful]
    requires order == [RebateIdNotFound, FulfilledTransUsedAlready, CannotFindClient, RebateNotFound] + last
    ensures FulfilmentVerdict(order, env, db, t) ==
            if FulfilmentApplies(RebateIdNotFound, env, db, t) then Some(RebateIdNotFound)
            else if FulfilmentApplies(FulfilledTransUsedAlready, env, db, t) then Some(FulfilledTransUsedAlready)
            else if FulfilmentApplies(CannotFindClient, env, db, t) then Some(CannotFindClient)
            else if FulfilmentApplies(RebateNotFound, env, db, t) then Some(RebateNotFound)
            else FulfilmentVerdict(last, env, db, t)
  {
    PeelFour([RebateIdNotFound, FulfilledTransUsedAlready, CannotFindClient, RebateNotFound], last,
             (s: Status) => FulfilmentApplies(s, env, db, t));
  }

  lemma RebateChain(order: seq<Status>, env: Env, db: Db, t: Txn)
    requires order == [FulfilledTransHasDiffAccount, FulfilledTransHasWrongAmount, RebateNotPending, FulfilledTransSuccessful]
    ensures FulfilmentVerdict(order, env, db, t) == Some(
              if FulfilmentApplies(FulfilledTransHasDiffAccount, env, db, t) then FulfilledTransHasDiffAccount
              else if FulfilmentApplies(FulfilledTransHasWrongAmount, env, db, t) then FulfilledTransHasWrongAmount
              else if FulfilmentApplies(RebateNotPending, env, db, t) then RebateNotPending
              else FulfilledTransSuccessful)
  {
    assert order == order + [];
    PeelFour(order, [], (s: Status) => FulfilmentApplies(s, env, db, t));
  }

  lemma NamedInPlace(db: Db, t: Txn)
    requires Numbered(db)
    ensures NamedRebate(db, t) ==
            if t.rebateId.Some? && t.rebateId.value < |db.rebates| then Some(db.rebates[t.rebateId.value]) else None
  {
    if t.rebateId.Some? { FoundInPlace(db.rebates, t.rebateId.value); }
  }

  lemma FulfilmentInOrder(order: seq<Status>, last: seq<Status>, env: Env, db: Db, t: Txn)
    requires last == [FulfilledTransHasDiffAccount, FulfilledTransHasWrongAmount, RebateNotPending, FulfilledTransSuccessful]
    requires order == [RebateIdNotFound, FulfilledTransUsedAlready, CannotFindClient, RebateNotFound] + last
    requires Numbered(db)
    ensures FulfilmentVerdict(order, env, db, t) == Some(FulfilmentStatus(env, db, t))
  {
    FulfilmentChain(order, last, env, db, t);
    RebateChain(last, env, db, t);
    NamedInPlace(db, t);
  }

  /** So do the ordered states of a fulfilment. */
  lemma FulfilmentColumns(order: seq<Status>, env: Env, db: Db, t: Txn)
    requires Numbered(db) && order == FULFILMENT_ORDER
    ensures FulfilmentVerdict(order, env, db, t) == Some(FulfilmentStatus(env, db, t))
  {
    var last := [FulfilledTransHasDiffAccount, FulfilledTransHasWrongAmount, RebateNotPending, FulfilledTransSuccessful];
    assert order == [RebateIdNotFound, FulfilledTransUsedAlready, CannotFindClient, RebateNotFound] + last;
    FulfilmentInOrder(order, last, env, db, t);
  }

  lemma NoneRedeemed(s: seq<Rebate>, u: UserId, o: OfferId)
    ensures Redeemed(s, u, o, None) == 0 <==> forall i :: 0 <= i < |s| ==> s[i].userId != u || s[i].offerId != o
  {
    var at := Places(s, u, o, None);
    RedeemedIsPlaces(s, u, o, None);
    if at == {} {
      assert forall i: nat :: i < |s| ==> i !in at;
    } else {
      var i :| i in at;
    }
  }

  lemma RefundChain(order: seq<Status>, env: Env, db: Db, t: Txn)
    requires order == REFUND_ORDER
    ensures FirstOf(order, (s: Status) => RefundApplies(s, env, db, t)) ==
            if RefundApplies(OfferNotFound, env, db, t) then Some(OfferNotFound)
            else if RefundApplies(RebateNotFound, env, db, t) then Some(RebateNotFound)
            else if RefundApplies(RefundNotTrackedForReporting, env, db, t) then Some(RefundNotTrackedForReporting)
            else if RefundApplies(RefundTrackedForReporting, env, db, t) then Some(RefundTrackedForReporting)
            else None
  {
    assert order == order + [];
    PeelFour(order, [], (s: Status) => RefundApplies(s, env, db, t));
  }

  /** And those of a refund. */
  lemma RefundColumns(env: Env, db: Db, t: Txn)
    ensures RefundVerdict(env, db, t) == Some(RefundStatus(env, db, t))
  {
    RefundChain(REFUND_ORDER, env, db, t);
    NoneRedeemed(db.rebates, t.userId, t.offerId);
  }
}
