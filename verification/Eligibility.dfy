/** What the three kinds of transaction are checked against, as independent conditions in a fixed order. */
module Eligibility {
  import opened Domain
  import opened Store
  import Ledger
  import Reward

  datatype EligibleProduct = EligibleProduct(
    code: ProductCode, redeemable: seq<OwnershipType>, presentable: seq<OwnershipType>)

  datatype Criteria = Criteria(
    isRedeemable: bool, hasBeenActivated: bool, validFrom: Instant, validTo: Instant, refundPeriodInDays: int,
    requiresLinking: bool, requiresTargeting: bool, redemptionLimit: int, limitType: LimitType,
    reward: Reward.Calculation, eligibleProducts: seq<EligibleProduct>, basedOn: OfferType)

  datatype Product = Product(
    code: ProductCode, accountId: AccountId, ownership: OwnershipType, eligible: bool, primaryAccount: Option<UserId>)

  datatype OptIn = OptIn(accountId: AccountId, customerId: CustomerId, offers: seq<OfferId>)

  datatype User = User(isBlacklisted: bool, creditCards: seq<Product>, debitCards: seq<Product>, optIns: seq<OptIn>)

  /**
    * Everything a batch reads but does not write. The last two tell whether the ledger lookups of the targeting and the
    * link check succeed: a lookup that fails is caught there and counts as "not on the ledger".
    */
  datatype Env = Env(
    offers: map<OfferId, Criteria>, users: map<UserId, User>, ledger: seq<Ledger.Entry>,
    targetingAnswers: bool, linkingAnswers: bool)

  // ---- First match in a fixed order ----

  function FirstOf<T>(order: seq<T>, matches: T -> bool): (r: Option<T>)
  {
    if order == [] then None else if matches(order[0]) then Some(order[0]) else FirstOf(order[1..], matches)
  }

  /** The least index that matches, or none if nothing does. */
  lemma {:induction false} FirstOfIsFirst<T>(order: seq<T>, matches: T -> bool)
    ensures match FirstOf(order, matches)
            case None => forall i :: 0 <= i < |order| ==> !matches(order[i])
            case Some(x) => exists i :: 0 <= i < |order| && order[i] == x && matches(x)
                                        && forall j :: 0 <= j < i ==> !matches(order[j])
  {
    if order != [] {
      FirstOfIsFirst(order[1..], matches);
      match FirstOf(order, matches)
      case None =>
        forall i | 0 <= i < |order| ensures !matches(order[i]) {
          if i > 0 { assert order[i] == order[1..][i - 1]; }
        }
      case Some(x) =>
        if matches(order[0]) {
          assert order[0] == x;
        } else {
          var rest := order[1..];
          var k :| 0 <= k < |rest| && rest[k] == x && matches(x) && forall j :: 0 <= j < k ==> !matches(rest[j]);
          forall j | 0 <= j < k + 1 ensures !matches(order[j]) {
            if j > 0 { assert order[j] == order[1..][j - 1]; }
          }
          assert order[k + 1] == x;
        }
    }
  }

  lemma FirstOfMember<T>(order: seq<T>, matches: T -> bool)
    ensures FirstOf(order, matches).None? <==> forall x :: x in order ==> !matches(x)
    ensures FirstOf(order, matches).Some? ==> FirstOf(order, matches).value in order && matches(FirstOf(order, matches).value)
  {
    FirstOfIsFirst(order, matches);
  }

  lemma {:induction false} FirstOfSkips<T>(first: seq<T>, rest: seq<T>, matches: T -> bool)
    ensures FirstOf(first + rest, matches) ==
            if FirstOf(first, matches).Some? then FirstOf(first, matches) else FirstOf(rest, matches)
  {
    if first == [] {
      assert first + rest == rest;
    } else {
      assert (first + rest)[1..] == first[1..] + rest;
      FirstOfSkips(first[1..], rest, matches);
    }
  }

  lemma {:induction false} FirstOfSame<T>(order: seq<T>, p: T -> bool, q: T -> bool)
    requires forall x :: x in order ==> p(x) == q(x)
    ensures FirstOf(order, p) == FirstOf(order, q)
  {
    if order != [] {
      assert order[0] in order;
      FirstOfSame(order[1..], p, q);
    }
  }

  /** It stands at a place in the order where it applies, and nothing before that place does. */
  ghost predicate Foremost<T(!new)>(order: seq<T>, applies: T -> bool, x: T) {
    exists i :: 0 <= i < |order| && order[i] == x && applies(x) && forall j :: 0 <= j < i ==> !applies(order[j])
  }

  lemma FirstOfIffForemost<T(!new)>(order: seq<T>, applies: T -> bool, x: T)
    ensures FirstOf(order, applies) == Some(x) <==> Foremost(order, applies, x)
  {
    FirstOfIsFirst(order, applies);
    if Foremost(order, applies, x) {
      var i :| 0 <= i < |order| && order[i] == x && applies(x) && forall j :: 0 <= j < i ==> !applies(order[j]);
      var y := FirstOf(order, applies).value;
      var k :| 0 <= k < |order| && order[k] == y && applies(y) && forall j :: 0 <= j < k ==> !applies(order[j]);
      assert !(i < k) && !(k < i);
    }
  }

  // ---- Qualifying transactions ----

  datatype Check =
    | OfferExists | ClientExists | InRedemptionPeriod | NotBlacklisted | CardTypeKnown | HoldsProduct | NotBlocked
    | Targeted | LinkDecidable | Linked | UnderLimit | NotUsed | OwnerAuthorized | OptedIn | RewardDue

  const SCREENING: seq<Check> :=
    [OfferExists, ClientExists, InRedemptionPeriod, NotBlacklisted, CardTypeKnown, HoldsProduct, NotBlocked,
     Targeted, LinkDecidable, Linked, UnderLimit]
  const CONCLUDING: seq<Check> := [NotUsed, OwnerAuthorized, OptedIn, RewardDue]

  function Products(u: User, t: Txn): seq<Product> {
    if t.cardType == CreditCard then u.creditCards else u.debitCards
  }

  predicate IsProductOf(p: Product, t: Txn) {
    p.code == t.productCode && p.accountId == t.accountId
  }

  function ProductUsed(u: User, t: Txn): Option<Product> {
    FirstOf(Products(u, t), (p: Product) => IsProductOf(p, t))
  }

  function EligibleFor(c: Criteria, code: ProductCode): Option<EligibleProduct> {
    FirstOf(c.eligibleProducts, (e: EligibleProduct) => e.code == code)
  }

  predicate Active(c: Criteria, d: Instant, until: Instant) {
    c.hasBeenActivated && c.isRedeemable && c.validFrom <= d <= until
  }

  predicate OnLedger(env: Env, user: UserId, offer: OfferId, d: Instant, linked: bool) {
    (if linked then env.linkingAnswers else env.targetingAnswers)
    && match Ledger.StateAt(env.ledger, user, d)
       case None => false
       case Some(info) => offer in (if linked then info.linked else info.targeted)
  }

  predicate AuthorizedUserOffer(c: Criteria, p: Product) {
    c.basedOn == ProductOwnershipBased && p.ownership == AuthorizedUser
  }

  /** An authorised user may redeem the offer, but only the primary account holder is shown it. */
  predicate LinksThroughPrimary(c: Criteria, p: Product) {
    AuthorizedUserOffer(c, p)
    && match EligibleFor(c, p.code)
       case None => false
       case Some(e) => AuthorizedUser in e.redeemable && Primary in e.presentable && AuthorizedUser !in e.presentable
  }

  predicate LinkedAt(env: Env, c: Criteria, p: Product, t: Txn) {
    if LinksThroughPrimary(c, p)
    then p.primaryAccount.Some? && OnLedger(env, p.primaryAccount.value, t.offerId, t.date, true)
    else OnLedger(env, t.userId, t.offerId, t.date, true)
  }

  predicate OwnershipAllowed(c: Criteria, p: Product, t: Txn) {
    c.basedOn == ProductOwnershipBased ==>
      match EligibleFor(c, p.code)
      case None => false
      case Some(e) => t.accountId == p.accountId && p.ownership in e.redeemable
  }

  predicate InOptInFile(c: Criteria, u: User, t: Txn) {
    c.basedOn == PreLoadedOptInFile ==>
      exists r :: r in u.optIns && OptInMatches(r, t)
  }

  predicate OptInMatches(r: OptIn, t: Txn) {
    t.offerId in r.offers && r.accountId == t.accountId && (t.cardType == CreditCard ==> r.customerId == t.customerId)
  }

  function LimitCard(c: Criteria, t: Txn): Option<CardNo> {
    if c.limitType == PerCard then Some(t.card) else None
  }

  function RewardOf(c: Criteria, t: Txn): Reward.Decimal {
    Reward.Calculate(c.reward, t.amount, t.basePoints)
  }

  /** Each check on its own; one that needs a missing offer, client or product fails. */
  predicate Holds(check: Check, env: Env, db: Db, t: Txn) {
    if check == OfferExists then t.offerId in env.offers
    else if check == ClientExists then t.userId in env.users
    else if check == CardTypeKnown then t.cardType != OtherCard
    else if check == NotUsed then !HasSource(db.rebates, t.txnId)
    else if t.offerId !in env.offers || t.userId !in env.users then false
    else HoldsFor(check, env, db, t, env.offers[t.offerId], env.users[t.userId])
  }

  predicate HoldsFor(check: Check, env: Env, db: Db, t: Txn, c: Criteria, u: User) {
    match check
    case InRedemptionPeriod => Active(c, t.date, c.validTo)
    case NotBlacklisted => !u.isBlacklisted
    case HoldsProduct => exists p :: p in Products(u, t) && IsProductOf(p, t)
    case UnderLimit =>
      c.redemptionLimit == 0 || Redeemed(db.rebates, t.userId, t.offerId, LimitCard(c, t)) < c.redemptionLimit
    case Targeted =>
      !c.requiresTargeting || c.basedOn == PreLoadedOptInFile || OnLedger(env, t.userId, t.offerId, t.date, false)
    case OptedIn => InOptInFile(c, u, t)
    case RewardDue => RewardOf(c, t).coef != 0
    case _ => ProductUsed(u, t).Some? && HoldsForProduct(check, env, t, c, ProductUsed(u, t).value)
  }

  predicate HoldsForProduct(check: Check, env: Env, t: Txn, c: Criteria, p: Product) {
    match check
    case NotBlocked => p.eligible
    case LinkDecidable => c.requiresLinking && AuthorizedUserOffer(c, p) ==> EligibleFor(c, p.code).Some?
    case Linked => c.requiresLinking ==> LinkedAt(env, c, p, t)
    case OwnerAuthorized => OwnershipAllowed(c, p, t)
    case _ => false
  }

  /** The status stored when a check fails; none where the source throws and leaves the row pending. */
  function StatusFor(check: Check, env: Env, t: Txn): Option<Status> {
    match check
    case OfferExists => Some(OfferNotFound)
    case ClientExists => Some(CannotFindClient)
    case InRedemptionPeriod => Some(OfferNotWithinRedemptionPeriod)
    case NotBlacklisted => Some(ClientBlacklisted)
    case CardTypeKnown => None
    case HoldsProduct => Some(UserProductForOfferNotFound)
    case NotBlocked => Some(ProductHasBlockCode)
    case Targeted => Some(ClientIsNotTargeted)
    case LinkDecidable => None
    case Linked => Some(ClientIsNotLinked)
    case UnderLimit =>
      if t.offerId in env.offers && env.offers[t.offerId].limitType == PerCard
      then Some(ClientReachedCardRedLimit) else Some(ClientReachedOverallRedLimit)
    case NotUsed => Some(QualifiedTransUsedAlready)
    case OwnerAuthorized =>
      if t.cardType == CreditCard then Some(CreditCardOwnerNotAuthorized) else Some(DebitCardOwnerNotAuthorized)
    case OptedIn => Some(ClientNotInOptInFile)
    case RewardDue => Some(RebateNotDue)
  }

  function FirstFailing(checks: seq<Check>, env: Env, db: Db, t: Txn): Option<Check> {
    FirstOf(checks, (c: Check) => !Holds(c, env, db, t))
  }

  // ---- Fulfilments ----

  /** Looked at before the rebate is read, and after it. */
  const FIRST_LOOK: seq<Status> := [RebateIdNotFound, FulfilledTransUsedAlready]
  const SECOND_LOOK: seq<Status> :=
    [CannotFindClient, RebateNotFound, FulfilledTransHasDiffAccount, FulfilledTransHasWrongAmount, RebateNotPending,
     FulfilledTransSuccessful]
  const FULFILMENT_ORDER: seq<Status> := FIRST_LOOK + SECOND_LOOK

  function NamedRebate(db: Db, t: Txn): Option<Rebate> {
    if t.rebateId.None? then None else FindRebate(db.rebates, t.rebateId.value)
  }

  predicate FulfilmentApplies(s: Status, env: Env, db: Db, t: Txn) {
    var r := NamedRebate(db, t);
    match s
    case RebateIdNotFound => t.rebateId.None?
    case FulfilledTransUsedAlready => HasFulfilled(db.rebates, t.txnId)
    case CannotFindClient => t.userId !in env.users
    case RebateNotFound => r.None?
    case FulfilledTransHasDiffAccount => r.Some? && r.value.accountId != t.accountId
    case FulfilledTransHasWrongAmount => r.Some? && r.value.amount != t.amount
    case RebateNotPending => r.Some? && r.value.status != PendingFulfillment
    case FulfilledTransSuccessful => true
    case _ => false
  }

  function FulfilmentVerdict(order: seq<Status>, env: Env, db: Db, t: Txn): Option<Status> {
    FirstOf(order, (s: Status) => FulfilmentApplies(s, env, db, t))
  }

  // ---- Refunds ----

  const REFUND_ORDER: seq<Status> :=
    [OfferNotFound, RebateNotFound, RefundNotTrackedForReporting, RefundTrackedForReporting]

  predicate Tracking(c: Criteria, t: Txn) {
    Active(c, t.date, c.validTo + c.refundPeriodInDays * DAY)
  }

  predicate RefundApplies(s: Status, env: Env, db: Db, t: Txn) {
    var found := t.offerId in env.offers;
    match s
    case OfferNotFound => !found
    case RebateNotFound => Redeemed(db.rebates, t.userId, t.offerId, None) == 0
    case RefundNotTrackedForReporting => found && !Tracking(env.offers[t.offerId], t)
    case RefundTrackedForReporting => found && Tracking(env.offers[t.offerId], t)
    case _ => false
  }

  function RefundVerdict(env: Env, db: Db, t: Txn): Option<Status> {
    FirstOf(REFUND_ORDER, (s: Status) => RefundApplies(s, env, db, t))
  }

  // ---- Properties of the checks themselves ----

  /** Every refund gets the first applicable of the four statuses; none is left undetermined. */
  lemma RefundVerdictTotal(env: Env, db: Db, t: Txn)
    ensures RefundVerdict(env, db, t).Some?
    ensures var s := RefundVerdict(env, db, t).value;
            s in REFUND_ORDER && RefundApplies(s, env, db, t)
            && (s != OfferNotFound ==> t.offerId in env.offers)
            && (s in [RefundNotTrackedForReporting, RefundTrackedForReporting]
                ==> Redeemed(db.rebates, t.userId, t.offerId, None) > 0)
  {
    var p := (s: Status) => RefundApplies(s, env, db, t);
    FirstOfIsFirst(REFUND_ORDER, p);
    assert REFUND_ORDER[2] == RefundNotTrackedForReporting && REFUND_ORDER[3] == RefundTrackedForReporting;
    assert REFUND_ORDER[0] == OfferNotFound && REFUND_ORDER[1] == RebateNotFound;
    assert p(REFUND_ORDER[0]) || p(REFUND_ORDER[2]) || p(REFUND_ORDER[3]);
  }

  /** A payment to a known client that matches a rebate awaiting it. */
  predicate MatchesDueRebate(env: Env, db: Db, t: Txn) {
    var r := NamedRebate(db, t);
    t.userId in env.users
    && r.Some? && r.value.accountId == t.accountId && r.value.amount == t.amount && r.value.status == PendingFulfillment
  }

  lemma SecondLookTotal(env: Env, db: Db, t: Txn)
    ensures var v := FulfilmentVerdict(SECOND_LOOK, env, db, t);
            v.Some? && FulfilmentApplies(v.value, env, db, t)
            && (v.value == FulfilledTransSuccessful <==> MatchesDueRebate(env, db, t))
  {
    var p := (s: Status) => FulfilmentApplies(s, env, db, t);
    var objections := SECOND_LOOK[..5];
    assert SECOND_LOOK == objections + [FulfilledTransSuccessful];
    FirstOfSkips(objections, [FulfilledTransSuccessful], p);
    FirstOfMember(objections, p);
    FirstOfMember(SECOND_LOOK, p);
    assert FulfilledTransSuccessful in SECOND_LOOK && p(FulfilledTransSuccessful);
    assert FirstOf([FulfilledTransSuccessful], p) == Some(FulfilledTransSuccessful);
    assert objections == [CannotFindClient, RebateNotFound, FulfilledTransHasDiffAccount, FulfilledTransHasWrongAmount,
                            RebateNotPending];
    DueIffNoObjection(env, db, t, objections);
  }

  lemma DueIffNoObjection(env: Env, db: Db, t: Txn, objections: seq<Status>)
    requires objections == [CannotFindClient, RebateNotFound, FulfilledTransHasDiffAccount, FulfilledTransHasWrongAmount,
                            RebateNotPending]
    ensures MatchesDueRebate(env, db, t) <==> forall s :: s in objections ==> !FulfilmentApplies(s, env, db, t)
  {
    if forall s :: s in objections ==> !FulfilmentApplies(s, env, db, t) {
      assert CannotFindClient in objections;
      assert RebateNotFound in objections;
      assert FulfilledTransHasDiffAccount in objections;
      assert FulfilledTransHasWrongAmount in objections;
      assert RebateNotPending in objections;
    }
  }

  lemma FirstLookTotal(env: Env, db: Db, t: Txn)
    ensures var v := FulfilmentVerdict(FIRST_LOOK, env, db, t);
            (v.None? <==> t.rebateId.Some? && !HasFulfilled(db.rebates, t.txnId))
            && (v.Some? ==> v.value in FIRST_LOOK && FulfilmentApplies(v.value, env, db, t))
  {
    var p := (s: Status) => FulfilmentApplies(s, env, db, t);
    FirstOfMember(FIRST_LOOK, p);
    assert p(RebateIdNotFound) == t.rebateId.None?;
    assert p(FulfilledTransUsedAlready) == HasFulfilled(db.rebates, t.txnId);
    assert RebateIdNotFound in FIRST_LOOK && FulfilledTransUsedAlready in FIRST_LOOK;
  }

  /** Every fulfilment gets the highest-priority applicable status; success means that no objection applies. */
  lemma FulfilmentVerdictTotal(env: Env, db: Db, t: Txn)
    ensures var v := FulfilmentVerdict(FULFILMENT_ORDER, env, db, t);
            v.Some? && FulfilmentApplies(v.value, env, db, t)
            && (v.value == FulfilledTransSuccessful <==>
                t.rebateId.Some? && !HasFulfilled(db.rebates, t.txnId) && MatchesDueRebate(env, db, t))
  {
    FirstOfSkips(FIRST_LOOK, SECOND_LOOK, (s: Status) => FulfilmentApplies(s, env, db, t));
    FirstLookTotal(env, db, t);
    SecondLookTotal(env, db, t);
  }

  /** Linking checked through the primary account holder implies that the later ownership check accepts. */
  lemma PrimaryFallbackImpliesOwnership(c: Criteria, u: User, t: Txn)
    requires ProductUsed(u, t).Some? && LinksThroughPrimary(c, ProductUsed(u, t).value)
    ensures OwnershipAllowed(c, ProductUsed(u, t).value, t)
  {
    FirstOfIsFirst(Products(u, t), (p: Product) => IsProductOf(p, t));
  }

  /** A product is found exactly when the client holds one with the transaction's code and account. */
  lemma ProductUsedIffHeld(u: User, t: Txn)
    ensures ProductUsed(u, t).Some? <==> exists p :: p in Products(u, t) && IsProductOf(p, t)
    ensures ProductUsed(u, t).Some? ==> IsProductOf(ProductUsed(u, t).value, t)
  {
    FirstOfIsFirst(Products(u, t), (p: Product) => IsProductOf(p, t));
  }

  /** An offer counts as linked or targeted exactly if the lookup succeeds and the user's last upsert by then says so. */
  lemma LedgerDecidesByHistory(env: Env, history: seq<Ledger.Entry>, u: UserId, o: OfferId, d: Instant, linked: bool)
    requires Ledger.TimesIncrease(history) && env.ledger == Ledger.Compress(history)
    ensures OnLedger(env, u, o, d, linked) <==>
            (if linked then env.linkingAnswers else env.targetingAnswers)
            && match Ledger.LastUpsert(history, u, Some(Ledger.EndOfDay(d)))
               case None => false
               case Some(info) => o in if linked then info.linked else info.targeted
  {
    Ledger.StateAtAgreesWithHistory(history, u, d);
  }
}
