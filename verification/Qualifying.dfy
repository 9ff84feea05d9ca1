/** The qualifying strategy as an object: cached look-ups, checks with early returns, and the two writes. */
module Qualifying {
  import opened Domain
  import opened Store
  import opened Eligibility
  import opened RowSteps
  import opened Outcomes
  import Ledger
  import Reward

  /** A look-up or check that may throw. */
  datatype Answer = Yes | No | Thrown

  function Filter<T(!new)>(s: seq<T>, p: T -> bool): (r: seq<T>)
    ensures forall x :: x in r <==> x in s && p(x)
  {
    if s == [] then [] else (if p(s[0]) then [s[0]] else []) + Filter(s[1..], p)
  }

  /** The first match is the head of the filtered list. */
  lemma {:induction false} HeadOfFilter<T(!new)>(s: seq<T>, p: T -> bool)
    ensures FirstOf(s, p) == if Filter(s, p) == [] then None else Some(Filter(s, p)[0])
  {
    if s != [] { HeadOfFilter(s[1..], p); }
  }

  // ---- What the strategy has to come to, given where its checks stop ----

  function Refusal(k: Calls, db: Db, t: Txn, s: Option<Status>): Db {
    if s.Some? && k.mark then Mark(db, t.id, s.value) else db
  }

  lemma RefusalRuns(k: Calls, env: Env, db: Db, t: Txn, check: Check)
    requires t.kind == Qualifying
    ensures FinishUnder(k, env, db, t, Refused(check, env, t)) == Refusal(k, db, t, StatusFor(check, env, t))
  {
  }

  lemma ScreenedOut(k: Calls, env: Env, db: Db, t: Txn, i: nat)
    requires t.kind == Qualifying && k.look && i < |SCREENING| && FailsFirstAt(SCREENING, i, env, db, t)
    ensures FinishUnder(k, env, db, t, Start) == Refusal(k, db, t, StatusFor(SCREENING[i], env, t))
  {
    FirstFailingAt(SCREENING, i, env, db, t);
    UnrollUnder(k, env, db, t, Start);
    RefusalRuns(k, env, db, t, SCREENING[i]);
  }

  lemma ScreenedIn(k: Calls, env: Env, db: Db, t: Txn)
    requires t.kind == Qualifying && k.look && AllHold(SCREENING, |SCREENING|, env, db, t)
    ensures FinishUnder(k, env, db, t, Start) == FinishUnder(k, env, db, t, LimitSeen)
  {
    FirstFailingAt(SCREENING, |SCREENING|, env, db, t);
    UnrollUnder(k, env, db, t, Start);
  }

  lemma ConcludedOut(k: Calls, env: Env, db: Db, t: Txn, i: nat)
    requires t.kind == Qualifying && i < |CONCLUDING| && FailsFirstAt(CONCLUDING, i, env, db, t)
    ensures FinishUnder(k, env, db, t, Concluded(env, db, t)) == Refusal(k, db, t, StatusFor(CONCLUDING[i], env, t))
  {
    FirstFailingAt(CONCLUDING, i, env, db, t);
    RefusalRuns(k, env, db, t, CONCLUDING[i]);
  }

  /** Mark and insert: a failed mark is swallowed, so the insert follows all the same. */
  function IssuedUnder(k: Calls, db: Db, c: Criteria, t: Txn): Db {
    var marked := if k.mark then Mark(db, t.id, RebateCreated) else db;
    if k.act then InsertRebate(marked, t, Reward.StoredAmount(RewardOf(c, t), c.reward.unit), c.reward.unit) else marked
  }

  lemma ConcludedIn(k: Calls, env: Env, db: Db, t: Txn)
    requires t.kind == Qualifying && AllHold(CONCLUDING, |CONCLUDING|, env, db, t) && t.offerId in env.offers
    ensures FinishUnder(k, env, db, t, Concluded(env, db, t)) == IssuedUnder(k, db, env.offers[t.offerId], t)
  {
    FirstFailingAt(CONCLUDING, |CONCLUDING|, env, db, t);
    var c := env.offers[t.offerId];
    IssueRuns(k, env, db, t, Reward.StoredAmount(RewardOf(c, t), c.reward.unit), c.reward.unit);
  }

  lemma IssueRuns(k: Calls, env: Env, db: Db, t: Txn, amount: Cents, unit: RewardType)
    requires t.kind == Qualifying
    ensures var marked := if k.mark then Mark(db, t.id, RebateCreated) else db;
            FinishUnder(k, env, db, t, Marking(RebateCreated, Issue(amount, unit))) ==
            if k.act then InsertRebate(marked, t, amount, unit) else marked
  {
    var marked := if k.mark then Mark(db, t.id, RebateCreated) else db;
    UnrollUnder(k, env, db, t, Marking(RebateCreated, Issue(amount, unit)));
    UnrollUnder(k, env, marked, t, Acting(Issue(amount, unit)));
  }

  /** A refused row is finished; one that passes has changed nothing and still has its second half to do. */
  ghost predicate AfterScreening(k: Calls, env: Env, was: Db, now: Db, t: Txn, passed: bool) {
    if passed
    then now == was && FinishUnder(k, env, was, t, Start) == FinishUnder(k, env, was, t, LimitSeen)
    else now == FinishUnder(k, env, was, t, Start)
  }

  class QualifyingStrategy {
    const transaction: Txn
    var cachedCriteria: Option<Criteria>
    var cachedUser: Option<User>
    var cachedProduct: Option<Product>
    var cachedCalculation: Option<Reward.Decimal>

    /** What is cached is what a look-up gives. */
    ghost predicate Valid(env: Env)
      reads this
    {
      var t := transaction;
      (cachedCriteria.Some? ==> t.offerId in env.offers && cachedCriteria.value == env.offers[t.offerId])
      && (cachedUser.Some? ==> t.userId in env.users && cachedUser.value == env.users[t.userId])
      && (cachedProduct.Some? ==> cachedUser.Some? && cachedProduct == ProductUsed(cachedUser.value, t))
      && (cachedCalculation.Some? ==> cachedCriteria.Some? && cachedCalculation.value == RewardOf(cachedCriteria.value, t))
    }

    constructor (t: Txn)
      ensures transaction == t
      ensures cachedCriteria.None? && cachedUser.None? && cachedProduct.None? && cachedCalculation.None?
    {
      transaction := t;
      cachedCriteria, cachedUser, cachedProduct, cachedCalculation := None, None, None, None;
    }

    method FindCriteria(env: Env) returns (found: bool)
      requires Valid(env)
      modifies this`cachedCriteria
      ensures Valid(env) && found == (transaction.offerId in env.offers) && (found ==> cachedCriteria.Some?)
    {
      found := transaction.offerId in env.offers;
      if found { cachedCriteria := Some(env.offers[transaction.offerId]); }
    }

    method FindUser(env: Env) returns (found: bool)
      requires Valid(env)
      modifies this`cachedUser
      ensures Valid(env) && found == (transaction.userId in env.users) && (found ==> cachedUser.Some?)
    {
      found := transaction.userId in env.users;
      if found { cachedUser := Some(env.users[transaction.userId]); }
    }

    /** The first of the client's products of the card's type with the transaction's code and account. */
    method FindProduct(env: Env) returns (found: Answer)
      requires Valid(env) && cachedUser.Some?
      modifies this`cachedProduct
      ensures Valid(env)
      ensures found.Thrown? <==> transaction.cardType == OtherCard
      ensures found.Yes? ==> cachedProduct.Some?
      ensures !found.Thrown? ==>
                (found.Yes? <==> exists p :: p in Products(cachedUser.value, transaction) && IsProductOf(p, transaction))
    {
      var products;
      if transaction.cardType == CreditCard {
        products := cachedUser.value.creditCards;
      } else if transaction.cardType == CheckingAccount {
        products := cachedUser.value.debitCards;
      } else {
        return Thrown;
      }
      var matching := Filter(products, (p: Product) => IsProductOf(p, transaction));
      HeadOfFilter(products, (p: Product) => IsProductOf(p, transaction));
      if matching == [] {
        return No;
      }
      assert matching[0] in matching;
      cachedProduct := Some(matching[0]);
      found := Yes;
    }

    method Calculation(env: Env) returns (amount: Reward.Decimal)
      requires Valid(env) && cachedCriteria.Some?
      modifies this`cachedCalculation
      ensures Valid(env) && amount == RewardOf(cachedCriteria.value, transaction)
    {
      if cachedCalculation.None? {
        cachedCalculation := Some(Reward.Calculate(cachedCriteria.value.reward, transaction.amount, transaction.basePoints));
      }
      amount := cachedCalculation.value;
    }

    /** A failed update is logged and swallowed. */
    method MarkAsProcessed(db: Database, status: Status, ok: bool)
      modifies db
      ensures db.State() == if ok then Mark(old(db.State()), transaction.id, status) else old(db.State())
    {
      if ok {
        db.UpdateTransaction(Processed(transaction.id, status));
      }
    }

    method IssueRebate(env: Env, db: Database, k: Calls)
      requires Valid(env) && cachedCriteria.Some?
      modifies db, this`cachedCalculation
      ensures db.State() == IssuedUnder(k, old(db.State()), cachedCriteria.value, transaction)
    {
      var amount := Calculation(env);
      var rewardType := cachedCriteria.value.reward.unit;
      MarkAsProcessed(db, RebateCreated, k.mark);
      if k.act {
        db.InsertRebateRow(transaction, Reward.StoredAmount(amount, rewardType), rewardType);
      }
    }

    /** Thrown where the eligible products lack the authorised user's product; a failed lookup is caught and refuses. */
    method LinkingAccepts(env: Env) returns (accepted: Answer)
      requires Valid(env) && cachedCriteria.Some? && cachedProduct.Some?
      ensures accepted.Thrown? <==>
                !HoldsForProduct(LinkDecidable, env, transaction, cachedCriteria.value, cachedProduct.value)
      ensures !accepted.Thrown? ==>
                (accepted.Yes? <==> HoldsForProduct(Linked, env, transaction, cachedCriteria.value, cachedProduct.value))
    {
      var criteria, product := cachedCriteria.value, cachedProduct.value;
      if !criteria.requiresLinking {
        return Yes;
      }
      var userId := transaction.userId;
      var primary := ShouldCheckLinkingToPrimary(product, criteria);
      if primary.Thrown? {
        return Thrown;
      }
      if primary.Yes? {
        if product.primaryAccount.None? {
          return No;
        }
        userId := product.primaryAccount.value;
      }
      if !env.linkingAnswers {
        return No;
      }
      var state := Ledger.StateAt(env.ledger, userId, transaction.date);
      accepted := if state.Some? && transaction.offerId in state.value.linked then Yes else No;
    }

    /** A lookup that fails is caught and refuses the row. */
    method TargetingAccepts(env: Env) returns (accepted: bool)
      requires cachedCriteria.Some?
      ensures accepted == (!cachedCriteria.value.requiresTargeting || cachedCriteria.value.basedOn == PreLoadedOptInFile
                           || OnLedger(env, transaction.userId, transaction.offerId, transaction.date, false))
    {
      var criteria := cachedCriteria.value;
      if !criteria.requiresTargeting || criteria.basedOn == PreLoadedOptInFile {
        return true;
      }
      if !env.targetingAnswers {
        return false;
      }
      var state := Ledger.StateAt(env.ledger, transaction.userId, transaction.date);
      accepted := state.Some? && transaction.offerId in state.value.targeted;
    }

    /** The search stops at the first eligible product of the code, if the accounts agree. */
    method OwnershipAccepts() returns (accepted: bool)
      requires cachedCriteria.Some? && cachedProduct.Some?
      ensures accepted == OwnershipAllowed(cachedCriteria.value, cachedProduct.value, transaction)
    {
      var criteria, product := cachedCriteria.value, cachedProduct.value;
      if criteria.basedOn != ProductOwnershipBased {
        return true;
      }
      var p := (e: EligibleProduct) => e.code == product.code;
      var products := criteria.eligibleProducts;
      var types: Option<seq<OwnershipType>> := None;
      for i := 0 to |products|
        invariant types.None?
        invariant transaction.accountId == product.accountId ==> FirstOf(products, p) == FirstOf(products[i..], p)
      {
        if products[i].code == product.code && transaction.accountId == product.accountId {
          types := Some(products[i].redeemable);
          break;
        }
        assert products[i..][1..] == products[i + 1..];
      }
      accepted := types.Some? && product.ownership in types.value;
    }

    /** The filter throws on an unrecognised card type, but only if there is a record to filter. */
    method OptInAccepts() returns (accepted: Answer)
      requires cachedCriteria.Some? && cachedUser.Some?
      ensures accepted.Thrown? ==> transaction.cardType == OtherCard
      ensures !accepted.Thrown? ==> (accepted.Yes? <==> InOptInFile(cachedCriteria.value, cachedUser.value, transaction))
    {
      if cachedCriteria.value.basedOn != PreLoadedOptInFile {
        return Yes;
      }
      var records := cachedUser.value.optIns;
      if transaction.cardType == OtherCard && records != [] {
        return Thrown;
      }
      var matching := Filter(records, (r: OptIn) => OptInMatches(r, transaction));
      accepted := if |matching| > 0 then Yes else No;
      if |matching| > 0 { assert matching[0] in matching; }
    }

    /** The row is refused at this check of the first half. */
    method MarkAsIneligible(ghost env: Env, db: Database, status: Status, k: Calls, ghost i: nat)
      requires transaction.kind == Qualifying && k.look && i < |SCREENING|
      requires FailsFirstAt(SCREENING, i, env, db.State(), transaction)
      requires StatusFor(SCREENING[i], env, transaction) == Some(status)
      modifies db
      ensures db.State() == FinishUnder(k, env, old(db.State()), transaction, Start)
    {
      ScreenedOut(k, env, db.State(), transaction, i);
      MarkAsProcessed(db, status, k.mark);
    }

    /** The first half: every early return before the redemption limit has been checked. */
    method Screen(env: Env, db: Database, k: Calls) returns (passed: bool)
      requires Valid(env) && transaction.kind == Qualifying
      modifies this, db
      ensures AfterScreening(k, env, old(db.State()), db.State(), transaction, passed)
      ensures passed ==> Valid(env) && cachedCriteria.Some? && cachedUser.Some? && cachedProduct.Some?
      ensures passed ==> transaction.cardType != OtherCard
    {
      ghost var was, t := db.State(), transaction;
      if !k.look {
        UnrollUnder(k, env, was, t, Start);
        return false;
      }
      var criteriaWasFound := FindCriteria(env);
      if !criteriaWasFound {
        MarkAsIneligible(env, db, OfferNotFound, k, 0);
        return false;
      }
      var userWasFound := FindUser(env);
      if !userWasFound {
        MarkAsIneligible(env, db, CannotFindClient, k, 1);
        return false;
      }
      passed := ScreenClient(env, db, k);
    }

    method ScreenClient(env: Env, db: Database, k: Calls) returns (passed: bool)
      requires Valid(env) && transaction.kind == Qualifying && k.look && cachedCriteria.Some? && cachedUser.Some?
      requires AllHold(SCREENING, 2, env, db.State(), transaction)
      modifies this`cachedProduct, db
      ensures AfterScreening(k, env, old(db.State()), db.State(), transaction, passed)
      ensures passed ==> Valid(env) && cachedProduct.Some? && transaction.cardType != OtherCard
    {
      ghost var was, t := db.State(), transaction;
      var criteria := cachedCriteria.value;
      if !Active(criteria, transaction.date, criteria.validTo) {
        MarkAsIneligible(env, db, OfferNotWithinRedemptionPeriod, k, 2);
        return false;
      }
      if cachedUser.value.isBlacklisted {
        MarkAsIneligible(env, db, ClientBlacklisted, k, 3);
        return false;
      }
      passed := ScreenHolding(env, db, k);
    }

    method ScreenHolding(env: Env, db: Database, k: Calls) returns (passed: bool)
      requires Valid(env) && transaction.kind == Qualifying && k.look && cachedCriteria.Some? && cachedUser.Some?
      requires AllHold(SCREENING, 4, env, db.State(), transaction)
      modifies this`cachedProduct, db
      ensures AfterScreening(k, env, old(db.State()), db.State(), transaction, passed)
      ensures passed ==> Valid(env) && cachedProduct.Some? && transaction.cardType != OtherCard
    {
      ghost var was, t := db.State(), transaction;
      var productWasFound := FindProduct(env);
      if productWasFound.Thrown? {
        ScreenedOut(k, env, was, t, 4);
        return false;
      }
      if productWasFound.No? {
        MarkAsIneligible(env, db, UserProductForOfferNotFound, k, 5);
        return false;
      }
      passed := ScreenProduct(env, db, k);
    }

    method ScreenProduct(env: Env, db: Database, k: Calls) returns (passed: bool)
      requires Valid(env) && transaction.kind == Qualifying && k.look
      requires cachedCriteria.Some? && cachedUser.Some? && cachedProduct.Some?
      requires AllHold(SCREENING, 6, env, db.State(), transaction)
      modifies db
      ensures AfterScreening(k, env, old(db.State()), db.State(), transaction, passed)
    {
      ghost var was, t := db.State(), transaction;
      var criteria, product := cachedCriteria.value, cachedProduct.value;
      if !product.eligible {
        MarkAsIneligible(env, db, ProductHasBlockCode, k, 6);
        return false;
      }
      var targeted := TargetingAccepts(env);
      if !targeted {
        MarkAsIneligible(env, db, ClientIsNotTargeted, k, 7);
        return false;
      }
      passed := ScreenLinking(env, db, k);
    }

    method ScreenLinking(env: Env, db: Database, k: Calls) returns (passed: bool)
      requires Valid(env) && transaction.kind == Qualifying && k.look
      requires cachedCriteria.Some? && cachedUser.Some? && cachedProduct.Some?
      requires AllHold(SCREENING, 8, env, db.State(), transaction)
      modifies db
      ensures AfterScreening(k, env, old(db.State()), db.State(), transaction, passed)
    {
      ghost var was, t := db.State(), transaction;
      var linked := LinkingAccepts(env);
      if linked.Thrown? {
        ScreenedOut(k, env, was, t, 8);
        return false;
      }
      if linked.No? {
        MarkAsIneligible(env, db, ClientIsNotLinked, k, 9);
        return false;
      }
      passed := ScreenLimit(env, db, k);
    }

    method ScreenLimit(env: Env, db: Database, k: Calls) returns (passed: bool)
      requires Valid(env) && transaction.kind == Qualifying && k.look && cachedCriteria.Some? && cachedUser.Some?
      requires AllHold(SCREENING, 10, env, db.State(), transaction)
      modifies db
      ensures AfterScreening(k, env, old(db.State()), db.State(), transaction, passed)
    {
      ghost var was, t := db.State(), transaction;
      var criteria := cachedCriteria.value;
      var rebates := Redeemed(db.rebates, transaction.userId, transaction.offerId, LimitCard(criteria, transaction));
      if !(rebates < criteria.redemptionLimit || criteria.redemptionLimit == 0) {
        var limitStatus := if criteria.limitType == PerCard then ClientReachedCardRedLimit else ClientReachedOverallRedLimit;
        MarkAsIneligible(env, db, limitStatus, k, 10);
        return false;
      }
      ScreenedIn(k, env, was, t);
      passed := true;
    }

    /** The second half, from the check that the transaction backs no rebate yet. */
    method Conclude(env: Env, db: Database, k: Calls)
      requires Valid(env) && transaction.kind == Qualifying && transaction.cardType != OtherCard
      requires cachedCriteria.Some? && cachedUser.Some? && cachedProduct.Some?
      modifies this, db
      ensures db.State() == FinishUnder(k, env, old(db.State()), transaction, Concluded(env, old(db.State()), transaction))
    {
      ghost var was, t := db.State(), transaction;
      if HasSource(db.rebates, transaction.txnId) {
        ConcludedOut(k, env, was, t, 0);
        MarkAsProcessed(db, QualifiedTransUsedAlready, k.mark);
        return;
      }
      var authorized := OwnershipAccepts();
      if !authorized {
        ConcludedOut(k, env, was, t, 1);
        var ownerStatus :=
          if transaction.cardType == CreditCard then CreditCardOwnerNotAuthorized else DebitCardOwnerNotAuthorized;
        MarkAsProcessed(db, ownerStatus, k.mark);
        return;
      }
      var optedIn := OptInAccepts();
      if optedIn.No? {
        ConcludedOut(k, env, was, t, 2);
        MarkAsProcessed(db, ClientNotInOptInFile, k.mark);
        return;
      }
      IssueIfDue(env, db, k);
    }

    method IssueIfDue(env: Env, db: Database, k: Calls)
      requires Valid(env) && transaction.kind == Qualifying && cachedCriteria.Some? && cachedUser.Some?
      requires AllHold(CONCLUDING, 3, env, db.State(), transaction)
      modifies this, db
      ensures db.State() == FinishUnder(k, env, old(db.State()), transaction, Concluded(env, old(db.State()), transaction))
    {
      ghost var was, t := db.State(), transaction;
      var amount := Calculation(env);
      if amount.coef == 0 {
        ConcludedOut(k, env, was, t, 3);
        MarkAsProcessed(db, RebateNotDue, k.mark);
      } else {
        ConcludedIn(k, env, was, t);
        IssueRebate(env, db, k);
      }
    }

    /** Processes the row: what is left in the tables is what the steps of the row leave, whichever calls fail. */
    method Perform(env: Env, db: Database, k: Calls)
      requires Valid(env) && transaction.kind == Qualifying
      modifies this, db
      ensures db.State() == FinishUnder(k, env, old(db.State()), transaction, Start)
    {
      var passed := Screen(env, db, k);
      if passed {
        UnrollUnder(k, env, db.State(), transaction, LimitSeen);
        if k.relook {
          Conclude(env, db, k);
        }
      }
    }
  }

  // ---- The checks with loops ----

  /** Two searches for the first eligible product of the code; the answer is undefined when there is none. */
  method ShouldCheckLinkingToPrimary(product: Product, criteria: Criteria) returns (primary: Answer)
    ensures primary.Thrown? <==> AuthorizedUserOffer(criteria, product) && EligibleFor(criteria, product.code).None?
    ensures primary.Yes? <==> LinksThroughPrimary(criteria, product)
  {
    if criteria.basedOn != ProductOwnershipBased || product.ownership != AuthorizedUser {
      return No;
    }
    var redeemable := FirstEligible(criteria, product.code);
    if redeemable.None? {
      return Thrown;
    }
    if AuthorizedUser in redeemable.value.redeemable {
      var presentable := FirstEligible(criteria, product.code);
      if Primary in presentable.value.presentable && AuthorizedUser !in presentable.value.presentable {
        return Yes;
      }
    }
    primary := No;
  }

  /** The search loop, left at the first product of the code. */
  method FirstEligible(criteria: Criteria, code: ProductCode) returns (found: Option<EligibleProduct>)
    ensures found == EligibleFor(criteria, code)
  {
    var p := (e: EligibleProduct) => e.code == code;
    var products := criteria.eligibleProducts;
    found := None;
    for i := 0 to |products|
      invariant found.None?
      invariant FirstOf(products, p) == FirstOf(products[i..], p)
    {
      if products[i].code == code {
        found := Some(products[i]);
        break;
      }
      assert products[i..][1..] == products[i + 1..];
    }
  }
}
