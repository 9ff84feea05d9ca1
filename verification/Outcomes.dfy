/** What processing a whole row comes to, when every call succeeds, for each of the three strategies. */
module Outcomes {
  import opened Domain
  import opened Store
  import opened Eligibility
  import opened RowSteps
  import Reward

  const WATERFALL: seq<Check> := SCREENING + CONCLUDING

  function Issued(db: Db, c: Criteria, t: Txn): Db {
    InsertRebate(Mark(db, t.id, RebateCreated), t, Reward.StoredAmount(RewardOf(c, t), c.reward.unit), c.reward.unit)
  }

  /** Decided by the first failing check alone. */
  function QualifyingOutcome(env: Env, db: Db, t: Txn): Db {
    match FirstFailing(WATERFALL, env, db, t)
    case None => if t.offerId in env.offers then Issued(db, env.offers[t.offerId], t) else db
    case Some(check) =>
      match StatusFor(check, env, t)
      case None => db
      case Some(s) => Mark(db, t.id, s)
  }

  function FulfilmentOutcome(env: Env, db: Db, t: Txn): Db {
    match FulfilmentVerdict(FULFILMENT_ORDER, env, db, t)
    case None => db
    case Some(s) =>
      var marked := Mark(db, t.id, s);
      match NamedRebate(db, t)
      case None => marked
      case Some(r) =>
        if s == FulfilledTransSuccessful
        then SettleJournal(SettleRebate(marked, r.id, t), t, SettledCopy(r, t)) else marked
  }

  /** The two report loops as one: a report and a flag for each row that has none yet. */
  function ReportAll(db: Db, todo: seq<Txn>): Db
    decreases |todo|
  {
    if todo == [] then db
    else if todo[0].reported then ReportAll(db, todo[1..])
    else ReportAll(FlagReported(InsertReport(db, todo[0]), todo[0].id), todo[1..])
  }

  function Reported(db: Db, t: Txn): Db {
    var tracked := TrackedRefunds(db.txns, t.userId, t.offerId);
    if |tracked| < 2 then db else ReportAll(db, tracked + ReportableQualifying(db.txns, t.userId, t.offerId))
  }

  function RefundOutcome(env: Env, db: Db, t: Txn): Db {
    match RefundVerdict(env, db, t)
    case None => db
    case Some(s) => if t.offerId in env.offers then Reported(Mark(db, t.id, s), t) else Mark(db, t.id, s)
  }

  function RowOutcome(env: Env, db: Db, t: Txn): Db {
    match t.kind
    case Qualifying => QualifyingOutcome(env, db, t)
    case Fulfillment => FulfilmentOutcome(env, db, t)
    case Refund => RefundOutcome(env, db, t)
    case OtherKind => db
  }

  lemma Unroll(env: Env, db: Db, t: Txn, p: Phase)
    requires p != Done
    ensures FinishRow(env, db, t, p) == FinishRow(env, Step(env, db, t, p, true).0, t, Step(env, db, t, p, true).1)
  {
    StepProgress(env, db, t, p, true);
  }

  lemma UnrollUnder(k: Calls, env: Env, db: Db, t: Txn, p: Phase)
    requires p != Done
    ensures var (db', p') := Step(env, db, t, p, Succeeds(k, p));
            FinishUnder(k, env, db, t, p) == FinishUnder(k, env, db', t, p')
  {
    StepProgress(env, db, t, p, Succeeds(k, p));
  }

  lemma MarkAndStop(env: Env, db: Db, t: Txn, s: Status)
    ensures FinishRow(env, db, t, Marking(s, Stop)) == Mark(db, t.id, s)
  {
    Unroll(env, db, t, Marking(s, Stop));
  }

  /** When no check of the second half fails, a rebate is issued. */
  lemma ConcludesToIssue(env: Env, db: Db, t: Txn)
    requires FirstFailing(CONCLUDING, env, db, t).None?
    ensures t.offerId in env.offers && Concluded(env, db, t).Marking? && Concluded(env, db, t).sequel.Issue?
  {
    FirstOfMember(CONCLUDING, (c: Check) => !Holds(c, env, db, t));
    assert RewardDue in CONCLUDING;
    assert Holds(RewardDue, env, db, t);
  }

  lemma QualifyingRow(env: Env, db: Db, t: Txn)
    requires t.kind == Qualifying
    ensures RunRow(env, db, t) == QualifyingOutcome(env, db, t)
  {
    FirstOfSkips(SCREENING, CONCLUDING, (c: Check) => !Holds(c, env, db, t));
    Unroll(env, db, t, Start);
    var first := FirstFailing(SCREENING, env, db, t);
    if first.Some? {
      RefusedRow(env, db, t, first.value);
    } else {
      Unroll(env, db, t, LimitSeen);
      ConcludedRow(env, db, t);
    }
  }

  lemma ConcludedRow(env: Env, db: Db, t: Txn)
    ensures FinishRow(env, db, t, Concluded(env, db, t)) ==
            match FirstFailing(CONCLUDING, env, db, t)
            case None => if t.offerId in env.offers then Issued(db, env.offers[t.offerId], t) else db
            case Some(check) => if StatusFor(check, env, t).None? then db else Mark(db, t.id, StatusFor(check, env, t).value)
  {
    var second := FirstFailing(CONCLUDING, env, db, t);
    if second.Some? {
      RefusedRow(env, db, t, second.value);
    } else if t.offerId in env.offers {
      var c := env.offers[t.offerId];
      IssuedRow(env, db, t, Reward.StoredAmount(RewardOf(c, t), c.reward.unit), c.reward.unit);
    }
  }

  lemma IssuedRow(env: Env, db: Db, t: Txn, amount: Cents, unit: RewardType)
    ensures FinishRow(env, db, t, Marking(RebateCreated, Issue(amount, unit))) ==
            InsertRebate(Mark(db, t.id, RebateCreated), t, amount, unit)
  {
    Unroll(env, db, t, Marking(RebateCreated, Issue(amount, unit)));
    Unroll(env, Mark(db, t.id, RebateCreated), t, Acting(Issue(amount, unit)));
  }

  lemma RefusedRow(env: Env, db: Db, t: Txn, check: Check)
    ensures FinishRow(env, db, t, Refused(check, env, t)) ==
            if StatusFor(check, env, t).None? then db else Mark(db, t.id, StatusFor(check, env, t).value)
  {
    if StatusFor(check, env, t).Some? {
      MarkAndStop(env, db, t, StatusFor(check, env, t).value);
    }
  }

  lemma SettlingRow(env: Env, db: Db, t: Txn, r: Rebate)
    ensures var marked := Mark(db, t.id, FulfilledTransSuccessful);
            FinishRow(env, db, t, Marking(FulfilledTransSuccessful, Settle(r))) ==
            SettleJournal(SettleRebate(marked, r.id, t), t, SettledCopy(r, t))
  {
    var marked := Mark(db, t.id, FulfilledTransSuccessful);
    Unroll(env, db, t, Marking(FulfilledTransSuccessful, Settle(r)));
    Unroll(env, marked, t, Acting(Settle(r)));
    Unroll(env, SettleRebate(marked, r.id, t), t, Journaling(SettledCopy(r, t)));
  }

  lemma FulfilmentRow(env: Env, db: Db, t: Txn)
    requires t.kind == Fulfillment
    ensures RunRow(env, db, t) == FulfilmentOutcome(env, db, t)
  {
    FirstOfSkips(FIRST_LOOK, SECOND_LOOK, (s: Status) => FulfilmentApplies(s, env, db, t));
    Unroll(env, db, t, Start);
    FirstLookTotal(env, db, t);
    var first := FulfilmentVerdict(FIRST_LOOK, env, db, t);
    if first.Some? {
      MarkAndStop(env, db, t, first.value);
      assert first.value != FulfilledTransSuccessful;
    } else {
      Unroll(env, db, t, PaymentUnusedSeen);
      ValidatedRow(env, db, t);
    }
  }

  lemma ValidatedRow(env: Env, db: Db, t: Txn)
    ensures FulfilmentVerdict(SECOND_LOOK, env, db, t).Some?
    ensures var s, r := FulfilmentVerdict(SECOND_LOOK, env, db, t).value, NamedRebate(db, t);
            var marked := Mark(db, t.id, s);
            FinishRow(env, db, t, Validated(env, db, t)) ==
            if s == FulfilledTransSuccessful && r.Some?
            then SettleJournal(SettleRebate(marked, r.value.id, t), t, SettledCopy(r.value, t)) else marked
  {
    SecondLookTotal(env, db, t);
    var s, r := FulfilmentVerdict(SECOND_LOOK, env, db, t).value, NamedRebate(db, t);
    if s == FulfilledTransSuccessful {
      SettlingRow(env, db, t, r.value);
    } else {
      MarkAndStop(env, db, t, s);
    }
  }

  lemma {:induction false} ReportingRow(env: Env, db: Db, t: Txn, todo: seq<Txn>)
    ensures FinishRow(env, db, t, Reporting(todo)) == ReportAll(db, todo)
    decreases |todo|
  {
    Unroll(env, db, t, Reporting(todo));
    if todo != [] {
      if todo[0].reported {
        ReportingRow(env, db, t, todo[1..]);
      } else {
        var inserted := InsertReport(db, todo[0]);
        Unroll(env, inserted, t, Flagging(todo));
        ReportingRow(env, FlagReported(inserted, todo[0].id), t, todo[1..]);
      }
    }
  }

  lemma ReportsRow(env: Env, db: Db, t: Txn)
    ensures FinishRow(env, db, t, Acting(ReportRefunds)) == Reported(db, t)
  {
    Unroll(env, db, t, Acting(ReportRefunds));
    var tracked := TrackedRefunds(db.txns, t.userId, t.offerId);
    if |tracked| >= 2 {
      Unroll(env, db, t, Listed(tracked));
      ReportingRow(env, db, t, tracked + ReportableQualifying(db.txns, t.userId, t.offerId));
    }
  }

  lemma RefundRow(env: Env, db: Db, t: Txn)
    requires t.kind == Refund
    ensures RunRow(env, db, t) == RefundOutcome(env, db, t)
  {
    Unroll(env, db, t, Start);
    RefundVerdictTotal(env, db, t);
    var s := RefundVerdict(env, db, t).value;
    if t.offerId in env.offers {
      Unroll(env, db, t, Marking(s, ReportRefunds));
      ReportsRow(env, Mark(db, t.id, s), t);
    } else {
      MarkAndStop(env, db, t, s);
    }
  }

  /** The steps of a row, run to the end, come to its outcome. */
  lemma RowComesTo(env: Env, db: Db, t: Txn)
    ensures RunRow(env, db, t) == RowOutcome(env, db, t)
  {
    match t.kind
    case Qualifying => QualifyingRow(env, db, t);
    case Fulfillment => FulfilmentRow(env, db, t);
    case Refund => RefundRow(env, db, t);
    case OtherKind => Unroll(env, db, t, Start);
  }

  // ---- The qualifying waterfall ----

  ghost predicate AllHold(order: seq<Check>, k: nat, env: Env, db: Db, t: Txn)
    requires k <= |order|
  {
    forall j :: 0 <= j < k ==> Holds(order[j], env, db, t)
  }

  /** The checks before place k hold, and the one at place k, if there is one, does not. */
  ghost predicate FailsFirstAt(order: seq<Check>, k: nat, env: Env, db: Db, t: Txn) {
    k <= |order| && AllHold(order, k, env, db, t) && (k < |order| ==> !Holds(order[k], env, db, t))
  }

  lemma FirstFailingAt(order: seq<Check>, k: nat, env: Env, db: Db, t: Txn)
    requires FailsFirstAt(order, k, env, db, t)
    ensures FirstFailing(order, env, db, t) == if k == |order| then None else Some(order[k])
  {
    FirstOfIsFirst(order, (c: Check) => !Holds(c, env, db, t));
  }

  /** The row is marked with this status; no other row and no other column changes, and neither do reports. */
  ghost predicate OnlyMarked(db: Db, db': Db, t: Txn, s: Status)
    requires t.id < |db.txns|
  {
    db'.txns == db.txns[t.id := db.txns[t.id].(processed := true, status := Some(s))] && db'.reports == db.reports
  }

  /** A pending rebate for the transaction: nothing fulfilled, delivered or synced yet. */
  predicate PendingRebateFor(r: Rebate, t: Txn, amount: Cents, unit: RewardType) {
    r.userId == t.userId && r.offerId == t.offerId && r.accountId == t.accountId
    && r.sourceTxnId == t.txnId && r.sourceRow == t.id && r.card == t.card && r.cardType == t.cardType
    && r.amount == amount && r.rewardType == unit && r.status == PendingExtraction
    && r.fulfilledTxnId.None? && r.fulfilledAmount.None? && r.fulfilRow.None? && !r.delivered && !r.synced
  }

  /** One more rebate, of the rounded reward, and the row marked. */
  ghost predicate RebateIssued(env: Env, db: Db, db': Db, t: Txn)
    requires t.id < |db.txns|
  {
    t.offerId in env.offers && OnlyMarked(db, db', t, RebateCreated) && db'.journal == db.journal
    && var c, n := env.offers[t.offerId], |db.rebates|;
       RewardOf(c, t).coef != 0
       && |db'.rebates| == n + 1 && db'.rebates[..n] == db.rebates && db'.rebates[n].id == n
       && PendingRebateFor(db'.rebates[n], t, Reward.StoredAmount(RewardOf(c, t), c.reward.unit), c.reward.unit)
  }

  /** No rebate; the row carries the status of the failed check, or nothing changes where the source throws. */
  ghost predicate RowRefused(check: Check, env: Env, db: Db, db': Db, t: Txn)
    requires t.id < |db.txns|
  {
    db'.rebates == db.rebates && db'.journal == db.journal
    && if check == CardTypeKnown || check == LinkDecidable then db' == db
       else StatusFor(check, env, t).Some? && StatusFor(check, env, t) != Some(RebateCreated)
            && OnlyMarked(db, db', t, StatusFor(check, env, t).value)
  }

  lemma MarkedRow(db: Db, t: Txn, s: Status)
    requires Numbered(db) && t.id < |db.txns|
    ensures OnlyMarked(db, Mark(db, t.id, s), t, s)
  {
  }

  /** The check that decides a qualifying row, if one fails. */
  function FirstRefusal(env: Env, db: Db, t: Txn): Option<Check> {
    FirstFailing(WATERFALL, env, db, t)
  }

  /** It fails, and all checks before it in the order hold. */
  lemma FirstRefusalMeans(env: Env, db: Db, t: Txn, check: Check)
    ensures FirstRefusal(env, db, t) == Some(check) <==>
              exists k :: 0 <= k < |WATERFALL| && WATERFALL[k] == check && FailsFirstAt(WATERFALL, k, env, db, t)
    ensures FirstRefusal(env, db, t).None? <==> AllHold(WATERFALL, |WATERFALL|, env, db, t)
  {
    OrderedRefusal(WATERFALL, env, db, t, check);
  }

  lemma OrderedRefusal(order: seq<Check>, env: Env, db: Db, t: Txn, check: Check)
    ensures FirstFailing(order, env, db, t) == Some(check) <==>
              exists k :: 0 <= k < |order| && order[k] == check && FailsFirstAt(order, k, env, db, t)
    ensures FirstFailing(order, env, db, t).None? <==> AllHold(order, |order|, env, db, t)
  {
    var fails := (c: Check) => !Holds(c, env, db, t);
    FirstOfIsFirst(order, fails);
    if FirstFailing(order, env, db, t) == Some(check) {
      var k :| 0 <= k < |order| && order[k] == check && fails(check) && forall j :: 0 <= j < k ==> !fails(order[j]);
      assert FailsFirstAt(order, k, env, db, t);
    }
    if k :| 0 <= k < |order| && order[k] == check && FailsFirstAt(order, k, env, db, t) {
      FirstFailingAt(order, k, env, db, t);
    }
    if AllHold(order, |order|, env, db, t) { FirstFailingAt(order, |order|, env, db, t); }
  }

  /**
    * The stored status is that of the first failing check in the fixed order. A rebate is created exactly when none
    * fails, the last check being that the exact reward is not zero.
    */
  lemma WaterfallDecides(env: Env, db: Db, t: Txn)
    requires t.kind == Qualifying && Numbered(db) && t.id < |db.txns|
    ensures match FirstRefusal(env, db, t)
            case None => RebateIssued(env, db, RunRow(env, db, t), t)
            case Some(check) => RowRefused(check, env, db, RunRow(env, db, t), t)
  {
    QualifyingRow(env, db, t);
    match FirstRefusal(env, db, t)
    case None =>
      NoneFails(WATERFALL, env, db, t);
      MarkedRow(db, t, RebateCreated);
    case Some(check) => Refuses(check, env, db, t);
  }

  lemma NoneFails(order: seq<Check>, env: Env, db: Db, t: Txn)
    requires order == WATERFALL && FirstFailing(order, env, db, t).None?
    ensures t.offerId in env.offers && RewardOf(env.offers[t.offerId], t).coef != 0
  {
    OrderedRefusal(order, env, db, t, OfferExists);
    assert order[0] == OfferExists && order[14] == RewardDue;
    assert Holds(order[0], env, db, t) && Holds(order[14], env, db, t);
  }

  lemma Refuses(check: Check, env: Env, db: Db, t: Txn)
    requires Numbered(db) && t.id < |db.txns|
    ensures var s := StatusFor(check, env, t);
            var db' := if s.None? then db else Mark(db, t.id, s.value);
            RowRefused(check, env, db, db', t)
  {
    var s := StatusFor(check, env, t);
    if s.Some? {
      MarkedRow(db, t, s.value);
    }
  }

  /** A first purchase with an eligible product on an open offer without conditions earns its rebate. */
  lemma OpenOfferIsRewarded(env: Env, db: Db, t: Txn)
    requires t.kind == Qualifying && Numbered(db) && t.id < |db.txns|
    requires t.offerId in env.offers && t.userId in env.users && t.cardType != OtherCard
    requires var c := env.offers[t.offerId];
             c.hasBeenActivated && c.isRedeemable && c.validFrom <= t.date <= c.validTo
             && !c.requiresTargeting && !c.requiresLinking && c.redemptionLimit == 0
             && c.basedOn == ClientBased && RewardOf(c, t).coef != 0
    requires var u := env.users[t.userId];
             !u.isBlacklisted && ProductUsed(u, t).Some? && ProductUsed(u, t).value.eligible
    requires !HasSource(db.rebates, t.txnId)
    ensures RebateIssued(env, db, RunRow(env, db, t), t)
  {
    ProductUsedIffHeld(env.users[t.userId], t);
    assert forall check :: Holds(check, env, db, t);
    NothingRefuses(WATERFALL, env, db, t);
    WaterfallDecides(env, db, t);
  }

  lemma NothingRefuses(order: seq<Check>, env: Env, db: Db, t: Txn)
    requires forall check :: Holds(check, env, db, t)
    ensures FirstFailing(order, env, db, t).None?
  {
    OrderedRefusal(order, env, db, t, OfferExists);
  }

  /** The unrecognised card type is reached. */
  predicate CardTypeReached(env: Env, t: Txn) {
    t.cardType == OtherCard && t.offerId in env.offers && t.userId in env.users
    && var c := env.offers[t.offerId];
       c.hasBeenActivated && c.isRedeemable && c.validFrom <= t.date <= c.validTo
       && !env.users[t.userId].isBlacklisted
  }

  /** The link check meets an authorised user's product that an ownership-based offer does not list. */
  predicate UnlistedProductReached(env: Env, t: Txn) {
    t.cardType != OtherCard && t.offerId in env.offers && t.userId in env.users
    && var c, u := env.offers[t.offerId], env.users[t.userId];
       c.hasBeenActivated && c.isRedeemable && c.validFrom <= t.date <= c.validTo
       && !u.isBlacklisted && ProductUsed(u, t).Some?
       && var p := ProductUsed(u, t).value;
          p.eligible
          && (c.requiresTargeting ==> OnLedger(env, t.userId, t.offerId, t.date, false))
          && c.requiresLinking && AuthorizedUserOffer(c, p) && EligibleFor(c, p.code).None?
  }

  lemma WaterfallInOrder(order: seq<Check>)
    requires order == WATERFALL
    ensures |order| == 15
    ensures order[..9] == [OfferExists, ClientExists, InRedemptionPeriod, NotBlacklisted, CardTypeKnown, HoldsProduct,
                           NotBlocked, Targeted, LinkDecidable]
    ensures forall k :: 9 <= k < 15 ==> order[k] != CardTypeKnown && order[k] != LinkDecidable
  {
  }

  lemma CardTypePlace(order: seq<Check>, env: Env, db: Db, t: Txn)
    requires order == WATERFALL
    ensures |order| == 15 && (FailsFirstAt(order, 4, env, db, t) <==> CardTypeReached(env, t))
  {
    WaterfallInOrder(order);
    var first := order[..9];
    assert AllHold(order, 4, env, db, t) <==>
      Holds(first[0], env, db, t) && Holds(first[1], env, db, t) && Holds(first[2], env, db, t)
      && Holds(first[3], env, db, t);
    assert order[4] == first[4];
  }

  lemma LinkPlace(order: seq<Check>, env: Env, db: Db, t: Txn)
    requires order == WATERFALL
    ensures |order| == 15 && (FailsFirstAt(order, 8, env, db, t) <==> UnlistedProductReached(env, t))
  {
    WaterfallInOrder(order);
    FirstEight(order, order[..9], env, db, t);
    if t.userId in env.users { ProductUsedIffHeld(env.users[t.userId], t); }
  }

  lemma FirstEight(order: seq<Check>, first: seq<Check>, env: Env, db: Db, t: Txn)
    requires |order| == 15 && first == order[..9]
    requires first == [OfferExists, ClientExists, InRedemptionPeriod, NotBlacklisted, CardTypeKnown, HoldsProduct,
                       NotBlocked, Targeted, LinkDecidable]
    ensures FailsFirstAt(order, 8, env, db, t) <==>
              Holds(OfferExists, env, db, t) && Holds(ClientExists, env, db, t) && Holds(InRedemptionPeriod, env, db, t)
              && Holds(NotBlacklisted, env, db, t) && Holds(CardTypeKnown, env, db, t) && Holds(HoldsProduct, env, db, t)
              && Holds(NotBlocked, env, db, t) && Holds(Targeted, env, db, t) && !Holds(LinkDecidable, env, db, t)
  {
    assert order[8] == first[8];
    assert AllHold(order, 8, env, db, t) <==>
      Holds(first[0], env, db, t) && Holds(first[1], env, db, t) && Holds(first[2], env, db, t)
      && Holds(first[3], env, db, t)
      && Holds(first[4], env, db, t) && Holds(first[5], env, db, t) && Holds(first[6], env, db, t)
      && Holds(first[7], env, db, t);
  }

  /** A check that stands at one place of the order only is the first to fail exactly at that place. */
  lemma OnlyPlace(order: seq<Check>, k: nat, env: Env, db: Db, t: Txn)
    requires k < |order| && forall j :: 0 <= j < |order| && order[j] == order[k] ==> j == k
    ensures FirstFailing(order, env, db, t) == Some(order[k]) <==> FailsFirstAt(order, k, env, db, t)
  {
    OrderedRefusal(order, env, db, t, order[k]);
  }

  lemma ThrowPlaces(order: seq<Check>, env: Env, db: Db, t: Txn)
    requires order == WATERFALL
    ensures FirstFailing(order, env, db, t) == Some(CardTypeKnown) <==> CardTypeReached(env, t)
    ensures FirstFailing(order, env, db, t) == Some(LinkDecidable) <==> UnlistedProductReached(env, t)
  {
    WaterfallInOrder(order);
    CardTypePlace(order, env, db, t);
    LinkPlace(order, env, db, t);
    assert forall j :: 0 <= j < 9 ==> order[j] == order[..9][j];
    OnlyPlace(order, 4, env, db, t);
    OnlyPlace(order, 8, env, db, t);
  }

  /** When the unrecognised card type is what decides a row, in terms of the row and its offer and client. */
  lemma CardTypeDecides(env: Env, db: Db, t: Txn)
    ensures FirstRefusal(env, db, t) == Some(CardTypeKnown) <==> CardTypeReached(env, t)
  {
    ThrowPlaces(WATERFALL, env, db, t);
  }

  /** When it is the product that the link check does not find. */
  lemma UnlistedProductDecides(env: Env, db: Db, t: Txn)
    ensures FirstRefusal(env, db, t) == Some(LinkDecidable) <==> UnlistedProductReached(env, t)
  {
    ThrowPlaces(WATERFALL, env, db, t);
  }

  /** A row is left pending exactly where one of two throws is reached; everything else writes a status. */
  lemma LeftPendingExactly(env: Env, db: Db, t: Txn)
    requires t.kind == Qualifying && Numbered(db) && t.id < |db.txns| && !db.txns[t.id].processed
    ensures |RunRow(env, db, t).txns| == |db.txns|
    ensures !RunRow(env, db, t).txns[t.id].processed <==> CardTypeReached(env, t) || UnlistedProductReached(env, t)
    ensures CardTypeReached(env, t) || UnlistedProductReached(env, t) ==> RunRow(env, db, t) == db
  {
    WaterfallDecides(env, db, t);
    CardTypeDecides(env, db, t);
    UnlistedProductDecides(env, db, t);
  }

  /** By the time the opt-in file is searched the card type is known, so the throw there is never reached. */
  lemma OptInCardTypeKnown(env: Env, db: Db, t: Txn)
    requires FirstFailing(SCREENING, env, db, t).None?
    ensures t.cardType != OtherCard
  {
    FirstOfMember(SCREENING, (c: Check) => !Holds(c, env, db, t));
    assert CardTypeKnown in SCREENING;
    assert Holds(CardTypeKnown, env, db, t);
  }

  // ---- Fulfilments ----

  /** The named rebate is paid by this payment; no other rebate and no other column of it changes. */
  ghost predicate RebatePaid(db: Db, db': Db, t: Txn) {
    t.rebateId.Some? && t.rebateId.value < |db.rebates|
    && var k := t.rebateId.value;
       var r := db.rebates[k];
       r.status == PendingFulfillment && r.amount == t.amount && r.accountId == t.accountId
       && db'.rebates == db.rebates[k := r.(status := FulfilledTransSuccessful, fulfilledTxnId := Some(t.txnId),
                                            fulfilledAmount := Some(t.amount), fulfilRow := Some(t.id))]
  }

  /** And its journal row follows. */
  ghost predicate RebateSettled(db: Db, db': Db, t: Txn) {
    RebatePaid(db, db', t) && JournalSettled(db.journal, db'.journal, t, db.rebates[t.rebateId.value])
  }

  /** The row says fulfilled, by this payment's client and card, and both splits give the amount to one column. */
  predicate SettledFor(j: JournalRow, t: Txn, r: Rebate) {
    j.rebateId == r.id && j.clientId == t.userId && j.status == FulfilledTransSuccessful
    && j.ccCredit == (if t.cardType == CreditCard then r.amount else 0)
    && j.pbaCredit == (if t.cardType == CheckingAccount then r.amount else 0)
    && j.points == (if r.rewardType == Points then t.amount else 0)
    && j.dollars == (if r.rewardType == Dollars then t.amount else 0)
  }

  /** One pending row of the rebate and its client is settled, if there is one; no other row changes. */
  ghost predicate JournalSettled(journal: seq<JournalRow>, journal': seq<JournalRow>, t: Txn, r: Rebate) {
    |journal'| == |journal|
    && ((exists m: nat :: m < |journal| && SettlesAt(journal, journal', m, t, r))
        || (journal' == journal
            && forall j :: j in journal && j.rebateId == r.id && j.clientId == r.userId ==> j.status != PendingFulfillment))
  }

  /** The row at this place was pending and is settled, and it is the only one to change. */
  ghost predicate SettlesAt(journal: seq<JournalRow>, journal': seq<JournalRow>, m: nat, t: Txn, r: Rebate)
    requires m < |journal| == |journal'|
  {
    journal[m].rebateId == r.id && journal[m].clientId == r.userId && journal[m].status == PendingFulfillment
    && SettledFor(journal'[m], t, r) && journal'[m].id == journal[m].id
    && forall n :: 0 <= n < |journal| && n != m ==> journal'[n] == journal[n]
  }

  lemma SettlesJournal(db: Db, t: Txn, r: Rebate, settled: Rebate)
    requires Numbered(db) && settled == SettledCopy(r, t)
    ensures JournalSettled(db.journal, SettleJournal(db, t, settled).journal, t, r)
  {
    var found := FindJournal(db.journal, r.userId, r.id);
    if found.Some? {
      var m: nat :| m < |db.journal| && db.journal[m] == found.value;
      var journal' := SettleJournal(db, t, settled).journal;
      assert SettlesAt(db.journal, journal', m, t, r);
    }
  }

  /**
    * A fulfilment is marked with the highest-priority status that applies. The named rebate and its open journal row are
    * settled exactly when the payment is unused, the client known and the rebate due with equal account and amount;
    * nothing else changes.
    */
  lemma FulfilmentDecides(env: Env, db: Db, t: Txn)
    requires t.kind == Fulfillment && Numbered(db) && t.id < |db.txns|
    ensures FulfilmentVerdict(FULFILMENT_ORDER, env, db, t).Some?
    ensures var db' := RunRow(env, db, t);
            OnlyMarked(db, db', t, FulfilmentVerdict(FULFILMENT_ORDER, env, db, t).value)
            && if t.rebateId.Some? && !HasFulfilled(db.rebates, t.txnId) && MatchesDueRebate(env, db, t)
               then RebateSettled(db, db', t) else db'.rebates == db.rebates && db'.journal == db.journal
  {
    FulfilmentRow(env, db, t);
    FulfilmentVerdictTotal(env, db, t);
    MarkedRow(db, t, FulfilmentVerdict(FULFILMENT_ORDER, env, db, t).value);
    if MatchesDueRebate(env, db, t) { SettlesRebate(env, db, t); }
  }

  lemma SettlesRebate(env: Env, db: Db, t: Txn)
    requires Numbered(db) && MatchesDueRebate(env, db, t)
    ensures var r, marked := NamedRebate(db, t).value, Mark(db, t.id, FulfilledTransSuccessful);
            var db' := SettleJournal(SettleRebate(marked, r.id, t), t, SettledCopy(r, t));
            RebateSettled(db, db', t) && db'.txns == marked.txns && db'.reports == db.reports
  {
    var r, marked := NamedRebate(db, t).value, Mark(db, t.id, FulfilledTransSuccessful);
    FoundInPlace(db.rebates, t.rebateId.value);
    SettlesJournal(SettleRebate(marked, r.id, t), t, r, SettledCopy(r, t));
  }
}
