/** What processing a row leaves in every table, read off the columns, whichever of its calls fail. */
module RowResults {
  import opened Domain
  import opened Store
  import opened Eligibility
  import opened RowSteps
  import opened Outcomes
  import opened Verdicts
  import Q = Qualifying
  import F = Fulfilment
  import R = Refunding
  import Reward

  // ---- Qualifying rows ----

  /** Statuses decided after the second read of a qualifying row. */
  predicate Late(s: Status) {
    s in [QualifiedTransUsedAlready, CreditCardOwnerNotAuthorized, DebitCardOwnerNotAuthorized, ClientNotInOptInFile,
          RebateNotDue, RebateCreated]
  }

  lemma LateChecks(check: Check, env: Env, t: Txn)
    ensures check in CONCLUDING ==>
              StatusFor(check, env, t).Some? && Late(StatusFor(check, env, t).value)
              && StatusFor(check, env, t).value != RebateCreated
    ensures check !in CONCLUDING && StatusFor(check, env, t).Some? ==> !Late(StatusFor(check, env, t).value)
    ensures check in CONCLUDING ==> check !in SCREENING
  {
  }

  /** One more rebate at the end of the table, of the rounded reward and still to be extracted. */
  ghost predicate OneIssued(env: Env, db: Db, db': Db, t: Txn) {
    t.offerId in env.offers
    && var c, n := env.offers[t.offerId], |db.rebates|;
       |db'.rebates| == n + 1 && db'.rebates[..n] == db.rebates && db'.rebates[n].id == n
       && PendingRebateFor(db'.rebates[n], t, Reward.StoredAmount(RewardOf(c, t), c.reward.unit), c.reward.unit)
  }

  lemma ScreeningDecides(k: Calls, env: Env, db: Db, t: Txn)
    requires t.kind == Qualifying && Numbered(db) && t.id < |db.txns|
    ensures var s := QualifyingStatus(env, db, t);
            match FirstFailing(SCREENING, env, db, t)
            case None =>
              s.Some? && Late(s.value)
              && FinishUnder(k, env, db, t, Start) == if k.look then FinishUnder(k, env, db, t, LimitSeen) else db
            case Some(check) =>
              s == StatusFor(check, env, t) && (s.Some? ==> !Late(s.value))
              && FinishUnder(k, env, db, t, Start) == if k.look then Q.Refusal(k, db, t, s) else db
  {
    var screening, concluding := FirstFailing(SCREENING, env, db, t), FirstFailing(CONCLUDING, env, db, t);
    FirstOfSkips(SCREENING, CONCLUDING, (c: Check) => !Holds(c, env, db, t));
    WaterfallColumns(WATERFALL, env, db, t);
    FirstOfMember(SCREENING, (c: Check) => !Holds(c, env, db, t));
    FirstOfMember(CONCLUDING, (c: Check) => !Holds(c, env, db, t));
    UnrollUnder(k, env, db, t, Start);
    match screening
    case None => if concluding.Some? { LateChecks(concluding.value, env, t); }
    case Some(check) =>
      LateChecks(check, env, t);
      if k.look { Q.RefusalRuns(k, env, db, t, check); }
  }

  lemma ConcludingDecides(k: Calls, env: Env, db: Db, t: Txn)
    requires t.kind == Qualifying && FirstFailing(SCREENING, env, db, t).None?
    ensures var s := QualifyingStatus(env, db, t);
            FinishUnder(k, env, db, t, LimitSeen) ==
            if !k.relook then db
            else if s == Some(RebateCreated) && t.offerId in env.offers then Q.IssuedUnder(k, db, env.offers[t.offerId], t)
            else Q.Refusal(k, db, t, s)
    ensures QualifyingStatus(env, db, t) == Some(RebateCreated) ==> t.offerId in env.offers
  {
    FirstOfSkips(SCREENING, CONCLUDING, (c: Check) => !Holds(c, env, db, t));
    WaterfallColumns(WATERFALL, env, db, t);
    UnrollUnder(k, env, db, t, LimitSeen);
    FirstOfMember(CONCLUDING, (c: Check) => !Holds(c, env, db, t));
    match FirstFailing(CONCLUDING, env, db, t)
    case None =>
      var c := env.offers[t.offerId];
      Q.IssueRuns(k, env, db, t, Reward.StoredAmount(RewardOf(c, t), c.reward.unit), c.reward.unit);
    case Some(check) =>
      LateChecks(check, env, t);
      Q.RefusalRuns(k, env, db, t, check);
  }

  lemma IssuedRow(k: Calls, env: Env, db: Db, t: Txn)
    requires Numbered(db) && t.id < |db.txns| && t.offerId in env.offers
    ensures var db' := Q.IssuedUnder(k, db, env.offers[t.offerId], t);
            (if k.mark then OnlyMarked(db, db', t, RebateCreated) else db'.txns == db.txns && db'.reports == db.reports)
            && db'.journal == db.journal
            && if k.act then OneIssued(env, db, db', t) else db'.rebates == db.rebates
  {
    MarkedRow(db, t, RebateCreated);
  }

  /**
    * A qualifying row gets the status that the tables give it, a rebate exactly if that is RebateCreated, and nothing
    * else. A failed mark is swallowed, so that the rebate is issued without it; a failed read or a throw changes nothing.
    */
  lemma QualifyingResult(k: Calls, env: Env, db: Db, t: Txn)
    requires t.kind == Qualifying && Numbered(db) && t.id < |db.txns|
    ensures var db', s := FinishUnder(k, env, db, t, Start), QualifyingStatus(env, db, t);
            if s.None? || !k.look || (Late(s.value) && !k.relook) then db' == db
            else
              (if k.mark then OnlyMarked(db, db', t, s.value) else db'.txns == db.txns && db'.reports == db.reports)
              && db'.journal == db.journal
              && if s.value == RebateCreated && k.act then OneIssued(env, db, db', t) else db'.rebates == db.rebates
  {
    var s := QualifyingStatus(env, db, t);
    ScreeningDecides(k, env, db, t);
    if FirstFailing(SCREENING, env, db, t).None? {
      ConcludingDecides(k, env, db, t);
      if s == Some(RebateCreated) { IssuedRow(k, env, db, t); }
    }
    if s.Some? { MarkedRow(db, t, s.value); }
  }

  // ---- Fulfilments ----

  lemma PaidRuns(k: Calls, env: Env, db: Db, t: Txn, r: Rebate)
    requires t.kind == Fulfillment
    ensures FinishUnder(k, env, db, t, Acting(Settle(r))) ==
            if !k.act then db
            else if !k.journal then SettleRebate(db, r.id, t)
            else SettleJournal(SettleRebate(db, r.id, t), t, SettledCopy(r, t))
  {
    UnrollUnder(k, env, db, t, Acting(Settle(r)));
    if k.act { UnrollUnder(k, env, SettleRebate(db, r.id, t), t, Journaling(SettledCopy(r, t))); }
  }

  lemma PaidColumns(k: Calls, env: Env, db: Db, t: Txn)
    requires t.kind == Fulfillment && Numbered(db) && FulfilmentStatus(env, db, t) == FulfilledTransSuccessful
    ensures var r := db.rebates[t.rebateId.value];
            var db' := FinishUnder(k, env, db, t, Acting(Settle(r)));
            db'.txns == db.txns && db'.reports == db.reports
            && (if k.act then RebatePaid(db, db', t) else db'.rebates == db.rebates)
            && (if k.act && k.journal then JournalSettled(db.journal, db'.journal, t, r) else db'.journal == db.journal)
  {
    var r := db.rebates[t.rebateId.value];
    PaidRuns(k, env, db, t, r);
    SettlesJournal(SettleRebate(db, r.id, t), t, r, SettledCopy(r, t));
  }

  lemma ValidatedResult(k: Calls, env: Env, db: Db, t: Txn)
    requires t.kind == Fulfillment && Numbered(db) && t.id < |db.txns|
    ensures var s := FulfilmentStatus(env, db, t);
            var marked := Mark(db, t.id, s);
            FinishUnder(k, env, db, t, Start) ==
            if !k.look || (s != RebateIdNotFound && s != FulfilledTransUsedAlready && !k.relook) || !k.mark then db
            else if s == FulfilledTransSuccessful
            then FinishUnder(k, env, marked, t, Acting(Settle(db.rebates[t.rebateId.value])))
            else marked
  {
    var s := FulfilmentStatus(env, db, t);
    FulfilmentColumns(FULFILMENT_ORDER, env, db, t);
    F.ValidatedRuns(k, env, db, t, s);
    NamedInPlace(db, t);
    var sequel := if s == FulfilledTransSuccessful then Settle(NamedRebate(db, t).value) else Stop;
    UnrollUnder(k, env, db, t, Marking(s, sequel));
  }

  /**
    * A payment is marked with the status that the tables give it; the named rebate and its journal row are settled
    * exactly if that is FulfilledTransSuccessful. A failed read or mark changes nothing; after the mark, a failing
    * update leaves out itself and what follows.
    */
  lemma FulfilmentResult(k: Calls, env: Env, db: Db, t: Txn)
    requires t.kind == Fulfillment && Numbered(db) && t.id < |db.txns|
    ensures var db', s := FinishUnder(k, env, db, t, Start), FulfilmentStatus(env, db, t);
            if !k.look || (s != RebateIdNotFound && s != FulfilledTransUsedAlready && !k.relook) || !k.mark then db' == db
            else
              OnlyMarked(db, db', t, s)
              && (if s == FulfilledTransSuccessful && k.act then RebatePaid(db, db', t) else db'.rebates == db.rebates)
              && if s == FulfilledTransSuccessful && k.act && k.journal
                 then JournalSettled(db.journal, db'.journal, t, db.rebates[t.rebateId.value])
                 else db'.journal == db.journal
  {
    ValidatedResult(k, env, db, t);
    MarkedRow(db, t, FulfilmentStatus(env, db, t));
    if FulfilmentStatus(env, db, t) == FulfilledTransSuccessful {
      PaidColumns(k, env, Mark(db, t.id, FulfilledTransSuccessful), t);
    }
  }

  // ---- Refunds ----

  /** Only flags are set, and reports added. */
  ghost predicate OnlyReported(db: Db, db': Db) {
    db'.rebates == db.rebates && db'.journal == db.journal && db.reports <= db'.reports && |db'.txns| == |db.txns|
    && forall i :: 0 <= i < |db.txns| ==>
         db'.txns[i] == db.txns[i] || db'.txns[i] == db.txns[i].(reported := true)
  }

  lemma {:induction false} ReportingOnlyReports(k: Calls, env: Env, db: Db, t: Txn, todo: seq<Txn>)
    requires t.kind == Refund
    ensures OnlyReported(db, FinishUnder(k, env, db, t, Reporting(todo)))
    decreases |todo|
  {
    if todo == [] {
      UnrollUnder(k, env, db, t, Reporting(todo));
    } else {
      R.OneReport(k, env, db, t, todo);
      var x := todo[0];
      var next := if x.reported then db else FlagReported(InsertReport(db, x), x.id);
      ReportingOnlyReports(k, env, next, t, todo[1..]);
    }
  }

  lemma ActingOnlyReports(k: Calls, env: Env, db: Db, t: Txn)
    requires t.kind == Refund
    ensures OnlyReported(db, FinishUnder(k, env, db, t, Acting(ReportRefunds)))
  {
    UnrollUnder(k, env, db, t, Acting(ReportRefunds));
    var tracked := TrackedRefunds(db.txns, t.userId, t.offerId);
    if k.act && |tracked| >= 2 {
      UnrollUnder(k, env, db, t, Listed(tracked));
      ReportingOnlyReports(k, env, db, t, tracked + ReportableQualifying(db.txns, t.userId, t.offerId));
    }
  }

  /**
    * A refund is marked with the status that the tables give it, and then only reports and their flags follow, for a
    * known offer. A failed read or mark changes nothing.
    */
  lemma RefundResult(k: Calls, env: Env, db: Db, t: Txn)
    requires t.kind == Refund && Numbered(db) && t.id < |db.txns|
    ensures var db' := FinishUnder(k, env, db, t, Start);
            if !k.look || !k.mark then db' == db
            else
              var was := db.txns[t.id];
              var marked := db.(txns := db.txns[t.id := was.(processed := true, status := Some(RefundStatus(env, db, t)))]);
              if t.offerId in env.offers then OnlyReported(marked, db') else db' == marked
  {
    var s := RefundStatus(env, db, t);
    RefundColumns(env, db, t);
    R.ValidatedRuns(k, env, db, t, s);
    MarkedRow(db, t, s);
    ActingOnlyReports(k, env, Mark(db, t.id, s), t);
  }

  // ---- When no call fails ----

  /** The status of a row of any of the three kinds. */
  ghost function StatusOfRow(env: Env, db: Db, t: Txn): Option<Status> {
    match t.kind
    case Qualifying => QualifyingStatus(env, db, t)
    case Fulfillment => Some(FulfilmentStatus(env, db, t))
    case Refund => Some(RefundStatus(env, db, t))
    case OtherKind => None
  }

  /** With this status, or with none: nothing changes. Flags of refund reports are left open here. */
  ghost predicate RowLeaves(env: Env, db: Db, db': Db, t: Txn, s: Option<Status>)
    requires t.id < |db.txns|
  {
    if s.None? then db' == db
    else
      |db'.txns| == |db.txns| && db'.txns[t.id].processed && db'.txns[t.id].status == s
      && (forall i :: 0 <= i < |db.txns| && i != t.id ==> db'.txns[i].(reported := false) == db.txns[i].(reported := false))
      && if s == Some(RebateCreated) then OneIssued(env, db, db', t) && db'.journal == db.journal
         else if s == Some(FulfilledTransSuccessful) then RebateSettled(db, db', t)
         else db'.rebates == db.rebates && db'.journal == db.journal
  }

  lemma NeverSettles(env: Env, db: Db, t: Txn)
    ensures QualifyingStatus(env, db, t) != Some(FulfilledTransSuccessful)
  {
    WaterfallColumns(WATERFALL, env, db, t);
  }

  lemma MarkedLeaves(env: Env, db: Db, db': Db, t: Txn, s: Option<Status>)
    requires t.id < |db.txns| && s != Some(FulfilledTransSuccessful)
    requires s.None? ==> db' == db
    requires s.Some? ==> OnlyMarked(db, db', t, s.value) && db'.journal == db.journal
                         && if s.value == RebateCreated then OneIssued(env, db, db', t) else db'.rebates == db.rebates
    ensures RowLeaves(env, db, db', t, s)
  {
  }

  lemma QualifyingLeaves(env: Env, db: Db, t: Txn)
    requires t.kind == Qualifying && Numbered(db) && t.id < |db.txns|
    ensures RowLeaves(env, db, FinishUnder(NO_FAULTS, env, db, t, Start), t, QualifyingStatus(env, db, t))
  {
    QualifyingResult(NO_FAULTS, env, db, t);
    NeverSettles(env, db, t);
    MarkedLeaves(env, db, FinishUnder(NO_FAULTS, env, db, t, Start), t, QualifyingStatus(env, db, t));
  }

  lemma FulfilmentLeaves(env: Env, db: Db, t: Txn)
    requires t.kind == Fulfillment && Numbered(db) && t.id < |db.txns|
    ensures RowLeaves(env, db, FinishUnder(NO_FAULTS, env, db, t, Start), t, Some(FulfilmentStatus(env, db, t)))
  {
    FulfilmentResult(NO_FAULTS, env, db, t);
  }

  lemma RefundLeaves(env: Env, db: Db, t: Txn)
    requires t.kind == Refund && Numbered(db) && t.id < |db.txns|
    ensures RowLeaves(env, db, FinishUnder(NO_FAULTS, env, db, t, Start), t, Some(RefundStatus(env, db, t)))
  {
    RefundResult(NO_FAULTS, env, db, t);
  }

  /**
    * Processing writes the status that the tables give a row, and nothing where they give none. There is a new rebate
    * exactly for RebateCreated, and a settled one exactly for FulfilledTransSuccessful.
    */
  lemma RowResult(env: Env, db: Db, t: Txn)
    requires Numbered(db) && t.id < |db.txns|
    ensures RowLeaves(env, db, RunRow(env, db, t), t, StatusOfRow(env, db, t))
  {
    NoFaults(env, db, t, Start);
    match t.kind
    case Qualifying => QualifyingLeaves(env, db, t);
    case Fulfillment => FulfilmentLeaves(env, db, t);
    case Refund => RefundLeaves(env, db, t);
    case OtherKind => UnrollUnder(NO_FAULTS, env, db, t, Start);
  }

  /**
    * The rebate that a purchase earns is, in the unit of the offer's terms, within half a cent or half a point of what
    * they promise for its spend and base points.
    */
  lemma RebateKeepsPromise(env: Env, db: Db, t: Txn, terms: Reward.Terms)
    requires t.kind == Qualifying && Numbered(db) && t.id < |db.txns| && QualifyingStatus(env, db, t) == Some(RebateCreated)
    requires t.offerId in env.offers && env.offers[t.offerId].reward == Reward.Interpret(terms)
    requires terms.amount.coef >= 0 && t.amount >= 0 && t.basePoints >= 0
    ensures var db' := RunRow(env, db, t);
            |db'.rebates| == |db.rebates| + 1
            && var r := db'.rebates[|db.rebates|];
               var promised := Reward.Promised(terms, t.amount, t.basePoints);
               var half := if r.rewardType == Dollars then 0.005 else 0.5;
               (r.rewardType == Dollars <==> terms.benefit.DollarsOff? || terms.benefit.PercentageOffForDollars?)
               && promised - half < r.amount as real / 100.0 <= promised + half
  {
    RowResult(env, db, t);
    var c := env.offers[t.offerId];
    Reward.RewardNotNegative(terms, t.amount, t.basePoints);
    Reward.InterpretThenCalculate(terms, t.amount, t.basePoints);
    Reward.StoredWithinHalfUnit(RewardOf(c, t), c.reward.unit);
  }
}
