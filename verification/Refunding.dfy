/** The refund strategy: first-match validation, the update of the row, and the two report loops. */
module Refunding {
  import opened Domain
  import opened Store
  import opened Eligibility
  import opened RowSteps
  import opened Outcomes

  /** RefundContext: the row and its offer, if there is one. */
  datatype RefundContext = RefundContext(transaction: Txn, optionalCriteria: Option<Criteria>)

  predicate ContextOf(x: RefundContext, env: Env, t: Txn) {
    x.transaction == t
    && x.optionalCriteria == if t.offerId in env.offers then Some(env.offers[t.offerId]) else None
  }

  /** One state's test. The last two look into the offer, so it has to be there. */
  method Matches(x: RefundContext, state: Status, ghost env: Env, db: Database) returns (m: bool)
    requires ContextOf(x, env, x.transaction) && state in REFUND_ORDER
    requires state in [RefundNotTrackedForReporting, RefundTrackedForReporting] ==> x.optionalCriteria.Some?
    ensures m == RefundApplies(state, env, db.State(), x.transaction)
  {
    if state == OfferNotFound {
      m := x.optionalCriteria.None?;
    } else if state == RebateNotFound {
      m := Redeemed(db.rebates, x.transaction.userId, x.transaction.offerId, None) == 0;
    } else if state == RefundNotTrackedForReporting {
      m := !Tracking(x.optionalCriteria.value, x.transaction);
    } else {
      m := Tracking(x.optionalCriteria.value, x.transaction);
    }
  }

  /** RefundValidation: the highest-priority state that applies, never UnknownIssue. */
  method Validate(x: RefundContext, ghost env: Env, db: Database) returns (status: Status)
    requires ContextOf(x, env, x.transaction)
    ensures RefundVerdict(env, db.State(), x.transaction) == Some(status)
    ensures status in REFUND_ORDER && status != UnknownIssue
  {
    ghost var now, t := db.State(), x.transaction;
    var states := REFUND_ORDER;
    status := UnknownIssue;
    for i := 0 to |states|
      invariant status == UnknownIssue
      invariant forall j :: 0 <= j < i ==> !RefundApplies(states[j], env, now, t)
    {
      assert states[0] == OfferNotFound;
      var m := Matches(x, states[i], env, db);
      if m {
        status := states[i];
        FirstOfIsFirst(states, (s: Status) => RefundApplies(s, env, now, t));
        break;
      }
    }
    RefundVerdictTotal(env, now, t);
    FirstOfIsFirst(states, (s: Status) => RefundApplies(s, env, now, t));
  }

  /** A report and then its flag; an error in either ends the strategy. */
  method InsertRefundReportFromTransaction(x: Txn, db: Database, k: Calls) returns (ok: bool)
    modifies db
    ensures var was := old(db.State());
            (ok <==> x.reported || (k.report(x.id) && k.flag(x.id)))
            && db.State() == if x.reported || !k.report(x.id) then was
                             else if !k.flag(x.id) then InsertReport(was, x)
                             else FlagReported(InsertReport(was, x), x.id)
  {
    if x.reported {
      return true;
    }
    if !k.report(x.id) {
      return false;
    }
    db.InsertRefundReport(NewReport(x));
    if !k.flag(x.id) {
      return false;
    }
    db.UpdateTransaction(ReportCreated(x.id));
    ok := true;
  }

  lemma OneReport(k: Calls, env: Env, db: Db, t: Txn, todo: seq<Txn>)
    requires todo != []
    ensures var x := todo[0];
            FinishUnder(k, env, db, t, Reporting(todo)) ==
            if x.reported then FinishUnder(k, env, db, t, Reporting(todo[1..]))
            else if !k.report(x.id) then db
            else if !k.flag(x.id) then InsertReport(db, x)
            else FinishUnder(k, env, FlagReported(InsertReport(db, x), x.id), t, Reporting(todo[1..]))
  {
    UnrollUnder(k, env, db, t, Reporting(todo));
    if !todo[0].reported && k.report(todo[0].id) {
      UnrollUnder(k, env, InsertReport(db, todo[0]), t, Flagging(todo));
    }
  }

  /** One of the two loops. `after` is what the other loop still has to do. */
  method InsertReports(rows: seq<Txn>, db: Database, k: Calls, ghost env: Env, ghost t: Txn, ghost after: seq<Txn>)
    returns (ok: bool)
    modifies db
    ensures FinishUnder(k, env, old(db.State()), t, Reporting(rows + after)) ==
            if ok then FinishUnder(k, env, db.State(), t, Reporting(after)) else db.State()
  {
    ghost var was := db.State();
    for i := 0 to |rows|
      invariant FinishUnder(k, env, was, t, Reporting(rows + after)) ==
                FinishUnder(k, env, db.State(), t, Reporting(rows[i..] + after))
    {
      ghost var todo := rows[i..] + after;
      assert todo[0] == rows[i] && todo[1..] == rows[i + 1..] + after;
      OneReport(k, env, db.State(), t, todo);
      ok := InsertRefundReportFromTransaction(rows[i], db, k);
      if !ok {
        return;
      }
    }
    assert rows[|rows|..] + after == after;
    ok := true;
  }

  /** RefundReportCreate: with two tracked refunds, reports for all of them and for the purchases behind them. */
  method CreateReports(t: Txn, db: Database, k: Calls, ghost env: Env)
    modifies db
    ensures db.State() == FinishUnder(k, env, old(db.State()), t, Acting(ReportRefunds))
  {
    UnrollUnder(k, env, db.State(), t, Acting(ReportRefunds));
    if !k.act {
      return;
    }
    var refunds := TrackedRefunds(db.txns, t.userId, t.offerId);
    if |refunds| >= 2 {
      UnrollUnder(k, env, db.State(), t, Listed(refunds));
      if !k.list {
        return;
      }
      var purchases := ReportableQualifying(db.txns, t.userId, t.offerId);
      var ok := InsertReports(refunds, db, k, env, t, purchases);
      if ok {
        assert purchases + [] == purchases;
        ok := InsertReports(purchases, db, k, env, t, []);
        if ok { UnrollUnder(k, env, db.State(), t, Reporting([])); }
      }
    }
  }

  lemma ValidatedRuns(k: Calls, env: Env, db: Db, t: Txn, s: Status)
    requires t.kind == Refund && RefundVerdict(env, db, t) == Some(s)
    ensures FinishUnder(k, env, db, t, Start) ==
            if !k.look || !k.mark then db
            else if t.offerId in env.offers then FinishUnder(k, env, Mark(db, t.id, s), t, Acting(ReportRefunds))
            else Mark(db, t.id, s)
  {
    UnrollUnder(k, env, db, t, Start);
    UnrollUnder(k, env, db, t, Marking(s, if t.offerId in env.offers then ReportRefunds else Stop));
  }

  /** Processes the row: what is left in the tables is what the steps of the row leave, whichever calls fail. */
  method Perform(t: Txn, env: Env, db: Database, k: Calls)
    requires t.kind == Refund
    modifies db
    ensures db.State() == FinishUnder(k, env, old(db.State()), t, Start)
  {
    var context := RefundContext(t, if t.offerId in env.offers then Some(env.offers[t.offerId]) else None);
    var result := Validate(context, env, db);
    ValidatedRuns(k, env, db.State(), t, result);
    if !k.look || !k.mark {
      return;
    }
    db.UpdateTransaction(Processed(t.id, result));
    if context.optionalCriteria.Some? {
      CreateReports(t, db, k, env);
    }
  }
}
