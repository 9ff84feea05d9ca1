/** The fulfilment strategy as objects: a context that remembers the rebate, first-match validation, three updates. */
module Fulfilment {
  import opened Domain
  import opened Store
  import opened Eligibility
  import opened RowSteps
  import opened Outcomes

  /** Reads the rebate only once, and again whenever the last read found none. */
  class FulfillmentContext {
    const transaction: Txn
    var rebate: Option<Rebate>

    ghost predicate Valid(db: Db)
      reads this
    {
      rebate.Some? ==> rebate == NamedRebate(db, transaction)
    }

    constructor (t: Txn)
      ensures transaction == t && rebate.None?
    {
      transaction, rebate := t, None;
    }

    method GetRebate(db: Database) returns (r: Option<Rebate>)
      requires Valid(db.State())
      modifies this`rebate
      ensures Valid(db.State()) && r == rebate && r == NamedRebate(db.State(), transaction)
    {
      if rebate.None? {
        rebate := NamedRebate(db.State(), transaction);
      }
      r := rebate;
    }

    /** One state's test. The last three dereference the rebate, so it has to be there. */
    method Matches(state: Status, env: Env, db: Database) returns (m: bool)
      requires Valid(db.State()) && state in FULFILMENT_ORDER
      requires state in [FulfilledTransHasDiffAccount, FulfilledTransHasWrongAmount, RebateNotPending] ==>
                 NamedRebate(db.State(), transaction).Some?
      modifies this`rebate
      ensures Valid(db.State()) && m == FulfilmentApplies(state, env, db.State(), transaction)
    {
      match state {
        case RebateIdNotFound => m := transaction.rebateId.None?;
        case FulfilledTransUsedAlready => m := HasFulfilled(db.rebates, transaction.txnId);
        case CannotFindClient => m := transaction.userId !in env.users;
        case RebateNotFound =>
          var r := GetRebate(db);
          m := r.None?;
        case FulfilledTransHasDiffAccount =>
          var r := GetRebate(db);
          m := r.value.accountId != transaction.accountId;
        case FulfilledTransHasWrongAmount =>
          var r := GetRebate(db);
          m := r.value.amount != transaction.amount;
        case RebateNotPending =>
          var r := GetRebate(db);
          m := r.value.status != PendingFulfillment;
        case _ => m := true;
      }
    }
  }

  /** Once the first four states are ruled out the rebate exists. */
  lemma RebateIsThere(order: seq<Status>, i: nat, env: Env, db: Db, t: Txn)
    requires order == FULFILMENT_ORDER && i < |order|
    requires forall j :: 0 <= j < i ==> !FulfilmentApplies(order[j], env, db, t)
    ensures order[i] in [FulfilledTransHasDiffAccount, FulfilledTransHasWrongAmount, RebateNotPending] ==>
              NamedRebate(db, t).Some?
  {
    assert order[0] == RebateIdNotFound && order[1] == FulfilledTransUsedAlready
           && order[2] == CannotFindClient && order[3] == RebateNotFound;
  }

  /**
    * FulfillmentValidation: the highest-priority state that applies. No state's test is ever made on a missing
    * rebate, and UnknownIssue is never the answer.
    */
  method Validate(context: FulfillmentContext, env: Env, db: Database) returns (status: Status)
    requires context.Valid(db.State())
    modifies context`rebate
    ensures context.Valid(db.State())
    ensures FulfilmentVerdict(FULFILMENT_ORDER, env, db.State(), context.transaction) == Some(status)
    ensures status in FULFILMENT_ORDER && status != UnknownIssue
  {
    ghost var now, t := db.State(), context.transaction;
    var states := FULFILMENT_ORDER;
    status := UnknownIssue;
    for i := 0 to |states|
      invariant context.Valid(now) && status == UnknownIssue
      invariant forall j :: 0 <= j < i ==> !FulfilmentApplies(states[j], env, now, t)
    {
      RebateIsThere(states, i, env, now, t);
      var m := context.Matches(states[i], env, db);
      if m {
        status := states[i];
        FoundFirst(states, i, env, now, t);
        break;
      }
    }
    FulfilmentVerdictTotal(env, now, t);
    NoneFound(states, env, now, t);
  }

  lemma FoundFirst(order: seq<Status>, i: nat, env: Env, db: Db, t: Txn)
    requires i < |order| && FulfilmentApplies(order[i], env, db, t)
    requires forall j :: 0 <= j < i ==> !FulfilmentApplies(order[j], env, db, t)
    ensures FulfilmentVerdict(order, env, db, t) == Some(order[i])
  {
    FirstOfIsFirst(order, (s: Status) => FulfilmentApplies(s, env, db, t));
  }

  lemma NoneFound(order: seq<Status>, env: Env, db: Db, t: Txn)
    ensures FulfilmentVerdict(order, env, db, t).Some? ==>
              exists j :: 0 <= j < |order| && FulfilmentApplies(order[j], env, db, t)
  {
    FirstOfIsFirst(order, (s: Status) => FulfilmentApplies(s, env, db, t));
  }

  /** SuccessfulFulfilledRebate: the row first, then the remembered rebate as well. */
  method SettleNamedRebate(context: FulfillmentContext, db: Database, ok: bool)
    requires context.Valid(db.State()) && NamedRebate(db.State(), context.transaction).Some?
    modifies context`rebate, db`rebates
    ensures var r := NamedRebate(old(db.State()), context.transaction).value; var t := context.transaction;
            if ok then db.State() == SettleRebate(old(db.State()), r.id, t) && context.rebate == Some(SettledCopy(r, t))
            else db.State() == old(db.State())
  {
    var rebate := context.GetRebate(db);
    var t := context.transaction;
    if ok {
      db.UpdateRebateRows(Settled(rebate.value.id, t.txnId, t.amount, t.id));
      context.rebate := Some(SettledCopy(rebate.value, t));
    }
  }

  /** RebateJournalReportUpdate: the open journal row of the rebate's client, or an error that changes nothing. */
  method UpdateJournalReport(context: FulfillmentContext, db: Database, ok: bool)
    requires context.rebate.Some?
    modifies db`journal
    ensures db.State() == if ok then SettleJournal(old(db.State()), context.transaction, context.rebate.value)
                          else old(db.State())
  {
    if ok {
      var r := context.rebate.value;
      var existing := FindJournal(db.journal, r.userId, r.id);
      if existing.Some? {
        db.UpdateJournalRow(existing.value.id, context.transaction, r);
      }
    }
  }

  lemma WhichLook(env: Env, db: Db, t: Txn, s: Status)
    requires FulfilmentVerdict(FULFILMENT_ORDER, env, db, t) == Some(s)
    ensures s in FIRST_LOOK ==> FulfilmentVerdict(FIRST_LOOK, env, db, t) == Some(s) && s != FulfilledTransSuccessful
    ensures s !in FIRST_LOOK ==>
              FulfilmentVerdict(FIRST_LOOK, env, db, t).None? && FulfilmentVerdict(SECOND_LOOK, env, db, t) == Some(s)
    ensures s == FulfilledTransSuccessful ==> NamedRebate(db, t).Some?
  {
    FulfilmentVerdictTotal(env, db, t);
    FirstOfSkips(FIRST_LOOK, SECOND_LOOK, (x: Status) => FulfilmentApplies(x, env, db, t));
    FirstLookTotal(env, db, t);
    FirstOfMember(SECOND_LOOK, (x: Status) => FulfilmentApplies(x, env, db, t));
  }

  lemma ValidatedRuns(k: Calls, env: Env, db: Db, t: Txn, s: Status)
    requires t.kind == Fulfillment && FulfilmentVerdict(FULFILMENT_ORDER, env, db, t) == Some(s)
    ensures s == FulfilledTransSuccessful ==> NamedRebate(db, t).Some?
    ensures FinishUnder(k, env, db, t, Start) ==
            if !k.look || (s !in FIRST_LOOK && !k.relook) then db
            else FinishUnder(k, env, db, t,
                   Marking(s, if s == FulfilledTransSuccessful then Settle(NamedRebate(db, t).value) else Stop))
  {
    WhichLook(env, db, t, s);
    UnrollUnder(k, env, db, t, Start);
    if k.look && s !in FIRST_LOOK {
      UnrollUnder(k, env, db, t, PaymentUnusedSeen);
    }
  }

  /** Processes the row: what is left in the tables is what the steps of the row leave, whichever calls fail. */
  method Perform(t: Txn, env: Env, db: Database, k: Calls)
    requires t.kind == Fulfillment
    modifies db
    ensures db.State() == FinishUnder(k, env, old(db.State()), t, Start)
  {
    ghost var was := db.State();
    var context := new FulfillmentContext(t);
    var result := Validate(context, env, db);
    ValidatedRuns(k, env, was, t, result);
    if !k.look || (result !in FIRST_LOOK && !k.relook) {
      return;
    }
    if !k.mark {
      UnrollUnder(k, env, was, t,
        Marking(result, if result == FulfilledTransSuccessful then Settle(NamedRebate(was, t).value) else Stop));
      return;
    }
    db.UpdateTransaction(Processed(t.id, result));
    if result == FulfilledTransSuccessful {
      Settling(context, env, db, k, was);
    } else {
      UnrollUnder(k, env, was, t, Marking(result, Stop));
    }
  }

  method Settling(context: FulfillmentContext, env: Env, db: Database, k: Calls, ghost was: Db)
    requires NamedRebate(was, context.transaction).Some? && context.Valid(was) && k.mark
    requires context.transaction.kind == Fulfillment
    requires db.State() == Mark(was, context.transaction.id, FulfilledTransSuccessful)
    modifies context`rebate, db
    ensures var t := context.transaction;
            db.State() == FinishUnder(k, env, was, t, Marking(FulfilledTransSuccessful, Settle(NamedRebate(was, t).value)))
  {
    ghost var t, r, marked := context.transaction, NamedRebate(was, context.transaction).value, db.State();
    assert NamedRebate(marked, t) == NamedRebate(was, t);
    UnrollUnder(k, env, was, t, Marking(FulfilledTransSuccessful, Settle(r)));
    UnrollUnder(k, env, marked, t, Acting(Settle(r)));
    SettleNamedRebate(context, db, k.act);
    if k.act {
      UnrollUnder(k, env, db.State(), t, Journaling(SettledCopy(r, t)));
      UpdateJournalReport(context, db, k.journal);
    }
  }
}
