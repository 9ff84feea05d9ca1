/** Processing one transaction row as a sequence of separate database accesses. */
module RowSteps {
  import opened Domain
  import opened Store
  import opened Eligibility
  import Reward

  /** What follows the update that marks a row as processed. */
  datatype Sequel = Stop | Issue(amount: Cents, unit: RewardType) | Settle(rebate: Rebate) | ReportRefunds

  datatype Phase =
    | Start                                          // nothing read yet
    | LimitSeen                                      // qualifying: screened and under its limit
    | PaymentUnusedSeen                              // fulfilment: names a rebate, payment not used so far
    | Marking(status: Status, sequel: Sequel)        // decided; the row is updated next
    | Acting(sequel: Sequel)                         // the second write is next
    | Journaling(rebate: Rebate)                     // fulfilment: rebate settled, journal is next
    | Listed(tracked: seq<Txn>)                      // refund: tracked refunds read
    | Reporting(todo: seq<Txn>)                      // refund: at the top of the report loops
    | Flagging(todo: seq<Txn>)                       // refund: report of todo[0] inserted, its flag is next
    | Done

  function After(sequel: Sequel): Phase {
    if sequel == Stop then Done else Acting(sequel)
  }

  /** After the first reads of a row, chosen by the strategy that matches its type. */
  function Begin(env: Env, db: Db, t: Txn): Phase {
    match t.kind
    case Qualifying => Screened(env, db, t)
    case Fulfillment =>
      (match FulfilmentVerdict(FIRST_LOOK, env, db, t)
       case None => PaymentUnusedSeen
       case Some(s) => Marking(s, Stop))
    case Refund =>
      (match RefundVerdict(env, db, t)
       case None => Done
       case Some(s) => Marking(s, if t.offerId in env.offers then ReportRefunds else Stop))
    case OtherKind => Done
  }

  function Screened(env: Env, db: Db, t: Txn): Phase {
    match FirstFailing(SCREENING, env, db, t)
    case None => LimitSeen
    case Some(check) => Refused(check, env, t)
  }

  function Refused(check: Check, env: Env, t: Txn): Phase {
    match StatusFor(check, env, t)
    case None => Done
    case Some(s) => Marking(s, Stop)
  }

  /** After the second read of a qualifying row. */
  function Concluded(env: Env, db: Db, t: Txn): Phase {
    match FirstFailing(CONCLUDING, env, db, t)
    case Some(check) => Refused(check, env, t)
    case None =>
      if t.offerId !in env.offers then Done else
      var c := env.offers[t.offerId];
      Marking(RebateCreated, Issue(Reward.StoredAmount(RewardOf(c, t), c.reward.unit), c.reward.unit))
  }

  /** After the second read of a fulfilment. */
  function Validated(env: Env, db: Db, t: Txn): Phase {
    match FulfilmentVerdict(SECOND_LOOK, env, db, t)
    case None => Done
    case Some(s) =>
      if s == FulfilledTransSuccessful && NamedRebate(db, t).Some?
      then Marking(s, Settle(NamedRebate(db, t).value)) else Marking(s, Stop)
  }

  function SettledCopy(r: Rebate, t: Txn): Rebate {
    UpdateRebate(r, Settled(r.id, t.txnId, t.amount, t.id))
  }

  /**
    * One access. `ok` tells whether the call succeeds. Qualifying rows swallow a failed mark and go on; every
    * other failure abandons the row.
    */
  function Step(env: Env, db: Db, t: Txn, p: Phase, ok: bool): (Db, Phase) {
    if !ok then (db, if p.Marking? && t.kind == Qualifying then After(p.sequel) else Done) else
    match p
    case Start => (db, Begin(env, db, t))
    case LimitSeen => (db, Concluded(env, db, t))
    case PaymentUnusedSeen => (db, Validated(env, db, t))
    case Marking(s, sequel) => (Mark(db, t.id, s), After(sequel))
    case Acting(Stop) => (db, Done)
    case Acting(Issue(a, unit)) => (InsertRebate(db, t, a, unit), Done)
    case Acting(Settle(r)) => (SettleRebate(db, r.id, t), Journaling(SettledCopy(r, t)))
    case Acting(ReportRefunds) =>
      var tracked := TrackedRefunds(db.txns, t.userId, t.offerId);
      (db, if |tracked| >= 2 then Listed(tracked) else Done)
    case Journaling(r) => (SettleJournal(db, t, r), Done)
    case Listed(tracked) => (db, Reporting(tracked + ReportableQualifying(db.txns, t.userId, t.offerId)))
    case Reporting(todo) =>
      if todo == [] then (db, Done)
      else if todo[0].reported then (db, Reporting(todo[1..]))
      else (InsertReport(db, todo[0]), Flagging(todo))
    case Flagging(todo) =>
      if todo == [] then (db, Done) else (FlagReported(db, todo[0].id), Reporting(todo[1..]))
    case Done => (db, Done)
  }

  function Stage(p: Phase): nat {
    match p
    case Start => 7
    case LimitSeen => 6
    case PaymentUnusedSeen => 6
    case Marking(_, _) => 5
    case Acting(_) => 4
    case Journaling(_) => 3
    case Listed(_) => 3
    case Reporting(_) => 2
    case Flagging(_) => 2
    case Done => 0
  }

  function Size(p: Phase): nat {
    match p
    case Reporting(todo) => 2 * |todo| + 1
    case Flagging(todo) => 2 * |todo|
    case _ => 0
  }

  /** Every step that succeeds on an unfinished row makes progress; so does every failure. */
  lemma StepProgress(env: Env, db: Db, t: Txn, p: Phase, ok: bool)
    requires p != Done
    ensures var q := Step(env, db, t, p, ok).1;
            Stage(q) < Stage(p) || (Stage(q) == Stage(p) && Size(q) < Size(p))
  {
  }

  /** Runs the row from a phase to its end, with every call succeeding. */
  function FinishRow(env: Env, db: Db, t: Txn, p: Phase): Db
    decreases Stage(p), Size(p)
  {
    if p == Done then db else
    StepProgress(env, db, t, p, true);
    var (db', p') := Step(env, db, t, p, true);
    FinishRow(env, db', t, p')
  }

  function RunRow(env: Env, db: Db, t: Txn): Db {
    FinishRow(env, db, t, Start)
  }

  function RunRows(env: Env, db: Db, rows: seq<Txn>): Db
    decreases |rows|
  {
    if rows == [] then db else RunRows(env, RunRow(env, db, rows[0]), rows[1..])
  }

  // ---- A row whose calls may fail ----

  /** Which calls succeed: all reads of the first look, all of the second, then each write and what is read for it. */
  datatype Calls = Calls(
    look: bool, relook: bool, mark: bool, act: bool, journal: bool, list: bool,
    report: RowId -> bool, flag: RowId -> bool)

  predicate Succeeds(k: Calls, p: Phase) {
    match p
    case Start => k.look
    case LimitSeen => k.relook
    case PaymentUnusedSeen => k.relook
    case Marking(_, _) => k.mark
    case Acting(_) => k.act
    case Journaling(_) => k.journal
    case Listed(_) => k.list
    case Reporting(todo) => todo == [] || todo[0].reported || k.report(todo[0].id)
    case Flagging(todo) => todo == [] || k.flag(todo[0].id)
    case Done => true
  }

  /** Runs the row from a phase to its end, with these calls failing. */
  function FinishUnder(k: Calls, env: Env, db: Db, t: Txn, p: Phase): Db
    decreases Stage(p), Size(p)
  {
    if p == Done then db else
    StepProgress(env, db, t, p, Succeeds(k, p));
    var (db', p') := Step(env, db, t, p, Succeeds(k, p));
    FinishUnder(k, env, db', t, p')
  }

  const NO_FAULTS := Calls(true, true, true, true, true, true, (x: RowId) => true, (x: RowId) => true)

  lemma {:induction false} NoFaults(env: Env, db: Db, t: Txn, p: Phase)
    ensures FinishUnder(NO_FAULTS, env, db, t, p) == FinishRow(env, db, t, p)
    decreases Stage(p), Size(p)
  {
    if p != Done {
      assert Succeeds(NO_FAULTS, p);
      StepProgress(env, db, t, p, true);
      var (db', p') := Step(env, db, t, p, true);
      NoFaults(env, db', t, p');
    }
  }

  function RunRowsUnder(k: RowId -> Calls, env: Env, db: Db, rows: seq<Txn>): Db
    decreases |rows|
  {
    if rows == [] then db
    else RunRowsUnder(k, env, FinishUnder(k(rows[0].id), env, db, rows[0], Start), rows[1..])
  }
}
