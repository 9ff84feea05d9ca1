/** The loop over a worker's pending rows. */
module Processing {
  import opened Domain
  import opened Store
  import opened Eligibility
  import opened RowSteps
  import opened Outcomes
  import opened Assignment
  import Qualifying
  import Fulfilment
  import Refunding

  /** Finds the strategy for the row's type; a type without one is an error that is logged. */
  method ProcessTransaction(t: Txn, env: Env, db: Database, k: Calls)
    modifies db
    ensures db.State() == FinishUnder(k, env, old(db.State()), t, Start)
  {
    match t.kind {
      case Qualifying =>
        var strategy := new Qualifying.QualifyingStrategy(t);
        strategy.Perform(env, db, k);
      case Fulfillment => Fulfilment.Perform(t, env, db, k);
      case Refund => Refunding.Perform(t, env, db, k);
      case OtherKind =>
    }
  }

  /** All pending rows of a worker one after the other, oldest first. `calls` tells which calls fail. */
  method Perform(workerNumber: int, env: Env, db: Database, calls: RowId -> Calls) returns (pending: seq<Txn>)
    requires Numbered(db.State())
    modifies db
    ensures IsPendingList(old(db.State()), workerNumber, pending)
    ensures db.State() == RunRowsUnder(calls, env, old(db.State()), pending)
  {
    ghost var was := db.State();
    pending := PendingList(db.txns, workerNumber);
    PendingListIsOne(was, was.txns, workerNumber);
    for i := 0 to |pending|
      invariant RunRowsUnder(calls, env, was, pending) == RunRowsUnder(calls, env, db.State(), pending[i..])
    {
      assert pending[i..][1..] == pending[i + 1..];
      ProcessTransaction(pending[i], env, db, calls(pending[i].id));
    }
    assert pending[|pending|..] == [];
  }

  /** When no call fails, a row comes to the closed form of its strategy. */
  lemma WithoutFaultsRow(env: Env, db: Db, t: Txn)
    ensures FinishUnder(NO_FAULTS, env, db, t, Start) == RowOutcome(env, db, t)
  {
    NoFaults(env, db, t, Start);
    RowComesTo(env, db, t);
  }

  /** And a worker's loop comes to the sequential pass that parallel batches are compared with. */
  lemma {:induction false} WithoutFaults(env: Env, db: Db, rows: seq<Txn>)
    ensures RunRowsUnder((x: RowId) => NO_FAULTS, env, db, rows) == RunRows(env, db, rows)
    decreases |rows|
  {
    if rows != [] {
      NoFaults(env, db, rows[0], Start);
      WithoutFaults(env, RunRow(env, db, rows[0]), rows[1..]);
    }
  }
}
