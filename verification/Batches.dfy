/** A batch as the master starts it: assign, load each worker's list, run in any interleaving. */
module Batches {
  import opened Domain
  import opened Store
  import opened Eligibility
  import opened RowSteps
  import opened Assignment
  import opened Views
  import opened Parallel
  import opened Refinement

  function Home(hash: UserId -> int, n: nat): UserId -> nat
    requires n > 0
  {
    (u: UserId) => ProcessorInRange(hash(u), n); Processor(hash(u), n) - 1
  }

  /** One pending list for each of the n workers, read after the assignment. */
  ghost predicate Loaded(db: Db, hash: UserId -> int, lists: seq<seq<Txn>>)
    requires |lists| > 0
  {
    forall i :: 0 <= i < |lists| ==> IsPendingList(AssignWorkers(db, hash, |lists|), i + 1, lists[i])
  }

  function Started(db: Db, hash: UserId -> int, lists: seq<seq<Txn>>): Batch
    requires |lists| > 0
  {
    Batch(AssignWorkers(db, hash, |lists|), seq(|lists|, i requires 0 <= i < |lists| => Worker(lists[i], Start)))
  }

  lemma PendingRow(db: Db, hash: UserId -> int, n: nat, i: nat, rows: seq<Txn>, t: Txn)
    requires n > 0 && Numbered(db) && IsPendingList(AssignWorkers(db, hash, n), i + 1, rows) && t in rows
    ensures var db' := AssignWorkers(db, hash, n);
            t.id < |db'.txns| && db'.txns[t.id] == t && !t.processed && Home(hash, n)(t.userId) == i
  {
    var db' := AssignWorkers(db, hash, n);
    var k :| 0 <= k < |db'.txns| && db'.txns[k] == t;
  }

  /** The assignment gives every worker only rows of its own users that are still pending, whatever the hash. */
  lemma AssignmentPlacesRows(db: Db, hash: UserId -> int, lists: seq<seq<Txn>>)
    requires |lists| > 0 && Numbered(db) && Loaded(db, hash, lists)
    ensures var b := Started(db, hash, lists);
            AtHome(Home(hash, |lists|), b)
            && forall w, t :: 0 <= w < |b.workers| && t in b.workers[w].queue ==>
                 t.id < |b.db.txns| && b.db.txns[t.id] == t && !t.processed
  {
    var b, n := Started(db, hash, lists), |lists|;
    forall u ensures Home(hash, n)(u) < n {
      ProcessorInRange(hash(u), n);
    }
    forall i, t | 0 <= i < n && t in lists[i]
      ensures t.id < |b.db.txns| && b.db.txns[t.id] == t && !t.processed && Home(hash, n)(t.userId) == i
    {
      PendingRow(db, hash, n, i, lists[i], t);
    }
  }

  /** No id is shared between users, as far as the pending rows are concerned. */
  ghost predicate PendingOwned(own: Ownership, db: Db) {
    Owned(own, |db.rebates|, db) && forall t :: t in db.txns && !t.processed ==> OwnedTxn(own, |db.rebates|, t)
  }

  lemma AssignmentStartsBatch(own: Ownership, db: Db, hash: UserId -> int, lists: seq<seq<Txn>>)
    requires |lists| > 0 && PendingOwned(own, db) && Loaded(db, hash, lists)
    ensures var b := Started(db, hash, lists);
            Assigned(own, |db.rebates|, Home(hash, |lists|), b) && Fresh(|db.rebates|, b)
  {
    var b, c := Started(db, hash, lists), |db.rebates|;
    AssignmentPlacesRows(db, hash, lists);
    forall w, t | 0 <= w < |b.workers| && t in b.workers[w].queue ensures OwnedTxn(own, c, t) {
      assert db.txns[t.id] in db.txns && OwnedTxn(own, c, db.txns[t.id]);
    }
  }

  /**
    * A batch of n workers, assigned by any hash and run in any interleaving to its end, leaves what one sequential
    * pass leaves that keeps each user's order.
    */
  lemma AssignedBatchRefinesSequential(
      env: Env, own: Ownership, db: Db, hash: UserId -> int, lists: seq<seq<Txn>>, schedule: seq<nat>, order: seq<Txn>)
    requires |lists| > 0 && PendingOwned(own, db) && Loaded(db, hash, lists)
    requires AllDone(Interleave(env, Started(db, hash, lists), schedule))
    requires KeepsUserOrder(Home(hash, |lists|), Started(db, hash, lists), order)
    ensures var b := Started(db, hash, lists);
            SameUpToNewIds(|db.rebates|, Interleave(env, b, schedule).db, RunRows(env, b.db, order))
  {
    AssignmentStartsBatch(own, db, hash, lists);
    ParallelRefinesSequential(
      env, own, |db.rebates|, Home(hash, |lists|), Started(db, hash, lists), schedule, order);
  }
}
