/** The parallel batch refines a sequential pass: the tables themselves, not only each user's view of them. */
module Refinement {
  import opened Domain
  import opened Store
  import opened Eligibility
  import opened RowSteps
  import opened Views
  import opened Parallel

  function EraseAll(c: RebateId, s: seq<Rebate>): seq<Rebate> {
    if s == [] then [] else
    var n := |s| - 1;
    EraseAll(c, s[..n]) + [Erase(c, s[n])]
  }

  lemma {:induction false} ErasedCount(c: RebateId, s: seq<Rebate>, e: Rebate)
    ensures multiset(EraseAll(c, s))[e] == multiset(RebatesOf(e.userId, c, s))[e]
  {
    if s != [] {
      var n := |s| - 1;
      ErasedCount(c, s[..n], e);
      if s[n].userId != e.userId {
        assert RebatesOf(e.userId, c, s) == RebatesOf(e.userId, c, s[..n]) + [] == RebatesOf(e.userId, c, s[..n]);
      }
    }
  }

  lemma {:induction false} ReportCount(s: seq<RefundReport>, e: RefundReport)
    ensures multiset(s)[e] == multiset(ReportsOf(e.userId, s))[e]
  {
    if s != [] {
      var n := |s| - 1;
      assert s == s[..n] + [s[n]];
      ReportCount(s[..n], e);
      if s[n].userId != e.userId {
        assert ReportsOf(e.userId, s) == ReportsOf(e.userId, s[..n]) + [] == ReportsOf(e.userId, s[..n]);
      }
    }
  }

  lemma {:induction false} TxnsOfMembers(u: UserId, s: seq<Txn>)
    ensures forall t :: t in TxnsOf(u, s) <==> t in s && t.userId == u
  {
    if s != [] {
      assert s == s[..|s| - 1] + [s[|s| - 1]];
      TxnsOfMembers(u, s[..|s| - 1]);
    }
  }

  lemma {:induction false} JournalOfMembers(u: UserId, s: seq<JournalRow>)
    ensures forall j :: j in JournalOf(u, s) <==> j in s && j.clientId == u
  {
    if s != [] {
      assert s == s[..|s| - 1] + [s[|s| - 1]];
      JournalOfMembers(u, s[..|s| - 1]);
    }
  }

  ghost predicate SameForAll(c: RebateId, a: Db, b: Db) {
    forall u :: View(u, c, a) == View(u, c, b)
  }

  lemma TxnsContained(c: RebateId, a: Db, b: Db)
    requires Numbered(a) && Numbered(b) && SameForAll(c, a, b)
    ensures |a.txns| <= |b.txns| && forall i :: 0 <= i < |a.txns| ==> a.txns[i] == b.txns[i]
  {
    forall i | 0 <= i < |a.txns| ensures i < |b.txns| && a.txns[i] == b.txns[i] {
      var t := a.txns[i];
      assert View(t.userId, c, a) == View(t.userId, c, b);
      TxnsOfMembers(t.userId, a.txns);
      TxnsOfMembers(t.userId, b.txns);
    }
    if |a.txns| > 0 { assert a.txns[|a.txns| - 1].id < |b.txns|; }
  }

  lemma JournalContained(c: RebateId, a: Db, b: Db)
    requires Numbered(a) && Numbered(b) && SameForAll(c, a, b)
    ensures |a.journal| <= |b.journal| && forall i :: 0 <= i < |a.journal| ==> a.journal[i] == b.journal[i]
  {
    forall i | 0 <= i < |a.journal| ensures i < |b.journal| && a.journal[i] == b.journal[i] {
      var j := a.journal[i];
      assert View(j.clientId, c, a) == View(j.clientId, c, b);
      JournalOfMembers(j.clientId, a.journal);
      JournalOfMembers(j.clientId, b.journal);
    }
    if |a.journal| > 0 { assert a.journal[|a.journal| - 1].id < |b.journal|; }
  }

  lemma OldRebatesEqual(c: RebateId, a: Db, b: Db)
    requires Numbered(a) && Numbered(b) && SameForAll(c, a, b)
    requires c <= |a.rebates| && c <= |b.rebates|
    ensures a.rebates[..c] == b.rebates[..c]
  {
    forall i | 0 <= i < c ensures a.rebates[i] == b.rebates[i] {
      var r := a.rebates[i];
      assert View(r.userId, c, a) == View(r.userId, c, b);
      MembersOfView(a.rebates, r.userId, c);
      MembersOfView(b.rebates, r.userId, c);
      assert Erase(c, r) in RebatesOf(r.userId, c, b.rebates);
      var x :| x in b.rebates && x.userId == r.userId && Erase(c, x) == Erase(c, r);
    }
  }

  /** Equal up to the ids generated during the batch. */
  ghost predicate SameUpToNewIds(c: RebateId, a: Db, b: Db) {
    a.txns == b.txns
    && a.journal == b.journal
    && multiset(a.reports) == multiset(b.reports)
    && c <= |a.rebates| && c <= |b.rebates|
    && a.rebates[..c] == b.rebates[..c]
    && multiset(EraseAll(c, a.rebates)) == multiset(EraseAll(c, b.rebates))
  }

  lemma TablesFromViews(c: RebateId, a: Db, b: Db)
    requires Numbered(a) && Numbered(b) && SameForAll(c, a, b)
    requires c <= |a.rebates| && c <= |b.rebates|
    ensures SameUpToNewIds(c, a, b)
  {
    TxnsContained(c, a, b);
    TxnsContained(c, b, a);
    JournalContained(c, a, b);
    JournalContained(c, b, a);
    OldRebatesEqual(c, a, b);
    forall e: Rebate ensures multiset(EraseAll(c, a.rebates))[e] == multiset(EraseAll(c, b.rebates))[e] {
      ErasedCount(c, a.rebates, e);
      ErasedCount(c, b.rebates, e);
      assert View(e.userId, c, a) == View(e.userId, c, b);
    }
    forall e: RefundReport ensures multiset(a.reports)[e] == multiset(b.reports)[e] {
      ReportCount(a.reports, e);
      ReportCount(b.reports, e);
      assert View(e.userId, c, a) == View(e.userId, c, b);
    }
  }

  /** Nothing has been started yet; new rebate ids begin at the cutoff. */
  ghost predicate Fresh(c: RebateId, b: Batch) {
    c == |b.db.rebates| && forall w :: w in b.workers ==> w.phase == Start
  }

  /** The order of a sequential pass keeps the order each user's rows have at that user's worker. */
  ghost predicate KeepsUserOrder(home: UserId -> nat, b: Batch, order: seq<Txn>) {
    forall u :: home(u) < |b.workers| && RowsOf(u, order) == RowsOf(u, b.workers[home(u)].queue)
  }

  lemma OrderFits(own: Ownership, c: RebateId, home: UserId -> nat, b: Batch, order: seq<Txn>)
    requires Assigned(own, c, home, b) && KeepsUserOrder(home, b, order)
    ensures RowsFit(own, c, b.db, order)
  {
    forall t | t in order ensures OwnedTxn(own, c, t) && RowOf(b.db, t, t.userId) {
      assert t in RowsOf(t.userId, order);
      assert t in RowsOf(t.userId, b.workers[home(t.userId)].queue);
    }
  }

  lemma {:induction false} RunRowsKeepsOwned(env: Env, own: Ownership, c: RebateId, db: Db, rows: seq<Txn>)
    requires Owned(own, c, db) && RowsFit(own, c, db, rows)
    ensures Owned(own, c, RunRows(env, db, rows))
    decreases |rows|
  {
    if rows != [] {
      FinishKeepsOwned(env, own, c, db, rows[0], Start);
      RunRowsKeepsOwned(env, own, c, RunRow(env, db, rows[0]), rows[1..]);
    }
  }

  /**
    * Every interleaving of the workers that finishes leaves the same transactions, journal, refund reports and
    * rebates, up to generated ids, as one sequential pass that keeps each user's order.
    */
  lemma ParallelRefinesSequential(
      env: Env, own: Ownership, c: RebateId, home: UserId -> nat, b: Batch, schedule: seq<nat>, order: seq<Txn>)
    requires Assigned(own, c, home, b) && Fresh(c, b)
    requires KeepsUserOrder(home, b, order)
    requires AllDone(Interleave(env, b, schedule))
    ensures SameUpToNewIds(c, Interleave(env, b, schedule).db, RunRows(env, b.db, order))
  {
    var parallel, sequential := Interleave(env, b, schedule), RunRows(env, b.db, order);
    OrderFits(own, c, home, b, order);
    RunRowsKeepsOwned(env, own, c, b.db, order);
    InterleavedView(env, own, c, home, b, schedule, 0);
    forall u ensures View(u, c, parallel.db) == View(u, c, sequential) {
      InterleavedView(env, own, c, home, b, schedule, u);
      var w := b.workers[home(u)];
      assert w in b.workers && parallel.workers[home(u)] in parallel.workers;
      RemainingAtStart(env, b.db, w.queue, u);
      SequentialView(env, own, c, b.db, order, u);
    }
    TablesFromViews(c, parallel.db, sequential);
  }

  /** So any two finished interleavings agree, whatever the number of workers. */
  lemma InterleavingsAgree(
      env: Env, own: Ownership, c: RebateId,
      home1: UserId -> nat, b1: Batch, schedule1: seq<nat>, home2: UserId -> nat, b2: Batch, schedule2: seq<nat>)
    requires Assigned(own, c, home1, b1) && Fresh(c, b1) && AllDone(Interleave(env, b1, schedule1))
    requires Assigned(own, c, home2, b2) && Fresh(c, b2) && AllDone(Interleave(env, b2, schedule2))
    requires b1.db == b2.db
    requires forall u :: RowsOf(u, b1.workers[home1(u)].queue) == RowsOf(u, b2.workers[home2(u)].queue)
    ensures SameUpToNewIds(c, Interleave(env, b1, schedule1).db, Interleave(env, b2, schedule2).db)
  {
    var e1, e2 := Interleave(env, b1, schedule1), Interleave(env, b2, schedule2);
    InterleavedView(env, own, c, home1, b1, schedule1, 0);
    InterleavedView(env, own, c, home2, b2, schedule2, 0);
    forall u ensures View(u, c, e1.db) == View(u, c, e2.db) {
      InterleavedView(env, own, c, home1, b1, schedule1, u);
      InterleavedView(env, own, c, home2, b2, schedule2, u);
      var w1, w2 := b1.workers[home1(u)], b2.workers[home2(u)];
      assert w1 in b1.workers && e1.workers[home1(u)] in e1.workers;
      assert w2 in b2.workers && e2.workers[home2(u)] in e2.workers;
      RemainingAtStart(env, b1.db, w1.queue, u);
      RemainingAtStart(env, b2.db, w2.queue, u);
    }
    TablesFromViews(c, e1.db, e2.db);
  }

  // ---- One order that always qualifies: worker after worker ----

  function OneAfterAnother(workers: seq<Worker>): seq<Txn> {
    if workers == [] then [] else OneAfterAnother(workers[..|workers| - 1]) + workers[|workers| - 1].queue
  }

  lemma {:induction false} RowsOfBoth(u: UserId, a: seq<Txn>, b: seq<Txn>)
    ensures RowsOf(u, a + b) == RowsOf(u, a) + RowsOf(u, b)
  {
    if a == [] {
      assert a + b == b;
    } else {
      assert (a + b)[1..] == a[1..] + b;
      RowsOfBoth(u, a[1..], b);
    }
  }

  lemma {:induction false} NoRowsOf(u: UserId, rows: seq<Txn>)
    requires forall t :: t in rows ==> t.userId != u
    ensures RowsOf(u, rows) == []
  {
    if rows != [] {
      assert rows[0] in rows;
      NoRowsOf(u, rows[1..]);
    }
  }

  lemma {:induction false} RowsOfAll(u: UserId, h: nat, workers: seq<Worker>)
    requires forall w, t :: 0 <= w < |workers| && w != h && t in workers[w].queue ==> t.userId != u
    ensures RowsOf(u, OneAfterAnother(workers)) == if h < |workers| then RowsOf(u, workers[h].queue) else []
  {
    if workers != [] {
      var n := |workers| - 1;
      RowsOfAll(u, h, workers[..n]);
      RowsOfBoth(u, OneAfterAnother(workers[..n]), workers[n].queue);
      if n != h {
        NoRowsOf(u, workers[n].queue);
      }
    }
  }

  /** Each worker holds rows of its own users only. */
  ghost predicate AtHome(home: UserId -> nat, b: Batch) {
    (forall u :: home(u) < |b.workers|)
    && forall w, t :: 0 <= w < |b.workers| && t in b.workers[w].queue ==> home(t.userId) == w
  }

  /** Running the workers one after another is such a sequential pass, so one always exists. */
  lemma OneAfterAnotherKeepsOrder(home: UserId -> nat, b: Batch)
    requires AtHome(home, b)
    ensures KeepsUserOrder(home, b, OneAfterAnother(b.workers))
  {
    forall u ensures RowsOf(u, OneAfterAnother(b.workers)) == RowsOf(u, b.workers[home(u)].queue) {
      RowsOfAll(u, home(u), b.workers);
    }
  }
}
