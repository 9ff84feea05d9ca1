/** Without the discipline: two users whose rows carry one transaction id. */
module SharedIds {
  import opened Domain
  import opened Store
  import opened Eligibility
  import opened RowSteps
  import opened Outcomes
  import opened Assignment
  import opened Parallel
  import opened Batches
  import opened Issuance
  import Verdicts

  predicate WouldIssue(env: Env, db: Db, t: Txn) {
    t.kind == Qualifying && FirstFailing(SCREENING, env, db, t).None? && FirstFailing(CONCLUDING, env, db, t).None?
  }

  lemma WouldIssueIff(env: Env, db: Db, t: Txn)
    requires t.kind == Qualifying
    ensures WouldIssue(env, db, t) <==> Verdicts.QualifyingStatus(env, db, t) == Some(RebateCreated)
  {
    Verdicts.CreatedIff(env, db, t);
    FirstOfSkips(SCREENING, CONCLUDING, (c: Check) => !Holds(c, env, db, t));
  }

  // ---- A schedule that issues twice ----

  lemma TwiceAndOn(env: Env, b: Batch, w: nat, later: seq<nat>)
    ensures Interleave(env, b, [w, w] + later) == Interleave(env, Advance(env, Advance(env, b, w), w), later)
  {
    assert ([w, w] + later)[1..] == [w] + later && ([w] + later)[1..] == later;
  }

  lemma TwoReads(env: Env, b: Batch, w: nat, t: Txn)
    requires w < |b.workers| && b.workers[w] == Worker([t], Start) && WouldIssue(env, b.db, t)
    ensures var b' := Advance(env, Advance(env, b, w), w);
            b' == b.(workers := b.workers[w := Worker([t], Concluded(env, b.db, t))]) && Issuing(Concluded(env, b.db, t))
  {
    ConcludesToIssue(env, b.db, t);
    assert Advance(env, b, w) == b.(workers := b.workers[w := Worker([t], LimitSeen)]);
  }

  lemma TwoWrites(env: Env, b: Batch, w: nat, t: Txn)
    requires AboutToIssue(b, w, t)
    ensures var b' := Advance(env, Advance(env, b, w), w);
            var issue := b.workers[w].phase.sequel;
            b'.db.rebates == b.db.rebates + [NewRebate(|b.db.rebates|, t, issue.amount, issue.unit)]
            && |b'.workers| == |b.workers| && forall v :: 0 <= v < |b.workers| && v != w ==> b'.workers[v] == b.workers[v]
  {
  }

  function Alternating(i: nat, j: nat): seq<nat> {
    [i, i] + ([j, j] + ([i, i] + ([j, j] + [])))
  }

  lemma AlternatingComesTo(env: Env, b0: Batch, i: nat, j: nat)
    ensures var b1 := Advance(env, Advance(env, b0, i), i);
            var b2 := Advance(env, Advance(env, b1, j), j);
            var b3 := Advance(env, Advance(env, b2, i), i);
            Interleave(env, b0, Alternating(i, j)) == Advance(env, Advance(env, b3, j), j)
  {
    var b1 := Advance(env, Advance(env, b0, i), i);
    var b2 := Advance(env, Advance(env, b1, j), j);
    TwiceAndOn(env, b0, i, [j, j] + ([i, i] + ([j, j] + [])));
    TwiceAndOn(env, b1, j, [i, i] + ([j, j] + []));
    TwiceAndOn(env, b2, i, [j, j] + []);
    TwiceAndOn(env, Advance(env, Advance(env, b2, i), i), j, []);
  }

  lemma AlternatingIssuesTwice(env: Env, b0: Batch, i: nat, j: nat, t: Txn, x: Txn)
    requires i < |b0.workers| && j < |b0.workers| && i != j && t.txnId == x.txnId
    requires b0.workers[i] == Worker([t], Start) && b0.workers[j] == Worker([x], Start)
    requires WouldIssue(env, b0.db, t) && WouldIssue(env, b0.db, x)
    ensures !DistinctSources(Interleave(env, b0, Alternating(i, j)).db.rebates)
  {
    AlternatingComesTo(env, b0, i, j);
    var b1 := Advance(env, Advance(env, b0, i), i);
    TwoReads(env, b0, i, t);
    TwoReads(env, b1, j, x);
    FourWrites(env, Advance(env, Advance(env, b1, j), j), i, j, t, x);
  }

  predicate AboutToIssue(b: Batch, w: nat, t: Txn) {
    w < |b.workers| && b.workers[w].queue == [t] && b.workers[w].phase.Marking? && b.workers[w].phase.sequel.Issue?
  }

  lemma FourWrites(env: Env, b2: Batch, i: nat, j: nat, t: Txn, x: Txn)
    requires AboutToIssue(b2, i, t) && AboutToIssue(b2, j, x) && i != j && t.txnId == x.txnId
    ensures var b3 := Advance(env, Advance(env, b2, i), i);
            !DistinctSources(Advance(env, Advance(env, b3, j), j).db.rebates)
  {
    var b3 := Advance(env, Advance(env, b2, i), i);
    TwoWrites(env, b2, i, t);
    TwoWrites(env, b3, j, x);
    var s, n := Advance(env, Advance(env, b3, j), j).db.rebates, |b2.db.rebates|;
    assert s[n].sourceTxnId == s[n + 1].sourceTxnId;
  }

  // ---- Nobody else issues ----

  /** How far a row's worker can be, given what the row would do on the initial tables. */
  predicate RowState(env: Env, db0: Db, w: Worker, y: Txn) {
    w.queue == []
    || (w.queue == [y]
        && match w.phase
           case Start => true
           case LimitSeen => FirstFailing(SCREENING, env, db0, y).None?
           case Marking(_, sequel) => sequel == Stop || (sequel.Issue? && WouldIssue(env, db0, y))
           case Acting(sequel) => sequel.Issue? && WouldIssue(env, db0, y)
           case _ => false)
  }

  /** A rebate issued by the batch is of one of the two rows, which is finished and would issue on the initial tables. */
  predicate IssuedBy(env: Env, db0: Db, w: Worker, y: Txn, r: Rebate) {
    r.userId == y.userId && r.sourceTxnId == y.txnId && w.queue == [] && WouldIssue(env, db0, y)
  }

  ghost predicate TwoRows(env: Env, db0: Db, b: Batch, i: nat, j: nat, t: Txn, x: Txn) {
    i < |b.workers| && j < |b.workers| && i != j
    && (forall w :: 0 <= w < |b.workers| && w != i && w != j ==> b.workers[w].queue == [])
    && RowState(env, db0, b.workers[i], t) && RowState(env, db0, b.workers[j], x)
    && db0.rebates <= b.db.rebates
    && (forall k :: |db0.rebates| <= k < |b.db.rebates| ==>
          IssuedBy(env, db0, b.workers[i], t, b.db.rebates[k]) || IssuedBy(env, db0, b.workers[j], x, b.db.rebates[k]))
    && (forall k, m :: |db0.rebates| <= k < m < |b.db.rebates| ==> b.db.rebates[k].userId != b.db.rebates[m].userId)
  }

  lemma {:induction false} OthersDoNotCount(s: seq<Rebate>, s': seq<Rebate>, u: UserId, o: OfferId, card: Option<CardNo>)
    requires s <= s' && forall k :: |s| <= k < |s'| ==> s'[k].userId != u
    ensures Redeemed(s', u, o, card) == Redeemed(s, u, o, card)
  {
    if |s| < |s'| {
      OthersDoNotCount(s, s'[..|s'| - 1], u, o, card);
    } else {
      assert s' == s;
    }
  }

  /** Other users' rebates do not change what the screening says, and can only refuse in the second half. */
  lemma SameForRow(env: Env, db0: Db, db: Db, y: Txn)
    requires db0.rebates <= db.rebates
    requires forall k :: |db0.rebates| <= k < |db.rebates| ==> db.rebates[k].userId != y.userId
    ensures FirstFailing(SCREENING, env, db, y) == FirstFailing(SCREENING, env, db0, y)
    ensures FirstFailing(CONCLUDING, env, db, y).None? ==> FirstFailing(CONCLUDING, env, db0, y).None?
  {
    if y.offerId in env.offers {
      OthersDoNotCount(db0.rebates, db.rebates, y.userId, y.offerId, LimitCard(env.offers[y.offerId], y));
    }
    var p, q := (c: Check) => !Holds(c, env, db, y), (c: Check) => !Holds(c, env, db0, y);
    assert forall c :: c != NotUsed ==> Holds(c, env, db, y) == Holds(c, env, db0, y);
    assert Holds(NotUsed, env, db, y) ==> Holds(NotUsed, env, db0, y);
    assert NotUsed !in SCREENING;
    FirstOfSame(SCREENING, p, q);
    FirstOfMember(CONCLUDING, p);
    FirstOfMember(CONCLUDING, q);
  }

  lemma OwnRowState(env: Env, db0: Db, db: Db, y: Txn, p: Phase)
    requires y.kind == Qualifying && db0.rebates <= db.rebates && RowState(env, db0, Worker([y], p), y)
    requires forall k :: |db0.rebates| <= k < |db.rebates| ==> db.rebates[k].userId != y.userId
    ensures var (db', p') := Step(env, db, y, p, true);
            var w' := if p' == Done then Worker([], Start) else Worker([y], p');
            RowState(env, db0, w', y) && db.rebates <= db'.rebates
            && (|db'.rebates| > |db.rebates| ==>
                  |db'.rebates| == |db.rebates| + 1 && IssuedBy(env, db0, w', y, db'.rebates[|db.rebates|]))
  {
    SameForRow(env, db0, db, y);
    if p.LimitSeen? && FirstFailing(CONCLUDING, env, db, y).None? { ConcludesToIssue(env, db, y); }
  }

  lemma StepOfFirst(env: Env, db0: Db, b: Batch, i: nat, j: nat, t: Txn, x: Txn)
    requires TwoRows(env, db0, b, i, j, t, x) && t.kind == Qualifying && t.userId != x.userId
    ensures TwoRows(env, db0, Advance(env, b, i), i, j, t, x)
  {
    if b.workers[i].queue != [] {
      var p := b.workers[i].phase;
      assert [t][1..] == [];
      OwnRowState(env, db0, b.db, t, p);
      var b' := Advance(env, b, i);
      var n := |b.db.rebates|;
      forall k | |db0.rebates| <= k < |b'.db.rebates|
        ensures IssuedBy(env, db0, b'.workers[i], t, b'.db.rebates[k]) || IssuedBy(env, db0, b'.workers[j], x, b'.db.rebates[k])
      {
        if k < n { assert b'.db.rebates[k] == b.db.rebates[k]; }
      }
      assert forall k :: |db0.rebates| <= k < n ==> b'.db.rebates[k] == b.db.rebates[k] && b.db.rebates[k].userId == x.userId;
    }
  }

  lemma Swapped(env: Env, db0: Db, b: Batch, i: nat, j: nat, t: Txn, x: Txn)
    ensures TwoRows(env, db0, b, i, j, t, x) == TwoRows(env, db0, b, j, i, x, t)
  {
  }

  lemma {:induction false} InterleavingsKeepTwoRows(
      env: Env, db0: Db, b: Batch, i: nat, j: nat, t: Txn, x: Txn, schedule: seq<nat>)
    requires TwoRows(env, db0, b, i, j, t, x)
    requires t.kind == Qualifying && x.kind == Qualifying && t.userId != x.userId
    ensures TwoRows(env, db0, Interleave(env, b, schedule), i, j, t, x)
    decreases |schedule|
  {
    if schedule != [] {
      var w := schedule[0];
      if w == i {
        StepOfFirst(env, db0, b, i, j, t, x);
      } else if w == j {
        Swapped(env, db0, b, i, j, t, x);
        StepOfFirst(env, db0, b, j, i, x, t);
        Swapped(env, db0, Advance(env, b, w), i, j, t, x);
      }
      InterleavingsKeepTwoRows(env, db0, Advance(env, b, w), i, j, t, x, schedule[1..]);
    }
  }

  /** Two rebates with one source are those of the two rows. */
  lemma TwiceMeansBoth(env: Env, db0: Db, b: Batch, i: nat, j: nat, t: Txn, x: Txn)
    requires TwoRows(env, db0, b, i, j, t, x) && t.txnId == x.txnId
    requires DistinctSources(db0.rebates) && !DistinctSources(b.db.rebates)
    ensures WouldIssue(env, db0, t) && WouldIssue(env, db0, x)
  {
    var s, n := b.db.rebates, |db0.rebates|;
    var k, m :| 0 <= k < m < |s| && s[k].sourceTxnId == s[m].sourceTxnId;
    assert forall c :: 0 <= c < n ==> s[c] == db0.rebates[c];
    assert m >= n;
    if k < n {
      assert db0.rebates[k] in db0.rebates && HasSource(db0.rebates, t.txnId);
      UnusedSource(env, db0, t);
      UnusedSource(env, db0, x);
    }
  }

  lemma UnusedSource(env: Env, db: Db, t: Txn)
    ensures WouldIssue(env, db, t) ==> !HasSource(db.rebates, t.txnId)
  {
    FirstOfMember(CONCLUDING, (c: Check) => !Holds(c, env, db, t));
    assert NotUsed in CONCLUDING && Holds(NotUsed, env, db, t) == !HasSource(db.rebates, t.txnId);
  }

  // ---- The assigned batch ----

  /** Two qualifying rows of different users with one transaction id are all that is pending, with two workers. */
  ghost predicate TwoPending(db: Db, hash: UserId -> int, lists: seq<seq<Txn>>, t: Txn, x: Txn)
    requires |lists| > 0
  {
    t.kind == Qualifying && x.kind == Qualifying && t.txnId == x.txnId && t.userId != x.userId
    && Home(hash, |lists|)(t.userId) != Home(hash, |lists|)(x.userId)
    && forall y :: y in AssignWorkers(db, hash, |lists|).txns && !y.processed <==> y == t || y == x
  }

  lemma OneRowList(db: Db, hash: UserId -> int, lists: seq<seq<Txn>>, t: Txn, x: Txn, w: nat)
    requires |lists| > 0 && Numbered(db) && Loaded(db, hash, lists) && TwoPending(db, hash, lists, t, x) && w < |lists|
    ensures lists[w] == if Home(hash, |lists|)(t.userId) == w then [t]
                        else if Home(hash, |lists|)(x.userId) == w then [x] else []
  {
    var n, db', rows := |lists|, AssignWorkers(db, hash, |lists|), lists[w];
    var i, j := Home(hash, n)(t.userId), Home(hash, n)(x.userId);
    assert IsPendingList(db', w + 1, rows);
    AssignmentPartitions(db, hash, n, t);
    AssignmentPartitions(db, hash, n, x);
    assert (t in rows <==> i == w) && (x in rows <==> j == w);
    forall k | 0 <= k < |rows| ensures rows[k] == if i == w then t else x {
      assert rows[k] in rows;
      PendingRow(db, hash, n, w, rows, rows[k]);
    }
    assert |rows| > 1 ==> rows[0].id != rows[1].id;
    assert |rows| > 0 ==> rows[0] in rows;
    if i == w || j == w { assert rows == [rows[0]]; }
  }

  /**
    * Two users, hashed to different workers, each with a row of one transaction id: some interleaving of the assigned
    * batch issues two rebates for it exactly if each row would earn one on the tables as they were.
    */
  lemma SharedIdCanIssueTwiceIff(
      env: Env, db: Db, hash: UserId -> int, lists: seq<seq<Txn>>, t: Txn, x: Txn)
    requires |lists| > 0 && Numbered(db) && Loaded(db, hash, lists) && TwoPending(db, hash, lists, t, x)
    requires DistinctSources(db.rebates)
    ensures (exists schedule :: !DistinctSources(Interleave(env, Started(db, hash, lists), schedule).db.rebates))
            <==> Verdicts.QualifyingStatus(env, db, t) == Some(RebateCreated)
                 && Verdicts.QualifyingStatus(env, db, x) == Some(RebateCreated)
  {
    WouldIssueIff(env, db, t);
    WouldIssueIff(env, db, x);
    var b, i, j := Started(db, hash, lists), Home(hash, |lists|)(t.userId), Home(hash, |lists|)(x.userId);
    ProcessorInRange(hash(t.userId), |lists|);
    ProcessorInRange(hash(x.userId), |lists|);
    forall w: nat | w < |lists| ensures lists[w] == if i == w then [t] else if j == w then [x] else [] {
      OneRowList(db, hash, lists, t, x, w);
    }
    SameForRow(env, db, b.db, t);
    SameForRow(env, b.db, db, t);
    SameForRow(env, db, b.db, x);
    SameForRow(env, b.db, db, x);
    if WouldIssue(env, db, t) && WouldIssue(env, db, x) {
      AlternatingIssuesTwice(env, b, i, j, t, x);
    }
    if schedule :| !DistinctSources(Interleave(env, b, schedule).db.rebates) {
      InterleavingsKeepTwoRows(env, db, b, i, j, t, x, schedule);
      TwiceMeansBoth(env, db, Interleave(env, b, schedule), i, j, t, x);
    }
  }
}
