/** No two rebates share an account transaction id, whatever is delivered twice, fails, crashes or is rerun. */
module Issuance {
  import opened Domain
  import opened Store
  import opened Eligibility
  import opened RowSteps
  import opened Assignment
  import opened World

  /** What the code relies on instead of a unique constraint: one worker, or ids that stay with one user. */
  datatype Discipline = OneWorker | ByUser(txn: TxnId -> UserId)

  predicate RowKeeps(d: Discipline, t: Txn) {
    d.ByUser? ==> d.txn(t.txnId) == t.userId
  }

  predicate Keeps(d: Discipline, a: Action) {
    (a.Arrive? ==> RowKeeps(d, a.t)) && (d.OneWorker? && a.Restart? ==> a.n <= 1)
  }

  ghost predicate Disciplined(d: Discipline, w: World) {
    (d.OneWorker? ==> |w.runners| <= 1) && forall t :: t in w.db.txns ==> RowKeeps(d, t)
  }

  lemma NextKeepsDiscipline(hash: UserId -> int, d: Discipline, w: World, a: Action)
    requires Base(hash, w) && Disciplined(d, w) && Keeps(d, a)
    ensures Disciplined(d, Next(hash, w, a))
  {
    var w' := Next(hash, w, a);
    RowsSurvive(hash, w, a);
    forall t | t in w'.db.txns ensures RowKeeps(d, t) {
      var k :| 0 <= k < |w'.db.txns| && w'.db.txns[k] == t;
      if k < |w.db.txns| { assert w.db.txns[k] in w.db.txns; }
    }
  }

  /** Rows keep their place and identity; only an arrival adds one. */
  lemma RowsSurvive(hash: UserId -> int, w: World, a: Action)
    requires Base(hash, w)
    ensures var w' := Next(hash, w, a);
            |w.db.txns| <= |w'.db.txns|
            && (forall i :: 0 <= i < |w.db.txns| ==> SameIdentity(w'.db.txns[i], w.db.txns[i]))
            && (forall i :: |w.db.txns| <= i < |w'.db.txns| ==> a.Arrive? && w'.db.txns[i] == a.t)
  {
    match a
    case Work(i, env, ok) =>
      if CanWork(w, i) {
        assert RunnerOk(hash, w.db, |w.runners|, i, w.runners[i]);
        StepOnRows(env, w.db, w.runners[i].queue[0], w.runners[i].phase, ok);
      }
    case Export(ok) => ExportOnlyRebates(w.db, w.files, w.exporter, ok);
    case _ =>
  }

  lemma HeadIsRow(hash: UserId -> int, d: Discipline, w: World, i: nat)
    requires Base(hash, w) && Disciplined(d, w) && CanWork(w, i)
    ensures var t := w.runners[i].queue[0];
            t in w.runners[i].queue && t.id < |w.db.txns| && SameIdentity(w.db.txns[t.id], t) && RowKeeps(d, t)
  {
    assert RunnerOk(hash, w.db, |w.runners|, i, w.runners[i]);
    var t := w.runners[i].queue[0];
    assert t in w.runners[i].queue;
    assert w.db.txns[t.id] in w.db.txns;
  }

  /** Rows in two workers' hands never share a transaction id. */
  lemma HeadsApart(hash: UserId -> int, d: Discipline, w: World, i: nat, j: nat)
    requires Base(hash, w) && Disciplined(d, w) && CanWork(w, i) && CanWork(w, j) && i != j
    ensures w.runners[i].queue[0].txnId != w.runners[j].queue[0].txnId
    ensures w.runners[i].queue[0].userId != w.runners[j].queue[0].userId && d.ByUser?
  {
    HeadIsRow(hash, d, w, i);
    HeadIsRow(hash, d, w, j);
    OneUserOneWorker(hash, w, i, j, w.runners[i].queue[0], w.runners[j].queue[0]);
  }

  predicate Issuing(p: Phase) {
    (p.Marking? && p.sequel.Issue?) || (p.Acting? && p.sequel.Issue?)
  }

  ghost predicate DistinctSources(s: seq<Rebate>) {
    forall a, b :: 0 <= a < b < |s| ==> s[a].sourceTxnId != s[b].sourceTxnId
  }

  ghost predicate IssuedOnce(w: World) {
    DistinctSources(w.db.rebates)
    && forall i: nat :: CanWork(w, i) && Issuing(w.runners[i].phase) ==> !HasSource(w.db.rebates, w.runners[i].queue[0].txnId)
  }

  predicate Inserts(p: Phase, ok: bool) {
    ok && p.Acting? && p.sequel.Issue?
  }

  lemma StepSources(env: Env, db: Db, t: Txn, p: Phase, ok: bool)
    ensures var s := Step(env, db, t, p, ok).0.rebates;
            |s| == |db.rebates| + (if Inserts(p, ok) then 1 else 0)
            && (forall i :: 0 <= i < |db.rebates| ==> s[i].sourceTxnId == db.rebates[i].sourceTxnId)
            && (Inserts(p, ok) ==> s[|db.rebates|].sourceTxnId == t.txnId)
  {
  }

  lemma SameSources(s: seq<Rebate>, s': seq<Rebate>, x: TxnId)
    requires |s| == |s'| && forall i :: 0 <= i < |s| ==> s[i].sourceTxnId == s'[i].sourceTxnId
    ensures HasSource(s, x) == HasSource(s', x)
    ensures DistinctSources(s) == DistinctSources(s')
  {
    if r :| r in s && r.sourceTxnId == x {
      var k :| 0 <= k < |s| && s[k] == r;
      assert s'[k] in s';
    }
    if r :| r in s' && r.sourceTxnId == x {
      var k :| 0 <= k < |s'| && s'[k] == r;
      assert s[k] in s;
    }
  }

  lemma IssuingStep(env: Env, db: Db, t: Txn, p: Phase, ok: bool)
    requires Issuing(Step(env, db, t, p, ok).1)
    ensures !Inserts(p, ok)
    ensures Issuing(p) || !HasSource(db.rebates, t.txnId)
  {
    if !Issuing(p) {
      assert p.LimitSeen? && FirstFailing(CONCLUDING, env, db, t).None?;
      FirstOfMember(CONCLUDING, (c: Check) => !Holds(c, env, db, t));
      assert NotUsed in CONCLUDING;
      assert Holds(NotUsed, env, db, t);
    }
  }

  lemma WorkKeepsIssuedOnce(hash: UserId -> int, d: Discipline, w: World, i: nat, env: Env, ok: bool)
    requires Base(hash, w) && Disciplined(d, w) && IssuedOnce(w) && CanWork(w, i)
    ensures IssuedOnce(Worked(w, i, env, ok))
  {
    var Running(queue, phase) := w.runners[i];
    var w', t := Worked(w, i, env, ok), queue[0];
    var s, s' := w.db.rebates, w'.db.rebates;
    StepSources(env, w.db, t, phase, ok);
    SameSources(s, s'[..|s|], t.txnId);
    assert DistinctSources(s');
    forall j: nat | CanWork(w', j) && Issuing(w'.runners[j].phase) ensures !HasSource(s', w'.runners[j].queue[0].txnId) {
      var x := w'.runners[j].queue[0].txnId;
      SameSources(s, s'[..|s|], x);
      if j == i {
        assert w'.runners[j].queue == queue;
        IssuingStep(env, w.db, t, phase, ok);
        assert s'[..|s|] == s';
      } else {
        assert CanWork(w, j);
        HeadsApart(hash, d, w, i, j);
        assert s' == s'[..|s|] + s'[|s|..];
      }
    }
  }

  lemma NextKeepsIssuedOnce(hash: UserId -> int, d: Discipline, w: World, a: Action)
    requires Base(hash, w) && Disciplined(d, w) && IssuedOnce(w)
    ensures IssuedOnce(Next(hash, w, a))
  {
    var w' := Next(hash, w, a);
    if a.Work? {
      if CanWork(w, a.i) {
        WorkKeepsIssuedOnce(hash, d, w, a.i, a.env, a.ok);
      }
    } else {
      assert |w'.db.rebates| == |w.db.rebates|;
      SameSources(w.db.rebates, w'.db.rebates, 0);
      forall j: nat | CanWork(w', j) && Issuing(w'.runners[j].phase)
        ensures !HasSource(w'.db.rebates, w'.runners[j].queue[0].txnId)
      {
        assert w'.runners[j] == w.runners[j] && CanWork(w, j);
        SameSources(w.db.rebates, w'.db.rebates, w.runners[j].queue[0].txnId);
      }
    }
  }

  lemma {:induction false} RunKeepsIssuedOnce(hash: UserId -> int, d: Discipline, w: World, actions: seq<Action>)
    requires Base(hash, w) && Disciplined(d, w) && IssuedOnce(w)
    requires forall a :: a in actions ==> Keeps(d, a)
    ensures IssuedOnce(Run(hash, w, actions))
    decreases |actions|
  {
    if actions != [] {
      NextKeepsBase(hash, w, actions[0]);
      NextKeepsDiscipline(hash, d, w, actions[0]);
      NextKeepsIssuedOnce(hash, d, w, actions[0]);
      RunKeepsIssuedOnce(hash, d, Next(hash, w, actions[0]), actions[1..]);
    }
  }

  /** At most one rebate per transaction id over any run that starts with that property and no worker running. */
  lemma AtMostOneRebatePerTransaction(hash: UserId -> int, d: Discipline, w: World, actions: seq<Action>)
    requires Base(hash, w) && w.runners == [] && Disciplined(d, w)
    requires forall a :: a in actions ==> Keeps(d, a)
    requires DistinctSources(w.db.rebates)
    ensures DistinctSources(Run(hash, w, actions).db.rebates)
  {
    RunKeepsIssuedOnce(hash, d, w, actions);
  }
}
