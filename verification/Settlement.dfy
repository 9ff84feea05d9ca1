/** Fulfilments: a rebate is settled once, by one matching payment, even with a crash between the two updates. */
module Settlement {
  import opened Domain
  import opened Store
  import opened Eligibility
  import opened RowSteps
  import opened World
  import opened Issuance

  /** Under the by-user discipline, all fulfilments naming one rebate are of one user. */
  predicate ClaimKeeps(d: Discipline, claims: RebateId -> UserId, t: Txn) {
    d.ByUser? && t.kind == Fulfillment && t.rebateId.Some? ==> claims(t.rebateId.value) == t.userId
  }

  ghost predicate Claims(d: Discipline, claims: RebateId -> UserId, w: World) {
    forall t :: t in w.db.txns ==> ClaimKeeps(d, claims, t)
  }

  /** The fulfilment row that settled a rebate: same payment, account, amount and rebate, and marked successful. */
  predicate PaidBy(t: Txn, r: Rebate) {
    t.kind == Fulfillment && r.fulfilledTxnId == Some(t.txnId) && t.accountId == r.accountId && t.amount == r.amount
    && t.rebateId == Some(r.id) && t.processed && t.status == Some(FulfilledTransSuccessful)
  }

  predicate SettledOk(txns: seq<Txn>, r: Rebate) {
    (r.status == FulfilledTransSuccessful <==> r.fulfilledTxnId.Some?)
    && (r.status == FulfilledTransSuccessful ==>
          r.fulfilledAmount == Some(r.amount)
          && r.fulfilRow.Some? && r.fulfilRow.value < |txns| && PaidBy(txns[r.fulfilRow.value], r))
  }

  ghost predicate DistinctPayments(s: seq<Rebate>) {
    forall a, b :: 0 <= a < b < |s| && s[a].fulfilledTxnId.Some? ==> s[a].fulfilledTxnId != s[b].fulfilledTxnId
  }

  predicate Due(db: Db, t: Txn, r: Rebate) {
    !HasFulfilled(db.rebates, t.txnId) && t.rebateId == Some(r.id) && r.id < |db.rebates|
    && db.rebates[r.id].status == PendingFulfillment
    && db.rebates[r.id].accountId == t.accountId && db.rebates[r.id].amount == t.amount
  }

  predicate PaysSafely(db: Db, t: Txn, p: Phase) {
    match p
    case PaymentUnusedSeen => t.rebateId.Some? && !HasFulfilled(db.rebates, t.txnId)
    case Marking(s, Settle(r)) => s == FulfilledTransSuccessful && Due(db, t, r)
    case Acting(Settle(r)) =>
      Due(db, t, r) && t.id < |db.txns| && db.txns[t.id].processed && db.txns[t.id].status == Some(FulfilledTransSuccessful)
    case _ => true
  }

  ghost predicate Settling(w: World) {
    (forall r :: r in w.db.rebates ==> SettledOk(w.db.txns, r))
    && DistinctPayments(w.db.rebates)
    && forall i: nat :: CanWork(w, i) ==> PaysSafely(w.db, w.runners[i].queue[0], w.runners[i].phase)
  }

  predicate Settles(p: Phase, ok: bool) {
    ok && p.Acting? && p.sequel.Settle?
  }

  lemma StepPayments(env: Env, db: Db, t: Txn, p: Phase, ok: bool)
    requires Numbered(db)
    ensures var s := Step(env, db, t, p, ok).0.rebates;
            |db.rebates| <= |s|
            && (forall k :: 0 <= k < |db.rebates| ==>
                  s[k] == if Settles(p, ok)
                          then UpdateRebate(db.rebates[k], Settled(p.sequel.rebate.id, t.txnId, t.amount, t.id))
                          else db.rebates[k])
            && (forall k :: |db.rebates| <= k < |s| ==> s[k].fulfilledTxnId.None? && s[k].status == PendingExtraction)
  {
  }

  lemma FulfilledAfter(env: Env, db: Db, t: Txn, p: Phase, ok: bool, x: TxnId)
    requires Numbered(db) && !HasFulfilled(db.rebates, x) && (Settles(p, ok) ==> x != t.txnId)
    ensures !HasFulfilled(Step(env, db, t, p, ok).0.rebates, x)
  {
    StepPayments(env, db, t, p, ok);
  }

  lemma ValidatedPaysSafely(env: Env, db: Db, t: Txn)
    requires Numbered(db) && t.rebateId.Some? && !HasFulfilled(db.rebates, t.txnId)
    ensures PaysSafely(db, t, Validated(env, db, t))
  {
    SecondLookTotal(env, db, t);
    var r := NamedRebate(db, t);
    if r.Some? {
      var k :| 0 <= k < |db.rebates| && db.rebates[k] == r.value;
    }
  }

  lemma OwnStepPaysSafely(env: Env, db: Db, t: Txn, p: Phase, ok: bool)
    requires Numbered(db) && PhaseFits(t, p) && PaysSafely(db, t, p)
    requires t.id < |db.txns|
    ensures var (db', p') := Step(env, db, t, p, ok); PaysSafely(db', t, p')
  {
    if ok {
      match p
      case Start => FirstLookTotal(env, db, t);
      case PaymentUnusedSeen => ValidatedPaysSafely(env, db, t);
      case _ =>
    }
  }

  /** Two rows with different payments, of which no two fulfilments name one rebate. */
  predicate ApartRows(t: Txn, x: Txn) {
    x.txnId != t.txnId && x.id != t.id
    && (t.kind == Fulfillment && x.kind == Fulfillment && x.rebateId.Some? ==> x.rebateId != t.rebateId)
  }

  /** Another worker's pending settlement survives a step on such a row. */
  lemma OtherStillPaysSafely(env: Env, db: Db, t: Txn, p: Phase, ok: bool, x: Txn, q: Phase)
    requires Numbered(db) && PhaseFits(t, p) && PaysSafely(db, t, p) && PaysSafely(db, x, q)
    requires PhaseFits(x, q) && ApartRows(t, x)
    ensures PaysSafely(Step(env, db, t, p, ok).0, x, q)
  {
    StepOnRows(env, db, t, p, ok);
    StepPayments(env, db, t, p, ok);
    if !HasFulfilled(db.rebates, x.txnId) { FulfilledAfter(env, db, t, p, ok, x.txnId); }
  }

  lemma StepKeepsSettled(env: Env, db: Db, t: Txn, p: Phase, ok: bool)
    requires Numbered(db) && PhaseFits(t, p) && PaysSafely(db, t, p)
    requires t.id < |db.txns| && SameIdentity(db.txns[t.id], t) && (p.Marking? ==> !db.txns[t.id].processed)
    requires forall r :: r in db.rebates ==> SettledOk(db.txns, r)
    ensures var db' := Step(env, db, t, p, ok).0; forall r :: r in db'.rebates ==> SettledOk(db'.txns, r)
  {
    var db' := Step(env, db, t, p, ok).0;
    StepOnRows(env, db, t, p, ok);
    StepPayments(env, db, t, p, ok);
    forall r | r in db'.rebates ensures SettledOk(db'.txns, r) {
      var k :| 0 <= k < |db'.rebates| && db'.rebates[k] == r;
      if k < |db.rebates| {
        assert SettledOk(db.txns, db.rebates[k]);
        if Settles(p, ok) && k == p.sequel.rebate.id {
          assert PaidBy(db'.txns[t.id], r);
        }
      }
    }
  }

  lemma StepKeepsDistinctPayments(env: Env, db: Db, t: Txn, p: Phase, ok: bool)
    requires Numbered(db) && PaysSafely(db, t, p) && DistinctPayments(db.rebates)
    ensures DistinctPayments(Step(env, db, t, p, ok).0.rebates)
  {
    StepPayments(env, db, t, p, ok);
    assert forall k :: 0 <= k < |db.rebates| ==> db.rebates[k] in db.rebates;
  }

  lemma ClaimsApart(hash: UserId -> int, d: Discipline, claims: RebateId -> UserId, w: World, i: nat, j: nat)
    requires Base(hash, w) && Disciplined(d, w) && Claims(d, claims, w) && CanWork(w, i) && CanWork(w, j) && i != j
    ensures var t, x := w.runners[i].queue[0], w.runners[j].queue[0];
            ApartRows(t, x)
  {
    HeadsApart(hash, d, w, i, j);
    HeadIsRow(hash, d, w, i);
    HeadIsRow(hash, d, w, j);
    var t, x := w.runners[i].queue[0], w.runners[j].queue[0];
    assert w.db.txns[t.id] in w.db.txns && w.db.txns[x.id] in w.db.txns;
    assert ClaimKeeps(d, claims, w.db.txns[t.id]) && ClaimKeeps(d, claims, w.db.txns[x.id]);
  }

  lemma WorkKeepsSettling(
      hash: UserId -> int, d: Discipline, claims: RebateId -> UserId, w: World, i: nat, env: Env, ok: bool)
    requires Base(hash, w) && Disciplined(d, w) && Claims(d, claims, w) && Settling(w) && CanWork(w, i)
    ensures Settling(Worked(w, i, env, ok))
  {
    var Running(queue, phase) := w.runners[i];
    var w', t := Worked(w, i, env, ok), queue[0];
    assert RunnerOk(hash, w.db, |w.runners|, i, w.runners[i]);
    HeadIsRow(hash, d, w, i);
    StepKeepsSettled(env, w.db, t, phase, ok);
    StepKeepsDistinctPayments(env, w.db, t, phase, ok);
    forall j: nat | CanWork(w', j) ensures PaysSafely(w'.db, w'.runners[j].queue[0], w'.runners[j].phase) {
      if j == i {
        OwnStepPaysSafely(env, w.db, t, phase, ok);
      } else {
        assert CanWork(w, j);
        ClaimsApart(hash, d, claims, w, i, j);
        assert RunnerOk(hash, w.db, |w.runners|, j, w.runners[j]);
        OtherStillPaysSafely(env, w.db, t, phase, ok, w.runners[j].queue[0], w.runners[j].phase);
      }
    }
  }

  predicate QuietChange(r: Rebate, r': Rebate) {
    r' == r.(status := r'.status, delivered := r'.delivered, synced := r'.synced)
    && (r.status in [PendingFulfillment, FulfilledTransSuccessful] ==> r'.status == r.status)
    && (r'.status == FulfilledTransSuccessful ==> r.status == FulfilledTransSuccessful)
  }

  lemma QuietUpdate(s: seq<Rebate>, up: RebateUpdate)
    requires !up.Settled?
    ensures forall k :: 0 <= k < |s| ==> QuietChange(s[k], UpdateRebates(s, up)[k])
  {
  }

  lemma QuietExport(db: Db, files: seq<set<RebateId>>, e: Exporter, ok: bool)
    ensures var s' := ExportStep(db, files, e, ok).0.rebates;
            |s'| == |db.rebates| && forall k :: 0 <= k < |s'| ==> QuietChange(db.rebates[k], s'[k])
  {
    QuietUpdate(db.rebates, ExtractionBegun);
    QuietUpdate(db.rebates, ExtractionEnded);
    QuietUpdate(db.rebates, ExtractionReset);
  }

  /** Apart from workers' accesses, rebates are changed by statements that settle none. */
  lemma QuietRebates(hash: UserId -> int, w: World, a: Action)
    requires !a.Work?
    ensures var s, s' := w.db.rebates, Next(hash, w, a).db.rebates;
            |s'| == |s| && forall k :: 0 <= k < |s| ==> QuietChange(s[k], s'[k])
  {
    match a
    case Export(ok) => QuietExport(w.db, w.files, w.exporter, ok);
    case Sync(o) => QuietUpdate(w.db.rebates, MopSynced(o));
    case _ =>
  }

  lemma QuietRows(hash: UserId -> int, w: World, a: Action)
    requires Base(hash, w) && !a.Work?
    ensures var w' := Next(hash, w, a);
            |w.db.txns| <= |w'.db.txns|
            && (forall k :: 0 <= k < |w.db.txns| && w.db.txns[k].processed ==> w'.db.txns[k] == w.db.txns[k])
            && (forall i: nat :: CanWork(w', i) ==>
                  w'.runners[i].phase.Start? || (CanWork(w, i) && w'.runners[i] == w.runners[i]))
  {
    if a.Export? { ExportOnlyRebates(w.db, w.files, w.exporter, a.ok); }
  }

  lemma QuietKeepsSettling(hash: UserId -> int, w: World, a: Action)
    requires Base(hash, w) && Settling(w) && !a.Work?
    ensures Settling(Next(hash, w, a))
  {
    var w' := Next(hash, w, a);
    QuietRebates(hash, w, a);
    QuietRows(hash, w, a);
    forall r | r in w'.db.rebates ensures SettledOk(w'.db.txns, r) {
      var k :| 0 <= k < |w'.db.rebates| && w'.db.rebates[k] == r;
      assert SettledOk(w.db.txns, w.db.rebates[k]);
    }
    forall i: nat | CanWork(w', i) ensures PaysSafely(w'.db, w'.runners[i].queue[0], w'.runners[i].phase) {
      if !w'.runners[i].phase.Start? {
        assert PaysSafely(w.db, w.runners[i].queue[0], w.runners[i].phase);
        SamePayments(w.db.rebates, w'.db.rebates, w.runners[i].queue[0].txnId);
      }
    }
  }

  lemma SamePayments(s: seq<Rebate>, s': seq<Rebate>, x: TxnId)
    requires |s| == |s'| && forall k :: 0 <= k < |s| ==> s'[k].fulfilledTxnId == s[k].fulfilledTxnId
    ensures HasFulfilled(s, x) == HasFulfilled(s', x)
  {
    if r :| r in s && r.fulfilledTxnId == Some(x) {
      var k :| 0 <= k < |s| && s[k] == r;
      assert s'[k] in s';
    }
    if r :| r in s' && r.fulfilledTxnId == Some(x) {
      var k :| 0 <= k < |s'| && s'[k] == r;
      assert s[k] in s;
    }
  }

  lemma NextKeepsClaims(hash: UserId -> int, d: Discipline, claims: RebateId -> UserId, w: World, a: Action)
    requires Base(hash, w) && Claims(d, claims, w) && (a.Arrive? ==> ClaimKeeps(d, claims, a.t))
    ensures Claims(d, claims, Next(hash, w, a))
  {
    var w' := Next(hash, w, a);
    RowsSurvive(hash, w, a);
    forall t | t in w'.db.txns ensures ClaimKeeps(d, claims, t) {
      var k :| 0 <= k < |w'.db.txns| && w'.db.txns[k] == t;
      if k < |w.db.txns| { assert w.db.txns[k] in w.db.txns; }
    }
  }

  /** Once fulfilled, a rebate only ever changes its sync flag. */
  lemma NextKeepsFulfilled(hash: UserId -> int, d: Discipline, w: World, a: Action, k: nat)
    requires Base(hash, w) && Disciplined(d, w) && Settling(w)
    requires k < |w.db.rebates| && w.db.rebates[k].status == FulfilledTransSuccessful
    ensures var w' := Next(hash, w, a);
            k < |w'.db.rebates| && w'.db.rebates[k] == w.db.rebates[k].(synced := w'.db.rebates[k].synced)
  {
    match a
    case Work(i, env, ok) =>
      if CanWork(w, i) {
        HeadIsRow(hash, d, w, i);
        StepPayments(env, w.db, w.runners[i].queue[0], w.runners[i].phase, ok);
      }
    case _ =>
  }

  lemma {:induction false} RunKeepsSettling(
      hash: UserId -> int, d: Discipline, claims: RebateId -> UserId, w: World, actions: seq<Action>)
    requires Base(hash, w) && Disciplined(d, w) && Claims(d, claims, w) && Settling(w)
    requires forall a :: a in actions ==> Keeps(d, a) && (a.Arrive? ==> ClaimKeeps(d, claims, a.t))
    ensures var w' := Run(hash, w, actions);
            Base(hash, w') && Disciplined(d, w') && Claims(d, claims, w') && Settling(w')
    ensures forall k :: 0 <= k < |w.db.rebates| && w.db.rebates[k].status == FulfilledTransSuccessful ==>
              var s := Run(hash, w, actions).db.rebates;
              k < |s| && s[k] == w.db.rebates[k].(synced := s[k].synced)
    decreases |actions|
  {
    if actions != [] {
      var a, w' := actions[0], Next(hash, w, actions[0]);
      NextKeepsBase(hash, w, a);
      NextKeepsDiscipline(hash, d, w, a);
      NextKeepsClaims(hash, d, claims, w, a);
      if a.Work? {
        if CanWork(w, a.i) { WorkKeepsSettling(hash, d, claims, w, a.i, a.env, a.ok); }
      } else {
        QuietKeepsSettling(hash, w, a);
      }
      forall k: nat | k < |w.db.rebates| && w.db.rebates[k].status == FulfilledTransSuccessful
        ensures k < |w'.db.rebates| && w'.db.rebates[k] == w.db.rebates[k].(synced := w'.db.rebates[k].synced)
      {
        NextKeepsFulfilled(hash, d, w, a, k);
      }
      RunKeepsSettling(hash, d, claims, w', actions[1..]);
    }
  }

  /**
    * Over any run: each payment settles at most one rebate, a settled rebate is final, and behind it stands one
    * marked row of the same account, amount and rebate id.
    */
  lemma FulfilmentIsSafe(
      hash: UserId -> int, d: Discipline, claims: RebateId -> UserId, w: World, earlier: seq<Action>, later: seq<Action>)
    requires Base(hash, w) && w.runners == [] && Disciplined(d, w) && Claims(d, claims, w)
    requires forall a :: a in earlier + later ==> Keeps(d, a) && (a.Arrive? ==> ClaimKeeps(d, claims, a.t))
    requires DistinctPayments(w.db.rebates) && forall r :: r in w.db.rebates ==> SettledOk(w.db.txns, r)
    ensures var mid := Run(hash, w, earlier); var end := Run(hash, mid, later);
            DistinctPayments(end.db.rebates)
            && (forall r :: r in end.db.rebates ==> SettledOk(end.db.txns, r))
            && (forall k :: 0 <= k < |mid.db.rebates| && mid.db.rebates[k].status == FulfilledTransSuccessful ==>
                  k < |end.db.rebates| && end.db.rebates[k] == mid.db.rebates[k].(synced := end.db.rebates[k].synced))
  {
    assert forall a :: a in earlier || a in later ==> a in earlier + later;
    RunKeepsSettling(hash, d, claims, w, earlier);
    RunKeepsSettling(hash, d, claims, Run(hash, w, earlier), later);
  }
}
