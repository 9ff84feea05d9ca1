/** Which rows get a refund report, read off their columns. */
module ReportColumns {
  import opened Domain
  import opened Store
  import opened Eligibility
  import opened RowSteps
  import opened World
  import opened Outcomes
  import opened Verdicts
  import opened RefundReports
  import RR = RowResults
  import ReportRuns

  /** A purchase of the client for the offer that earned a rebate, whatever has become of the rebate. */
  predicate Purchase(x: Txn, u: UserId, o: OfferId) {
    x.userId == u && x.offerId == o && x.kind == Qualifying
    && (x.status == Some(RebateCreated) || x.status == Some(PendingExtraction) || x.status == Some(PendingFulfillment)
        || x.status == Some(FulfilledTransSuccessful))
  }

  predicate Refunded(x: Txn, u: UserId, o: OfferId) {
    x.userId == u && x.offerId == o && x.status == Some(RefundTrackedForReporting)
  }

  /** At least two refunds of the client for the offer are tracked. */
  predicate Due(s: seq<Txn>, u: UserId, o: OfferId) {
    |set i: nat | i < |s| && Refunded(s[i], u, o)| >= 2
  }

  /** The reports about a row. */
  function ReportsOn(s: seq<RefundReport>, id: RowId): set<nat> {
    set n: nat | n < |s| && s[n].source == id
  }

  // ---- Counts ----

  function RefundedIn(s: seq<Txn>, u: UserId, o: OfferId): set<nat> {
    set i: nat | i < |s| && Refunded(s[i], u, o)
  }

  lemma {:induction false} TrackedAreCounted(s: seq<Txn>, u: UserId, o: OfferId)
    ensures |TrackedRefunds(s, u, o)| == |RefundedIn(s, u, o)|
  {
    if s == [] {
      assert RefundedIn(s, u, o) == {};
    } else {
      var n := |s| - 1;
      var before := RefundedIn(s[..n], u, o);
      TrackedAreCounted(s[..n], u, o);
      assert n !in before;
      assert RefundedIn(s, u, o) == if Refunded(s[n], u, o) then before + {n} else before;
    }
  }

  lemma PairIsDue(db: Db, u: UserId, o: OfferId)
    ensures TrackedPair(db, u, o) <==> Due(db.txns, u, o)
  {
    TrackedAreCounted(db.txns, u, o);
    assert RefundedIn(db.txns, u, o) == set i: nat | i < |db.txns| && Refunded(db.txns[i], u, o);
  }

  lemma {:induction false} ReportsAreCounted(s: seq<RefundReport>, id: RowId)
    ensures ReportsFor(s, id) == |ReportsOn(s, id)|
  {
    if s == [] {
      assert ReportsOn(s, id) == {};
    } else {
      var n := |s| - 1;
      ReportsAreCounted(s[..n], id);
      assert ReportsOn(s, id) == if s[n].source == id then ReportsOn(s[..n], id) + {n} else ReportsOn(s[..n], id);
    }
  }

  // ---- One refund ----

  /** Where two refunds are tracked, they and the purchases are flagged; nothing else is, and nothing elsewhere. */
  ghost predicate FlagsSet(db: Db, db': Db, u: UserId, o: OfferId) {
    |db'.txns| == |db.txns|
    && forall i :: 0 <= i < |db.txns| ==>
         db'.txns[i].reported ==
         (db.txns[i].reported || (Due(db'.txns, u, o) && (Refunded(db'.txns[i], u, o) || Purchase(db'.txns[i], u, o))))
  }

  /** One report for each flagged row, with its columns, and no other report. */
  ghost predicate ReportsMatch(db: Db) {
    (forall i: nat :: i < |db.txns| ==> |ReportsOn(db.reports, i)| == if db.txns[i].reported then 1 else 0)
    && forall r :: r in db.reports ==>
         r.source < |db.txns|
         && var x := db.txns[r.source];
            r.userId == x.userId && r.offerId == x.offerId && r.accountId == x.accountId && r.amount == x.amount
            && r.kind == x.kind && Due(db.txns, x.userId, x.offerId)
  }

  lemma SoundMatches(db: Db)
    requires FlagsMatch(db) && ReportsDue(db)
    ensures ReportsMatch(db)
  {
    forall i: nat | i < |db.txns| ensures |ReportsOn(db.reports, i)| == if db.txns[i].reported then 1 else 0 {
      ReportsAreCounted(db.reports, i);
    }
    forall r | r in db.reports ensures Due(db.txns, r.userId, r.offerId) {
      PairIsDue(db, r.userId, r.offerId);
    }
  }

  lemma DueIgnoresFlags(s: seq<Txn>, s': seq<Txn>, u: UserId, o: OfferId)
    requires |s'| == |s| && forall i :: 0 <= i < |s| ==> s'[i] == s[i].(reported := s'[i].reported)
    ensures Due(s', u, o) <==> Due(s, u, o)
  {
    assert (set i: nat | i < |s'| && Refunded(s'[i], u, o)) == set i: nat | i < |s| && Refunded(s[i], u, o);
  }

  lemma FlagOfRow(db: Db, db': Db, u: UserId, o: OfferId, i: nat)
    requires RowsInPlace(db) && i < |db.txns| && ReportsExactly(db, ToReport(db, u, o), db')
    ensures db'.txns[i].reported == (db.txns[i].reported || Refunded(db'.txns[i], u, o) || Purchase(db'.txns[i], u, o))
  {
    ListedExactly(db, u, o, i);
  }

  lemma ReportedFlags(db: Db, t: Txn)
    requires RowsInPlace(db) && KindsFit(db)
    ensures FlagsSet(db, Reported(db, t), t.userId, t.offerId)
  {
    var db', u, o := Reported(db, t), t.userId, t.offerId;
    PairIsDue(db, u, o);
    if TrackedPair(db, u, o) {
      var todo := ToReport(db, u, o);
      ListedOnce(db, u, o);
      ReportAllExactly(db, todo);
      assert db' == ReportAll(db, todo);
      DueIgnoresFlags(db.txns, db'.txns, u, o);
      forall i: nat | i < |db.txns|
        ensures db'.txns[i].reported == (db.txns[i].reported || Refunded(db'.txns[i], u, o) || Purchase(db'.txns[i], u, o))
      {
        FlagOfRow(db, db', u, o, i);
      }
    }
  }

  /**
    * After a refund of a known offer whose client and offer have two tracked refunds, exactly these and the purchases
    * that earned a rebate gain their flags; each flagged row has one report with its columns. Otherwise no flag is set.
    */
  lemma RefundSetsFlags(env: Env, db: Db, t: Txn)
    requires Sound(db) && t.id < |db.txns| && !db.txns[t.id].processed && SameIdentity(db.txns[t.id], t)
    requires t.kind == Refund && t.offerId in env.offers
    ensures FlagsSet(db, RunRow(env, db, t), t.userId, t.offerId) && ReportsMatch(RunRow(env, db, t))
  {
    RefundRow(env, db, t);
    RefundVerdictTotal(env, db, t);
    var s := RefundVerdict(env, db, t).value;
    MarkKeeps(db, t.id, s);
    ReportedFlags(Mark(db, t.id, s), t);
    RowKeepsSound(env, db, t);
    SoundMatches(RunRow(env, db, t));
  }

  /** No other row sets a flag. */
  lemma OthersSetNoFlags(env: Env, db: Db, t: Txn)
    requires Sound(db) && Numbered(db) && t.id < |db.txns| && !db.txns[t.id].processed && SameIdentity(db.txns[t.id], t)
    requires t.kind != Refund || t.offerId !in env.offers
    ensures var db' := RunRow(env, db, t);
            |db'.txns| == |db.txns| && db'.reports == db.reports
            && forall i :: 0 <= i < |db.txns| ==> db'.txns[i].reported == db.txns[i].reported
  {
    NoFaults(env, db, t, Start);
    match t.kind
    case Qualifying => RR.QualifyingResult(NO_FAULTS, env, db, t);
    case Fulfillment => RR.FulfilmentResult(NO_FAULTS, env, db, t);
    case Refund => RR.RefundResult(NO_FAULTS, env, db, t);
    case OtherKind => UnrollUnder(NO_FAULTS, env, db, t, Start);
  }

  /** The one report about a row. */
  ghost predicate OnlyReport(s: seq<RefundReport>, n: nat, x: Txn) {
    n < |s| && s[n].source == x.id && s[n].amount == x.amount
    && forall m :: 0 <= m < |s| && s[m].source == x.id ==> m == n
  }

  lemma OneReportOf(db: Db, x: Txn)
    requires ReportsMatch(db) && x.id < |db.txns| && SameIdentity(db.txns[x.id], x) && db.txns[x.id].reported
    ensures exists n: nat :: OnlyReport(db.reports, n, x)
  {
    var on := ReportsOn(db.reports, x.id);
    var n :| n in on;
    assert db.reports[n] in db.reports;
    forall m | 0 <= m < |db.reports| && db.reports[m].source == x.id ensures m == n {
      assert m in on;
      if m != n { TwoOf(on, m, n); }
    }
    assert OnlyReport(db.reports, n, x);
  }

  lemma TwoOf(s: set<nat>, a: nat, b: nat)
    requires a in s && b in s && a != b
    ensures |s| >= 2
  {
    var rest := s - {a};
    assert b in rest && |s| == |rest| + 1;
  }

  /** A row still to be processed. */
  ghost predicate PendingRow(db: Db, x: Txn) {
    x.id < |db.txns| && !db.txns[x.id].processed && SameIdentity(db.txns[x.id], x)
  }

  lemma AfterPurchase(env: Env, db: Db, q: Txn, t: Txn)
    requires Sound(db) && Numbered(db) && PendingRow(db, q) && PendingRow(db, t) && q.kind == Qualifying && q.id != t.id
    requires QualifyingStatus(env, db, q) == Some(RebateCreated)
    ensures var mid := RunRow(env, db, q);
            Sound(mid) && Numbered(mid) && PendingRow(mid, t) && |mid.txns| == |db.txns|
            && SameIdentity(mid.txns[q.id], q) && mid.txns[q.id].status == Some(RebateCreated)
  {
    RR.RowResult(env, db, q);
    RowKeepsSound(env, db, q);
    FinishTouches(env, db, q, Start);
  }

  /** A purchase that earned a rebate is reported with the second tracked refund of its client and offer, if not before. */
  lemma IssuedIsReported(env: Env, env': Env, db: Db, q: Txn, t: Txn)
    requires Sound(db) && Numbered(db) && PendingRow(db, q) && PendingRow(db, t) && q.id != t.id
    requires q.kind == Qualifying && t.kind == Refund && q.userId == t.userId && q.offerId == t.offerId
    requires QualifyingStatus(env, db, q) == Some(RebateCreated) && t.offerId in env'.offers
    requires Due(RunRow(env', RunRow(env, db, q), t).txns, t.userId, t.offerId)
    ensures var end := RunRow(env', RunRow(env, db, q), t);
            |end.txns| == |db.txns| && end.txns[q.id].status == Some(RebateCreated) && end.txns[q.id].reported
            && exists n: nat :: OnlyReport(end.reports, n, q)
  {
    var mid := RunRow(env, db, q);
    var end := RunRow(env', mid, t);
    AfterPurchase(env, db, q, t);
    RefundSetsFlags(env', mid, t);
    RR.RowResult(env', mid, t);
    assert Purchase(end.txns[q.id], t.userId, t.offerId);
    OneReportOf(end, q);
  }

  // ---- Over runs ----

  /** A worker that leaves its report loops has reported the tracked refunds of the pair, and its purchases, in columns. */
  lemma CompletedReports(hash: UserId -> int, w: World, i: nat, env: Env, k: nat)
    requires Base(hash, w) && ReportRuns.ReportsInStep(w) && ReportRuns.ReportsAt(w, i)
    requires !ReportRuns.ReportsAt(Worked(w, i, env, true), i)
    requires var db', t := Worked(w, i, env, true).db, w.runners[i].queue[0];
             k < |db'.txns| && Due(db'.txns, t.userId, t.offerId)
             && (Refunded(db'.txns[k], t.userId, t.offerId) || Purchase(db'.txns[k], t.userId, t.offerId))
    ensures Worked(w, i, env, true).db.txns[k].reported
  {
    var db', t := Worked(w, i, env, true).db, w.runners[i].queue[0];
    ReportRuns.ReportingCompletes(hash, w, i, env);
    PairIsDue(db', t.userId, t.offerId);
    if Purchase(db'.txns[k], t.userId, t.offerId) {
      assert IsReportable(db'.txns[k].(reported := false), t.userId, t.offerId);
    }
  }
}
