/** Refund reports in crash-free runs: one per flagged row, only and always where two refunds are tracked. */
module RefundReports {
  import opened Domain
  import opened Store
  import opened Eligibility
  import opened RowSteps
  import opened Outcomes
  import opened World
  import opened Assignment

  function ReportsFor(s: seq<RefundReport>, id: RowId): nat {
    if s == [] then 0 else
    var n := |s| - 1;
    ReportsFor(s[..n], id) + if s[n].source == id then 1 else 0
  }

  predicate TrackedPair(db: Db, u: UserId, o: OfferId) {
    |TrackedRefunds(db.txns, u, o)| >= 2
  }

  ghost predicate RowsInPlace(db: Db) {
    forall i :: 0 <= i < |db.txns| ==> db.txns[i].id == i
  }

  /** A row has one report if it is flagged and none otherwise. */
  ghost predicate FlagsMatch(db: Db) {
    forall i: nat :: i < |db.txns| ==> ReportsFor(db.reports, i) == if db.txns[i].reported then 1 else 0
  }

  /** A report carries the columns of its row. */
  predicate ReportOf(r: RefundReport, txns: seq<Txn>) {
    r.source < |txns|
    && var t := txns[r.source];
       r.userId == t.userId && r.offerId == t.offerId && r.accountId == t.accountId
       && r.amount == t.amount && r.kind == t.kind
  }

  /** Every report is about a row of a user and offer with at least two tracked refunds. */
  ghost predicate ReportsDue(db: Db) {
    forall r :: r in db.reports ==> ReportOf(r, db.txns) && TrackedPair(db, r.userId, r.offerId)
  }

  /** Only refunds are ever tracked, and only processed rows have a status. */
  ghost predicate KindsFit(db: Db) {
    forall i :: 0 <= i < |db.txns| ==>
      (db.txns[i].status == Some(RefundTrackedForReporting) ==> db.txns[i].kind == Refund)
      && (!db.txns[i].processed ==> db.txns[i].status.None?)
  }

  /** If two refunds are tracked, all tracked refunds are reported. */
  ghost predicate TrackedReported(db: Db, u: UserId, o: OfferId) {
    TrackedPair(db, u, o) ==>
      forall i :: 0 <= i < |db.txns| && IsTracked(db.txns[i], u, o) ==> db.txns[i].reported
  }

  ghost predicate Sound(db: Db) {
    RowsInPlace(db) && FlagsMatch(db) && ReportsDue(db) && KindsFit(db) && forall u, o :: TrackedReported(db, u, o)
  }

  // ---- Counting tracked refunds ----

  lemma {:induction false} MoreTracked(s: seq<Txn>, s': seq<Txn>, u: UserId, o: OfferId)
    requires |s| == |s'| && forall i :: 0 <= i < |s| && IsTracked(s[i], u, o) ==> IsTracked(s'[i], u, o)
    ensures |TrackedRefunds(s, u, o)| <= |TrackedRefunds(s', u, o)|
  {
    if s != [] {
      var n := |s| - 1;
      MoreTracked(s[..n], s'[..n], u, o);
    }
  }

  // ---- The report loops ----

  predicate Among(todo: seq<Txn>, id: RowId) {
    exists x :: x in todo && x.id == id
  }

  /** The rows to report are read from the table, each of them once. */
  ghost predicate Snapshot(db: Db, todo: seq<Txn>) {
    DistinctIds(todo) && forall x :: x in todo ==> x.id < |db.txns| && db.txns[x.id] == x
  }

  /** What reporting these rows does: a flag and one report for each that had none, nothing else. */
  ghost predicate ReportsExactly(db: Db, todo: seq<Txn>, db': Db) {
    db'.rebates == db.rebates && db'.journal == db.journal
    && |db'.txns| == |db.txns|
    && (forall i: nat :: i < |db.txns| ==>
          db'.txns[i] == db.txns[i].(reported := db.txns[i].reported || Among(todo, i))
          && ReportsFor(db'.reports, i) ==
             ReportsFor(db.reports, i) + if Among(todo, i) && !db.txns[i].reported then 1 else 0)
    && (forall r :: r in db'.reports ==> r in db.reports || exists x :: x in todo && r == NewReport(x))
  }

  lemma OneReported(db: Db, x: Txn)
    requires RowsInPlace(db) && x.id < |db.txns| && db.txns[x.id] == x && !x.reported
    ensures ReportsExactly(db, [x], FlagReported(InsertReport(db, x), x.id))
  {
    var db' := FlagReported(InsertReport(db, x), x.id);
    assert db'.reports[..|db.reports|] == db.reports;
    assert x in [x];
  }

  lemma {:induction false} ReportAllExactly(db: Db, todo: seq<Txn>)
    requires RowsInPlace(db) && Snapshot(db, todo)
    ensures ReportsExactly(db, todo, ReportAll(db, todo))
    decreases |todo|
  {
    if todo != [] {
      var x, rest := todo[0], todo[1..];
      assert todo == [x] + rest;
      var next := if x.reported then db else FlagReported(InsertReport(db, x), x.id);
      if !x.reported { OneReported(db, x); }
      StillSnapshot(db, todo, next);
      ReportAllExactly(next, rest);
      assert x in todo && forall i: nat :: Among(todo, i) <==> i == x.id || Among(rest, i);
      ReportsCompose(db, x, rest, next, ReportAll(next, rest));
    }
  }

  lemma StillSnapshot(db: Db, todo: seq<Txn>, next: Db)
    requires Snapshot(db, todo) && todo != [] && |next.txns| == |db.txns|
    requires forall i: nat :: i < |db.txns| && i != todo[0].id ==> next.txns[i] == db.txns[i]
    ensures Snapshot(next, todo[1..])
  {
    forall x | x in todo[1..] ensures x in todo && x.id != todo[0].id {
      var k :| 0 <= k < |todo[1..]| && todo[1..][k] == x;
      assert x == todo[k + 1];
    }
  }

  lemma ReportsCompose(db: Db, x: Txn, rest: seq<Txn>, next: Db, end: Db)
    requires Snapshot(db, [x] + rest) && !Among(rest, x.id)
    requires x.reported ==> next == db
    requires !x.reported ==> ReportsExactly(db, [x], next)
    requires ReportsExactly(next, rest, end)
    requires forall i: nat :: Among([x] + rest, i) <==> i == x.id || Among(rest, i)
    ensures ReportsExactly(db, [x] + rest, end)
  {
    assert x in [x] + rest && db.txns[x.id] == x;
    forall i: nat | i < |db.txns|
      ensures end.txns[i] == db.txns[i].(reported := db.txns[i].reported || Among([x] + rest, i))
      ensures ReportsFor(end.reports, i) ==
              ReportsFor(db.reports, i) + if Among([x] + rest, i) && !db.txns[i].reported then 1 else 0
    {
      assert x in [x];
      assert Among([x], i) <==> i == x.id;
    }
    forall r | r in end.reports ensures r in db.reports || exists y :: y in [x] + rest && r == NewReport(y) {
      if r !in db.reports {
        if r in next.reports { assert r == NewReport(x); }
        else { var y :| y in rest && r == NewReport(y); assert y in [x] + rest; }
      }
    }
  }

  lemma DistinctTogether(a: seq<Txn>, b: seq<Txn>)
    requires DistinctIds(a) && DistinctIds(b) && forall x, y :: x in a && y in b ==> x.id != y.id
    ensures DistinctIds(a + b)
  {
    forall i, j | 0 <= i < j < |a + b| ensures (a + b)[i].id != (a + b)[j].id {
      if i < |a| <= j { assert a[i] in a && b[j - |a|] in b; }
    }
  }

  lemma {:induction false} TrackedDistinct(s: seq<Txn>, u: UserId, o: OfferId)
    requires forall i :: 0 <= i < |s| ==> s[i].id == i
    ensures DistinctIds(TrackedRefunds(s, u, o))
  {
    if s != [] {
      var n := |s| - 1;
      TrackedDistinct(s[..n], u, o);
      if IsTracked(s[n], u, o) { DistinctTogether(TrackedRefunds(s[..n], u, o), [s[n]]); }
    }
  }

  lemma {:induction false} ReportableDistinct(s: seq<Txn>, u: UserId, o: OfferId)
    requires forall i :: 0 <= i < |s| ==> s[i].id == i
    ensures DistinctIds(ReportableQualifying(s, u, o))
  {
    if s != [] {
      var n := |s| - 1;
      ReportableDistinct(s[..n], u, o);
      if IsReportable(s[n], u, o) { DistinctTogether(ReportableQualifying(s[..n], u, o), [s[n]]); }
    }
  }

  function ToReport(db: Db, u: UserId, o: OfferId): seq<Txn> {
    TrackedRefunds(db.txns, u, o) + ReportableQualifying(db.txns, u, o)
  }

  /** Because only refunds are tracked, no row is in both lists. */
  lemma ListedOnce(db: Db, u: UserId, o: OfferId)
    requires RowsInPlace(db) && KindsFit(db)
    ensures Snapshot(db, ToReport(db, u, o))
  {
    var first, second := TrackedRefunds(db.txns, u, o), ReportableQualifying(db.txns, u, o);
    TrackedDistinct(db.txns, u, o);
    ReportableDistinct(db.txns, u, o);
    forall x, y | x in first && y in second ensures x.id != y.id {
      assert x.kind == Refund && y.kind == Qualifying;
    }
    DistinctTogether(first, second);
  }

  lemma ListedExactly(db: Db, u: UserId, o: OfferId, i: nat)
    requires RowsInPlace(db) && i < |db.txns|
    ensures Among(ToReport(db, u, o), i) <==> IsTracked(db.txns[i], u, o) || IsReportable(db.txns[i], u, o)
  {
    var first, second := TrackedRefunds(db.txns, u, o), ReportableQualifying(db.txns, u, o);
    if IsTracked(db.txns[i], u, o) || IsReportable(db.txns[i], u, o) {
      assert db.txns[i] in first || db.txns[i] in second;
      assert db.txns[i] in first + second;
    }
  }

  /** After `perform`: where two refunds are tracked, every tracked refund and every listed purchase is reported. */
  ghost predicate PairReported(db: Db, u: UserId, o: OfferId) {
    TrackedPair(db, u, o) ==>
      forall i :: 0 <= i < |db.txns| && (IsTracked(db.txns[i], u, o) || IsReportable(db.txns[i].(reported := false), u, o))
        ==> db.txns[i].reported
  }

  lemma SamePairs(db: Db, db': Db, u: UserId, o: OfferId)
    requires |db'.txns| == |db.txns|
    requires forall i :: 0 <= i < |db.txns| ==> db'.txns[i] == db.txns[i].(reported := db'.txns[i].reported)
    ensures TrackedPair(db', u, o) == TrackedPair(db, u, o)
  {
    MoreTracked(db.txns, db'.txns, u, o);
    MoreTracked(db'.txns, db.txns, u, o);
  }

  /** Flags aside, nothing about the rows is changed, and no flag is lost. */
  ghost predicate OnlyFlagged(db: Db, db': Db) {
    |db'.txns| == |db.txns|
    && forall i :: 0 <= i < |db.txns| ==>
         db'.txns[i] == db.txns[i].(reported := db'.txns[i].reported) && (db.txns[i].reported ==> db'.txns[i].reported)
  }

  lemma NewReportsDue(db: Db, todo: seq<Txn>, db': Db, u: UserId, o: OfferId)
    requires ReportsDue(db) && TrackedPair(db, u, o) && ReportsExactly(db, todo, db')
    requires forall x :: x in todo ==> x.id < |db.txns| && db.txns[x.id] == x && x.userId == u && x.offerId == o
    ensures ReportsDue(db')
  {
    forall r | r in db'.reports
      ensures ReportOf(r, db'.txns) && TrackedPair(db', r.userId, r.offerId)
    {
      SamePairs(db, db', r.userId, r.offerId);
    }
  }

  lemma AllListedReported(db: Db, db': Db, u: UserId, o: OfferId)
    requires RowsInPlace(db) && ReportsExactly(db, ToReport(db, u, o), db')
    ensures PairReported(db', u, o) && OnlyFlagged(db, db')
  {
    forall i: nat | i < |db.txns|
      ensures Among(ToReport(db, u, o), i) <==> IsTracked(db.txns[i], u, o) || IsReportable(db.txns[i], u, o)
    {
      ListedExactly(db, u, o, i);
    }
  }

  lemma ReportingKeeps(db: Db, t: Txn)
    requires RowsInPlace(db) && FlagsMatch(db) && ReportsDue(db) && KindsFit(db)
    ensures var db' := Reported(db, t);
            RowsInPlace(db') && FlagsMatch(db') && ReportsDue(db') && KindsFit(db')
            && PairReported(db', t.userId, t.offerId) && OnlyFlagged(db, db')
  {
    var db', u, o := Reported(db, t), t.userId, t.offerId;
    if TrackedPair(db, u, o) {
      var todo := ToReport(db, u, o);
      ListedOnce(db, u, o);
      ReportAllExactly(db, todo);
      assert db' == ReportAll(db, todo);
      NewReportsDue(db, todo, db', u, o);
      AllListedReported(db, db', u, o);
    }
  }

  // ---- Marking a pending row ----

  lemma MarkKeepsPair(db: Db, id: RowId, s: Status, u: UserId, o: OfferId)
    requires RowsInPlace(db) && KindsFit(db) && id < |db.txns| && !db.txns[id].processed
    ensures TrackedPair(db, u, o) ==> TrackedPair(Mark(db, id, s), u, o)
  {
    MoreTracked(db.txns, Mark(db, id, s).txns, u, o);
  }

  /** The mark tracks no refund of this user and offer. */
  lemma MarkKeepsReported(db: Db, id: RowId, s: Status, u: UserId, o: OfferId)
    requires RowsInPlace(db) && TrackedReported(db, u, o) && id < |db.txns|
    requires s != RefundTrackedForReporting || u != db.txns[id].userId || o != db.txns[id].offerId
    ensures TrackedReported(Mark(db, id, s), u, o)
  {
    MoreTracked(Mark(db, id, s).txns, db.txns, u, o);
  }

  lemma MarkKeeps(db: Db, id: RowId, s: Status)
    requires Sound(db) && id < |db.txns| && !db.txns[id].processed
    requires s == RefundTrackedForReporting ==> db.txns[id].kind == Refund
    ensures var db' := Mark(db, id, s);
            RowsInPlace(db') && FlagsMatch(db') && ReportsDue(db') && KindsFit(db')
  {
    var db' := Mark(db, id, s);
    forall r | r in db'.reports ensures TrackedPair(db', r.userId, r.offerId) {
      MarkKeepsPair(db, id, s, r.userId, r.offerId);
    }
  }

  lemma PlainMarkKeepsSound(db: Db, id: RowId, s: Status)
    requires Sound(db) && id < |db.txns| && !db.txns[id].processed && s != RefundTrackedForReporting
    ensures Sound(Mark(db, id, s))
  {
    MarkKeeps(db, id, s);
    forall u, o ensures TrackedReported(Mark(db, id, s), u, o) {
      assert TrackedReported(db, u, o);
      MarkKeepsReported(db, id, s, u, o);
    }
  }

  lemma OnlyTables(a: Db, b: Db)
    requires Sound(a) && b.txns == a.txns && b.reports == a.reports
    ensures Sound(b)
  {
    forall u, o ensures TrackedReported(b, u, o) {
      assert TrackedReported(a, u, o);
    }
  }

  lemma QualifyingKeepsSound(env: Env, db: Db, t: Txn)
    requires Sound(db) && t.id < |db.txns| && !db.txns[t.id].processed
    ensures Sound(QualifyingOutcome(env, db, t))
  {
    match FirstFailing(WATERFALL, env, db, t)
    case None =>
      PlainMarkKeepsSound(db, t.id, RebateCreated);
      OnlyTables(Mark(db, t.id, RebateCreated), QualifyingOutcome(env, db, t));
    case Some(check) =>
      var s := StatusFor(check, env, t);
      if s.Some? { PlainMarkKeepsSound(db, t.id, s.value); }
  }

  lemma FulfilmentKeepsSound(env: Env, db: Db, t: Txn)
    requires Sound(db) && t.id < |db.txns| && !db.txns[t.id].processed
    ensures Sound(FulfilmentOutcome(env, db, t))
  {
    var s := FulfilmentTracksNothing(env, db, t);
    PlainMarkKeepsSound(db, t.id, s);
    OnlyTables(Mark(db, t.id, s), FulfilmentOutcome(env, db, t));
  }

  lemma FulfilmentTracksNothing(env: Env, db: Db, t: Txn) returns (s: Status)
    ensures FulfilmentVerdict(FULFILMENT_ORDER, env, db, t) == Some(s) && s != RefundTrackedForReporting
  {
    FulfilmentVerdictTotal(env, db, t);
    s := FulfilmentVerdict(FULFILMENT_ORDER, env, db, t).value;
    assert !FulfilmentApplies(RefundTrackedForReporting, env, db, t);
  }

  lemma RefundKeepsSound(env: Env, db: Db, t: Txn)
    requires Sound(db) && t.id < |db.txns| && !db.txns[t.id].processed
    requires SameIdentity(db.txns[t.id], t) && t.kind == Refund
    ensures var db' := RefundOutcome(env, db, t);
            Sound(db') && (t.offerId in env.offers ==> PairReported(db', t.userId, t.offerId))
  {
    RefundVerdictTotal(env, db, t);
    var s := RefundVerdict(env, db, t).value;
    var marked := Mark(db, t.id, s);
    MarkKeeps(db, t.id, s);
    if t.offerId !in env.offers {
      PlainMarkKeepsSound(db, t.id, s);
    } else {
      ReportingKeeps(marked, t);
      var db' := Reported(marked, t);
      forall u, o ensures TrackedReported(db', u, o) {
        SamePairs(marked, db', u, o);
        if u != t.userId || o != t.offerId { MarkKeepsReported(db, t.id, s, u, o); }
      }
    }
  }

  /** A whole row keeps the reports in order; after a refund of a known offer its pair is fully reported. */
  lemma RowKeepsSound(env: Env, db: Db, t: Txn)
    requires Sound(db) && t.id < |db.txns| && !db.txns[t.id].processed && SameIdentity(db.txns[t.id], t)
    ensures var db' := RunRow(env, db, t);
            Sound(db') && (t.kind == Refund && t.offerId in env.offers ==> PairReported(db', t.userId, t.offerId))
  {
    RowComesTo(env, db, t);
    match t.kind
    case Qualifying => QualifyingKeepsSound(env, db, t);
    case Fulfillment => FulfilmentKeepsSound(env, db, t);
    case Refund => RefundKeepsSound(env, db, t);
    case OtherKind =>
  }

  // ---- Whole batches ----

  lemma {:induction false} FinishTouches(env: Env, db: Db, t: Txn, p: Phase)
    requires Numbered(db) && (p == Done || PhaseFits(t, p))
    ensures var db' := FinishRow(env, db, t, p);
            Numbered(db') && |db'.txns| == |db.txns|
            && forall i :: 0 <= i < |db.txns| ==>
                 SameIdentity(db'.txns[i], db.txns[i]) && (i != t.id ==> db'.txns[i].processed == db.txns[i].processed)
    decreases Stage(p), Size(p)
  {
    if p != Done {
      StepProgress(env, db, t, p, true);
      StepFits(env, db, t, p, true);
      StepOnRows(env, db, t, p, true);
      var (db', p') := Step(env, db, t, p, true);
      FinishTouches(env, db', t, p');
    }
  }

  /** Rows of the table that still have to be processed, each once. */
  ghost predicate ToProcess(db: Db, rows: seq<Txn>) {
    DistinctIds(rows)
    && forall t :: t in rows ==> t.id < |db.txns| && SameIdentity(db.txns[t.id], t) && !db.txns[t.id].processed
  }

  /** One report per flagged row, due reports only, and none missing for a tracked refund, after any sequential pass. */
  lemma {:induction false} SequentialReportsAreSound(env: Env, db: Db, rows: seq<Txn>)
    requires Sound(db) && Numbered(db) && ToProcess(db, rows)
    ensures Sound(RunRows(env, db, rows))
    decreases |rows|
  {
    if rows != [] {
      var t, rest, next := rows[0], rows[1..], RunRow(env, db, rows[0]);
      assert t in rows;
      RowKeepsSound(env, db, t);
      FinishTouches(env, db, t, Start);
      forall x | x in rest ensures x in rows && x.id != t.id {
        var k :| 0 <= k < |rest| && rest[k] == x;
        assert rows[k + 1] == x;
      }
      SequentialReportsAreSound(env, next, rest);
    }
  }
}
