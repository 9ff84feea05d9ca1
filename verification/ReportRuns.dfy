/** Refund reports over all runs in which no worker is stopped while it reports: an invariant of every single access. */
module ReportRuns {
  import opened Domain
  import opened Store
  import opened Eligibility
  import opened RowSteps
  import opened World
  import opened RefundReports
  import B = Batches
  import P = Parallel
  import Runs

  /** From the mark of a refund of a known offer to the end of its report loops. */
  predicate InReport(p: Phase) {
    p == Acting(ReportRefunds) || p.Listed? || p.Reporting? || p.Flagging?
  }

  predicate ReportsAt(w: World, i: nat) {
    CanWork(w, i) && InReport(w.runners[i].phase)
  }

  predicate ReportsPair(w: World, i: nat, u: UserId, o: OfferId) {
    ReportsAt(w, i) && w.runners[i].queue[0].userId == u && w.runners[i].queue[0].offerId == o
  }

  predicate FlagsAt(w: World, i: nat, id: RowId) {
    CanWork(w, i) && w.runners[i].phase.Flagging?
    && w.runners[i].phase.todo != [] && w.runners[i].phase.todo[0].id == id
  }

  ghost predicate BeingReported(w: World, u: UserId, o: OfferId) {
    exists i: nat :: ReportsPair(w, i, u, o)
  }

  ghost predicate BeingFlagged(w: World, id: RowId) {
    exists i: nat :: FlagsAt(w, i, id)
  }

  predicate Listable(t: Txn, u: UserId, o: OfferId) {
    IsTracked(t, u, o) || IsReportable(t.(reported := false), u, o)
  }

  /** A worker's list still matches the table and misses no row that has to be reported. */
  ghost predicate TodoOk(db: Db, todo: seq<Txn>, u: UserId, o: OfferId) {
    TrackedPair(db, u, o) && Snapshot(db, todo)
    && (forall x :: x in todo ==> x.userId == u && x.offerId == o)
    && (forall k: nat :: k < |db.txns| && Listable(db.txns[k], u, o) ==> db.txns[k].reported || Among(todo, k))
  }

  ghost predicate ReporterOk(db: Db, t: Txn, p: Phase) {
    match p
    case Marking(s, sequel) => s == RefundTrackedForReporting ==> t.kind == Refund && sequel == ReportRefunds
    case Listed(tracked) =>
      TrackedPair(db, t.userId, t.offerId) && tracked == TrackedRefunds(db.txns, t.userId, t.offerId)
    case Reporting(todo) => TodoOk(db, todo, t.userId, t.offerId)
    case Flagging(todo) => TodoOk(db, todo, t.userId, t.offerId) && todo != [] && !todo[0].reported
    case _ => true
  }

  /** One report for each row that is flagged or just being flagged. */
  ghost predicate FlagsInStep(w: World) {
    forall i: nat :: i < |w.db.txns| ==>
      ReportsFor(w.db.reports, i) == if w.db.txns[i].reported || BeingFlagged(w, i) then 1 else 0
  }

  /** All tracked refunds are reported where two are tracked, unless a worker is at it. */
  ghost predicate PairsInStep(w: World) {
    forall u, o :: BeingReported(w, u, o) || TrackedReported(w.db, u, o)
  }

  ghost predicate ReportsInStep(w: World) {
    KindsFit(w.db) && ReportsDue(w.db) && FlagsInStep(w) && PairsInStep(w)
    && forall i: nat :: CanWork(w, i) ==> ReporterOk(w.db, w.runners[i].queue[0], w.runners[i].phase)
  }

  // ---- Rows of other users ----

  /** The rows of this user are as they were; what is new has no status yet. */
  ghost predicate SameRows(db: Db, db': Db, u: UserId) {
    |db.txns| <= |db'.txns|
    && (forall i :: 0 <= i < |db.txns| && (db.txns[i].userId == u || db'.txns[i].userId == u) ==> db'.txns[i] == db.txns[i])
    && (forall i :: |db.txns| <= i < |db'.txns| ==> db'.txns[i].status.None?)
  }

  lemma {:induction false} SameList(s: seq<Txn>, s': seq<Txn>, u: UserId, o: OfferId)
    requires |s| <= |s'|
    requires forall i :: 0 <= i < |s| && (IsTracked(s[i], u, o) || IsTracked(s'[i], u, o)) ==> s'[i] == s[i]
    requires forall i :: |s| <= i < |s'| ==> !IsTracked(s'[i], u, o)
    ensures TrackedRefunds(s', u, o) == TrackedRefunds(s, u, o)
  {
    if s' != [] {
      SameList(if |s| == |s'| then s[..|s'| - 1] else s, s'[..|s'| - 1], u, o);
    }
  }

  lemma SameTracked(db: Db, db': Db, u: UserId, o: OfferId)
    requires SameRows(db, db', u)
    ensures TrackedRefunds(db'.txns, u, o) == TrackedRefunds(db.txns, u, o)
  {
    SameList(db.txns, db'.txns, u, o);
  }

  lemma SameRowsSamePair(db: Db, db': Db, u: UserId, o: OfferId)
    requires SameRows(db, db', u)
    ensures TrackedPair(db', u, o) == TrackedPair(db, u, o)
    ensures TrackedReported(db, u, o) ==> TrackedReported(db', u, o)
  {
    SameTracked(db, db', u, o);
  }

  lemma SameRowsSameTodo(db: Db, db': Db, todo: seq<Txn>, u: UserId, o: OfferId)
    requires SameRows(db, db', u) && TodoOk(db, todo, u, o)
    ensures TodoOk(db', todo, u, o)
  {
    SameRowsSamePair(db, db', u, o);
  }

  lemma SameRowsSameReporter(db: Db, db': Db, x: Txn, q: Phase)
    requires SameRows(db, db', x.userId) && ReporterOk(db, x, q)
    ensures ReporterOk(db', x, q)
  {
    match q
    case Listed(_) =>
      SameTracked(db, db', x.userId, x.offerId);
    case Reporting(todo) => SameRowsSameTodo(db, db', todo, x.userId, x.offerId);
    case Flagging(todo) => SameRowsSameTodo(db, db', todo, x.userId, x.offerId);
    case _ =>
  }

  // ---- One access ----

  /** An access changes rows of its own user only. */
  lemma StepSparesOthers(env: Env, db: Db, t: Txn, p: Phase, ok: bool, v: UserId)
    requires Numbered(db) && ReporterOk(db, t, p) && v != t.userId
    requires t.id < |db.txns| && db.txns[t.id].userId == t.userId
    ensures SameRows(db, Step(env, db, t, p, ok).0, v)
  {
    if ok && p.Flagging? { assert p.todo[0] in p.todo; }
  }

  /** While two refunds of the pair are tracked, a flag set or a report written changes neither pair nor list. */
  lemma FlaggedTodo(db: Db, todo: seq<Txn>, u: UserId, o: OfferId)
    requires RowsInPlace(db) && TodoOk(db, todo, u, o) && todo != []
    ensures TodoOk(FlagReported(db, todo[0].id), todo[1..], u, o)
    ensures todo[0].reported ==> TodoOk(db, todo[1..], u, o)
  {
    var db' := FlagReported(db, todo[0].id);
    assert todo == [todo[0]] + todo[1..] && todo[0] in todo;
    SamePairs(db, db', u, o);
    StillSnapshot(db, todo, db');
    StillSnapshot(db, todo, db);
    assert forall k: nat :: Among(todo, k) ==> k == todo[0].id || Among(todo[1..], k);
  }

  lemma ListedTodo(db: Db, u: UserId, o: OfferId)
    requires RowsInPlace(db) && KindsFit(db) && TrackedPair(db, u, o)
    ensures TodoOk(db, ToReport(db, u, o), u, o)
  {
    ListedOnce(db, u, o);
    forall k: nat | k < |db.txns| && Listable(db.txns[k], u, o) && !db.txns[k].reported
      ensures Among(ToReport(db, u, o), k)
    {
      assert db.txns[k].(reported := false) == db.txns[k];
      ListedExactly(db, u, o, k);
    }
  }

  lemma ReportingReporter(env: Env, db: Db, t: Txn, todo: seq<Txn>)
    requires RowsInPlace(db) && TodoOk(db, todo, t.userId, t.offerId)
    ensures var (db', p') := Step(env, db, t, Reporting(todo), true); ReporterOk(db', t, p')
  {
    if todo != [] {
      FlaggedTodo(db, todo, t.userId, t.offerId);
      if !todo[0].reported { assert TodoOk(InsertReport(db, todo[0]), todo, t.userId, t.offerId); }
    }
  }

  lemma OwnReporterOk(env: Env, db: Db, t: Txn, p: Phase, ok: bool)
    requires RowsInPlace(db) && KindsFit(db) && ReporterOk(db, t, p) && PhaseFits(t, p) && (InReport(p) ==> ok)
    ensures var (db', p') := Step(env, db, t, p, ok); ReporterOk(db', t, p')
  {
    var u, o := t.userId, t.offerId;
    match p
    case Start => BeginReporter(env, db, t);
    case LimitSeen => ConcludedReporter(env, db, t);
    case PaymentUnusedSeen => ValidatedReporter(env, db, t);
    case Listed(_) => ListedTodo(db, u, o);
    case Reporting(todo) => ReportingReporter(env, db, t, todo);
    case Flagging(todo) => FlaggedTodo(db, todo, u, o);
    case _ =>
  }

  /** Only a refund of a known offer is ever tracked, and then reports follow. */
  lemma BeginReporter(env: Env, db: Db, t: Txn)
    ensures ReporterOk(db, t, Begin(env, db, t))
  {
    match t.kind
    case Qualifying => ScreenedReporter(env, db, t);
    case Fulfillment => FirstLookTotal(env, db, t);
    case Refund => RefundReporter(env, db, t);
    case OtherKind =>
  }

  lemma ScreenedReporter(env: Env, db: Db, t: Txn)
    ensures ReporterOk(db, t, Screened(env, db, t))
  {
    var first := FirstFailing(SCREENING, env, db, t);
    if first.Some? { RefusedReporter(first.value, env, db, t); }
  }

  lemma RefusedReporter(check: Check, env: Env, db: Db, t: Txn)
    ensures ReporterOk(db, t, Refused(check, env, t))
  {
  }

  lemma RefundReporter(env: Env, db: Db, t: Txn)
    requires t.kind == Refund
    ensures ReporterOk(db, t, Begin(env, db, t))
  {
    RefundVerdictTotal(env, db, t);
  }

  lemma ConcludedReporter(env: Env, db: Db, t: Txn)
    ensures ReporterOk(db, t, Concluded(env, db, t))
  {
    var first := FirstFailing(CONCLUDING, env, db, t);
    if first.Some? { RefusedReporter(first.value, env, db, t); }
  }

  lemma ValidatedReporter(env: Env, db: Db, t: Txn)
    ensures ReporterOk(db, t, Validated(env, db, t))
  {
    SecondLookTotal(env, db, t);
  }

  // ---- Whose pair and whose row ----

  lemma HeadFits(hash: UserId -> int, w: World, i: nat)
    requires Base(hash, w) && ReportsInStep(w) && CanWork(w, i)
    ensures var t, p := w.runners[i].queue[0], w.runners[i].phase;
            t.id < |w.db.txns| && SameIdentity(w.db.txns[t.id], t) && PhaseFits(t, p) && ReporterOk(w.db, t, p)
            && (BeforeMark(p) ==> !w.db.txns[t.id].processed)
  {
    assert RunnerOk(hash, w.db, |w.runners|, i, w.runners[i]);
    assert w.runners[i].queue[0] in w.runners[i].queue;
  }

  lemma UsersApart(hash: UserId -> int, w: World, i: nat, j: nat)
    requires Base(hash, w) && CanWork(w, i) && CanWork(w, j) && i != j
    ensures w.runners[i].queue[0].userId != w.runners[j].queue[0].userId
  {
    OneUserOneWorker(hash, w, i, j, w.runners[i].queue[0], w.runners[j].queue[0]);
  }

  lemma FlagsOwnRow(hash: UserId -> int, w: World, i: nat, id: RowId)
    requires Base(hash, w) && ReportsInStep(w) && FlagsAt(w, i, id)
    ensures id < |w.db.txns| && w.db.txns[id].userId == w.runners[i].queue[0].userId && !w.db.txns[id].reported
  {
    assert ReporterOk(w.db, w.runners[i].queue[0], w.runners[i].phase);
    assert w.runners[i].phase.todo[0] in w.runners[i].phase.todo;
  }

  /** Only its own worker reports a user's pair, and only that worker flags the user's rows. */
  lemma OnlyOwnWorker(hash: UserId -> int, w: World, i: nat, o: OfferId, id: RowId)
    requires Base(hash, w) && ReportsInStep(w) && CanWork(w, i)
    requires id < |w.db.txns| && w.db.txns[id].userId == w.runners[i].queue[0].userId
    ensures BeingReported(w, w.runners[i].queue[0].userId, o) ==> ReportsPair(w, i, w.runners[i].queue[0].userId, o)
    ensures BeingFlagged(w, id) ==> FlagsAt(w, i, id)
  {
    var u := w.runners[i].queue[0].userId;
    if j: nat :| ReportsPair(w, j, u, o) {
      if j != i { UsersApart(hash, w, i, j); }
    }
    if j: nat :| FlagsAt(w, j, id) {
      FlagsOwnRow(hash, w, j, id);
      if j != i { UsersApart(hash, w, i, j); }
    }
  }

  /** Other workers go on reporting and flagging what they were. */
  lemma OthersGoOn(w: World, w': World, i: nat, u: UserId, o: OfferId, id: RowId)
    requires |w'.runners| == |w.runners| && forall j: nat :: j < |w.runners| && j != i ==> w'.runners[j] == w.runners[j]
    ensures BeingReported(w, u, o) && !ReportsPair(w, i, u, o) ==> BeingReported(w', u, o)
    ensures FlagsAt(w', i, id) == FlagsAt(w, i, id) ==> BeingFlagged(w', id) == BeingFlagged(w, id)
  {
    if j: nat :| ReportsPair(w, j, u, o) {
      if j != i { assert ReportsPair(w', j, u, o); }
    }
    if j: nat :| FlagsAt(w, j, id) {
      if j != i { assert FlagsAt(w', j, id); }
    }
    if j: nat :| FlagsAt(w', j, id) {
      if j != i { assert FlagsAt(w, j, id); }
    }
  }

  // ---- A worker's access ----

  lemma WorkKeepsKinds(env: Env, db: Db, t: Txn, p: Phase, ok: bool)
    requires RowsInPlace(db) && KindsFit(db) && ReporterOk(db, t, p)
    requires t.id < |db.txns| && db.txns[t.id].kind == t.kind
    ensures KindsFit(Step(env, db, t, p, ok).0) && |Step(env, db, t, p, ok).0.txns| == |db.txns|
  {
  }

  lemma StepTracksMore(env: Env, db: Db, t: Txn, p: Phase, ok: bool, u: UserId, o: OfferId)
    requires RowsInPlace(db) && KindsFit(db) && t.id < |db.txns| && (BeforeMark(p) ==> !db.txns[t.id].processed)
    ensures TrackedPair(db, u, o) ==> TrackedPair(Step(env, db, t, p, ok).0, u, o)
  {
    MoreTracked(db.txns, Step(env, db, t, p, ok).0.txns, u, o);
  }

  lemma WorkKeepsDue(env: Env, db: Db, t: Txn, p: Phase, ok: bool)
    requires Numbered(db) && KindsFit(db) && ReportsDue(db) && ReporterOk(db, t, p) && PhaseFits(t, p)
    requires t.id < |db.txns| && (BeforeMark(p) ==> !db.txns[t.id].processed)
    ensures ReportsDue(Step(env, db, t, p, ok).0)
  {
    var db' := Step(env, db, t, p, ok).0;
    StepOnRows(env, db, t, p, ok);
    if p.Reporting? && p.todo != [] { assert p.todo[0] in p.todo; }
    forall r | r in db'.reports ensures ReportOf(r, db'.txns) && TrackedPair(db', r.userId, r.offerId) {
      StepTracksMore(env, db, t, p, ok, r.userId, r.offerId);
      assert r in db.reports || (p.Reporting? && r == NewReport(p.todo[0]));
    }
  }

  lemma ReportsAfterInsert(db: Db, x: Txn, id: RowId)
    ensures ReportsFor(InsertReport(db, x).reports, id) == ReportsFor(db.reports, id) + if x.id == id then 1 else 0
  {
    assert InsertReport(db, x).reports[..|db.reports|] == db.reports;
  }

  predicate Writes(p: Phase, ok: bool, id: RowId) {
    ok && p.Reporting? && p.todo != [] && !p.todo[0].reported && p.todo[0].id == id
  }

  predicate Flags(p: Phase, ok: bool, id: RowId) {
    ok && p.Flagging? && p.todo != [] && p.todo[0].id == id
  }

  lemma StepReports(env: Env, db: Db, t: Txn, p: Phase, ok: bool, id: RowId)
    requires RowsInPlace(db) && id < |db.txns|
    ensures var (db', p') := Step(env, db, t, p, ok);
            |db'.txns| == |db.txns|
            && ReportsFor(db'.reports, id) == ReportsFor(db.reports, id) + (if Writes(p, ok, id) then 1 else 0)
            && db'.txns[id].reported == (db.txns[id].reported || Flags(p, ok, id))
            && (p'.Flagging? <==> ok && p.Reporting? && p.todo != [] && !p.todo[0].reported)
            && (p'.Flagging? ==> p'.todo == p.todo)
  {
    if ok && p.Reporting? && p.todo != [] { ReportsAfterInsert(db, p.todo[0], id); }
  }

  lemma WorkKeepsFlag(hash: UserId -> int, w: World, i: nat, env: Env, ok: bool, id: nat)
    requires Base(hash, w) && ReportsInStep(w) && CanWork(w, i) && (ReportsAt(w, i) ==> ok)
    requires id < |w.db.txns|
    ensures var w' := Worked(w, i, env, ok);
            |w'.db.txns| == |w.db.txns|
            && ReportsFor(w'.db.reports, id) == if w'.db.txns[id].reported || BeingFlagged(w', id) then 1 else 0
  {
    var t, p, w' := w.runners[i].queue[0], w.runners[i].phase, Worked(w, i, env, ok);
    HeadFits(hash, w, i);
    StepReports(env, w.db, t, p, ok, id);
    assert FlagsAt(w', i, id) <==> Writes(p, ok, id);
    if Writes(p, ok, id) {
      assert p.todo[0] in p.todo;
      OnlyOwnWorker(hash, w, i, 0, id);
      assert FlagsAt(w', i, id);
    } else if Flags(p, ok, id) {
      assert FlagsAt(w, i, id);
    } else {
      OthersGoOn(w, w', i, 0, 0, id);
    }
  }

  lemma WorkKeepsPair(hash: UserId -> int, w: World, i: nat, env: Env, ok: bool, u: UserId, o: OfferId)
    requires Base(hash, w) && ReportsInStep(w) && CanWork(w, i) && (ReportsAt(w, i) ==> ok)
    ensures var w' := Worked(w, i, env, ok); BeingReported(w', u, o) || TrackedReported(w'.db, u, o)
  {
    var t, p, w' := w.runners[i].queue[0], w.runners[i].phase, Worked(w, i, env, ok);
    HeadFits(hash, w, i);
    OthersGoOn(w, w', i, u, o, 0);
    if u != t.userId {
      if !BeingReported(w, u, o) {
        StepSparesOthers(env, w.db, t, p, ok, u);
        SameRowsSamePair(w.db, w'.db, u, o);
      }
    } else if ReportsPair(w', i, u, o) {
    } else {
      OnlyOwnWorker(hash, w, i, o, t.id);
      OwnPair(env, w.db, t, p, ok, o);
    }
  }

  lemma LastAccess(env: Env, db: Db, t: Txn, p: Phase)
    requires ReporterOk(db, t, p) && InReport(p) && !InReport(Step(env, db, t, p, true).1)
    ensures Step(env, db, t, p, true) == (db, Done) && PairReported(db, t.userId, t.offerId)
  {
  }

  lemma SameRowsSameReported(db: Db, db': Db, u: UserId, o: OfferId)
    requires TrackedReported(db, u, o) && db'.txns == db.txns
    ensures TrackedReported(db', u, o)
  {
  }

  lemma StepWritesRows(env: Env, db: Db, t: Txn, p: Phase, ok: bool)
    ensures !(ok && (p.Marking? || p.Flagging?)) ==> Step(env, db, t, p, ok).0.txns == db.txns
    ensures p.Flagging? && p.todo != [] && ok ==> InReport(Step(env, db, t, p, ok).1)
  {
  }

  /** What an access leaves of its own user's pairs, unless it is still reporting the pair. */
  lemma OwnPair(env: Env, db: Db, t: Txn, p: Phase, ok: bool, o: OfferId)
    requires RowsInPlace(db) && ReporterOk(db, t, p) && PhaseFits(t, p) && (InReport(p) ==> ok)
    requires t.id < |db.txns| && SameIdentity(db.txns[t.id], t)
    requires (InReport(p) && o == t.offerId) || TrackedReported(db, t.userId, o)
    requires !(InReport(Step(env, db, t, p, ok).1) && o == t.offerId)
    ensures TrackedReported(Step(env, db, t, p, ok).0, t.userId, o)
  {
    var db' := Step(env, db, t, p, ok).0;
    StepWritesRows(env, db, t, p, ok);
    if ok && p.Marking? {
      MarkKeepsReported(db, t.id, p.status, t.userId, o);
    } else if ok && p.Flagging? {
      SamePairs(db, db', t.userId, o);
    } else {
      if !TrackedReported(db, t.userId, o) { LastAccess(env, db, t, p); }
      SameRowsSameReported(db, db', t.userId, o);
    }
  }

  lemma WorkKeepsReports(hash: UserId -> int, w: World, i: nat, env: Env, ok: bool)
    requires Base(hash, w) && ReportsInStep(w) && CanWork(w, i) && (ReportsAt(w, i) ==> ok)
    ensures ReportsInStep(Worked(w, i, env, ok))
  {
    var t, p, w' := w.runners[i].queue[0], w.runners[i].phase, Worked(w, i, env, ok);
    HeadFits(hash, w, i);
    WorkKeepsKinds(env, w.db, t, p, ok);
    WorkKeepsDue(env, w.db, t, p, ok);
    forall id: nat | id < |w'.db.txns|
      ensures ReportsFor(w'.db.reports, id) == if w'.db.txns[id].reported || BeingFlagged(w', id) then 1 else 0
    {
      WorkKeepsFlag(hash, w, i, env, ok, id);
    }
    forall u, o ensures BeingReported(w', u, o) || TrackedReported(w'.db, u, o) {
      WorkKeepsPair(hash, w, i, env, ok, u, o);
    }
    forall j: nat | CanWork(w', j) ensures ReporterOk(w'.db, w'.runners[j].queue[0], w'.runners[j].phase) {
      if j == i {
        OwnReporterOk(env, w.db, t, p, ok);
      } else {
        assert CanWork(w, j);
        UsersApart(hash, w, i, j);
        StepSparesOthers(env, w.db, t, p, ok, w.runners[j].queue[0].userId);
        SameRowsSameReporter(w.db, w'.db, w.runners[j].queue[0], w.runners[j].phase);
      }
    }
  }

  // ---- Everything else ----

  /** No access of a reporting worker fails, and no reporting worker crashes or is restarted. */
  ghost predicate Calm(w: World, a: Action) {
    match a
    case Work(i, _, ok) => ReportsAt(w, i) ==> ok
    case Crash(i) => !ReportsAt(w, i)
    case Restart(n) => n > 0 ==> forall i: nat :: !ReportsAt(w, i)
    case _ => true
  }

  /** What the other actions do to rows and reports: a new row, other processors, or nothing. */
  lemma QuietRowsAndReports(hash: UserId -> int, w: World, a: Action)
    requires Base(hash, w) && !a.Work?
    ensures var db, db' := w.db, Next(hash, w, a).db;
            db'.reports == db.reports && |db.txns| <= |db'.txns|
            && (forall i :: 0 <= i < |db.txns| ==> db'.txns[i] == db.txns[i].(processor := db'.txns[i].processor))
            && (forall i :: |db.txns| <= i < |db'.txns| ==>
                  db'.txns[i].status.None? && !db'.txns[i].processed && !db'.txns[i].reported)
            && (!a.Restart? ==> forall u :: SameRows(db, db', u))
  {
    if a.Export? { ExportOnlyRebates(w.db, w.files, w.exporter, a.ok); }
  }

  /** Reporting workers keep their place. */
  lemma QuietWorkers(hash: UserId -> int, w: World, a: Action, i: nat)
    requires !a.Work? && Calm(w, a)
    ensures var w' := Next(hash, w, a);
            (CanWork(w', i) ==> w'.runners[i].phase.Start? || (CanWork(w, i) && w'.runners[i] == w.runners[i]))
            && (ReportsAt(w, i) ==> CanWork(w', i) && w'.runners[i] == w.runners[i])
            && (a.Restart? && a.n > 0 ==> !CanWork(w', i))
  {
  }

  lemma QuietBusy(hash: UserId -> int, w: World, a: Action, u: UserId, o: OfferId, id: RowId)
    requires !a.Work? && Calm(w, a)
    ensures var w' := Next(hash, w, a);
            BeingReported(w', u, o) == BeingReported(w, u, o) && BeingFlagged(w', id) == BeingFlagged(w, id)
  {
    var w' := Next(hash, w, a);
    forall i: nat ensures ReportsPair(w', i, u, o) == ReportsPair(w, i, u, o) && FlagsAt(w', i, id) == FlagsAt(w, i, id) {
      QuietWorkers(hash, w, a, i);
    }
  }

  lemma {:induction false} NoReportsFor(s: seq<RefundReport>, id: RowId)
    requires forall r :: r in s ==> r.source != id
    ensures ReportsFor(s, id) == 0
  {
    if s != [] {
      assert s[|s| - 1] in s;
      NoReportsFor(s[..|s| - 1], id);
    }
  }

  lemma {:induction false} SameCount(s: seq<Txn>, s': seq<Txn>, u: UserId, o: OfferId)
    requires |s| <= |s'| && forall i :: 0 <= i < |s| ==> IsTracked(s'[i], u, o) == IsTracked(s[i], u, o)
    requires forall i :: |s| <= i < |s'| ==> !IsTracked(s'[i], u, o)
    ensures |TrackedRefunds(s', u, o)| == |TrackedRefunds(s, u, o)|
  {
    if s' != [] {
      var n := |s'| - 1;
      SameCount(if |s| == |s'| then s[..n] else s, s'[..n], u, o);
    }
  }

  lemma OnlyProcessors(db: Db, db': Db, u: UserId, o: OfferId)
    requires |db.txns| <= |db'.txns|
    requires forall i :: 0 <= i < |db.txns| ==> db'.txns[i] == db.txns[i].(processor := db'.txns[i].processor)
    requires forall i :: |db.txns| <= i < |db'.txns| ==> db'.txns[i].status.None?
    ensures TrackedPair(db', u, o) == TrackedPair(db, u, o)
    ensures TrackedReported(db, u, o) ==> TrackedReported(db', u, o)
  {
    SameCount(db.txns, db'.txns, u, o);
  }

  lemma QuietKeepsDue(hash: UserId -> int, w: World, a: Action)
    requires Base(hash, w) && ReportsDue(w.db) && !a.Work?
    ensures ReportsDue(Next(hash, w, a).db)
  {
    var db' := Next(hash, w, a).db;
    QuietRowsAndReports(hash, w, a);
    forall r | r in db'.reports ensures ReportOf(r, db'.txns) && TrackedPair(db', r.userId, r.offerId) {
      OnlyProcessors(w.db, db', r.userId, r.offerId);
    }
  }

  lemma QuietKeepsReports(hash: UserId -> int, w: World, a: Action)
    requires Base(hash, w) && ReportsInStep(w) && !a.Work? && Calm(w, a)
    ensures ReportsInStep(Next(hash, w, a))
  {
    var w' := Next(hash, w, a);
    QuietRowsAndReports(hash, w, a);
    QuietKeepsDue(hash, w, a);
    forall id: nat | id < |w'.db.txns|
      ensures ReportsFor(w'.db.reports, id) == if w'.db.txns[id].reported || BeingFlagged(w', id) then 1 else 0
    {
      QuietBusy(hash, w, a, 0, 0, id);
      if id >= |w.db.txns| {
        NoReportsFor(w.db.reports, id);
        if i: nat :| FlagsAt(w, i, id) { FlagsOwnRow(hash, w, i, id); }
      }
    }
    forall u, o ensures BeingReported(w', u, o) || TrackedReported(w'.db, u, o) {
      QuietBusy(hash, w, a, u, o, 0);
      OnlyProcessors(w.db, w'.db, u, o);
    }
    forall i: nat | CanWork(w', i) ensures ReporterOk(w'.db, w'.runners[i].queue[0], w'.runners[i].phase) {
      QuietWorkers(hash, w, a, i);
      if !w'.runners[i].phase.Start? {
        if a.Restart? { assert a.n == 0; }
        SameRowsSameReporter(w.db, w'.db, w.runners[i].queue[0], w.runners[i].phase);
      }
    }
  }

  // ---- Whole runs ----

  ghost predicate CalmRun(hash: UserId -> int, w: World, actions: seq<Action>)
    decreases |actions|
  {
    actions == [] || (Calm(w, actions[0]) && CalmRun(hash, Next(hash, w, actions[0]), actions[1..]))
  }

  /**
    * Over any run of any number of workers in which none is stopped while it reports, with arrivals, restarts, exports,
    * syncs and failures elsewhere: one report for each flagged row, reports only and always where two refunds are
    * tracked, up to the rows and pairs being reported at the moment.
    */
  lemma {:induction false} ReportsStayInStep(hash: UserId -> int, w: World, actions: seq<Action>)
    requires Base(hash, w) && ReportsInStep(w) && CalmRun(hash, w, actions)
    ensures Base(hash, Run(hash, w, actions)) && ReportsInStep(Run(hash, w, actions))
    decreases |actions|
  {
    if actions != [] {
      var a := actions[0];
      NextKeepsBase(hash, w, a);
      if a.Work? {
        if CanWork(w, a.i) { WorkKeepsReports(hash, w, a.i, a.env, a.ok); }
      } else {
        QuietKeepsReports(hash, w, a);
      }
      ReportsStayInStep(hash, Next(hash, w, a), actions[1..]);
    }
  }

  /** While nobody reports, the invariant says that the reports are in order. */
  lemma QuietMeansSound(w: World)
    requires Numbered(w.db) && forall i: nat :: !ReportsAt(w, i)
    ensures ReportsInStep(w) ==> Sound(w.db)
    ensures Sound(w.db) && w.runners == [] ==> ReportsInStep(w)
  {
    forall u, o ensures !BeingReported(w, u, o) {
      forall i: nat ensures !ReportsPair(w, i, u, o) {
      }
    }
    forall id: nat ensures !BeingFlagged(w, id) {
      forall i: nat ensures !FlagsAt(w, i, id) {
        assert !ReportsAt(w, i);
      }
    }
  }

  /** A worker that leaves its report loops has reported every tracked refund and every listed purchase of the pair. */
  lemma ReportingCompletes(hash: UserId -> int, w: World, i: nat, env: Env)
    requires Base(hash, w) && ReportsInStep(w) && ReportsAt(w, i)
    requires !ReportsAt(Worked(w, i, env, true), i)
    ensures PairReported(Worked(w, i, env, true).db, w.runners[i].queue[0].userId, w.runners[i].queue[0].offerId)
  {
    LastAccess(env, w.db, w.runners[i].queue[0], w.runners[i].phase);
  }

  // ---- A worker stopped while it reports ----

  /**
    * Stopping a worker in its report loops, by a crash or by an access that fails, leaves the reports in order exactly
    * if it was not between a report and its flag and no tracked refund of its pair was still to be reported.
    */
  lemma StoppingKeepsReportsIff(hash: UserId -> int, w: World, a: Action, i: nat)
    requires Base(hash, w) && ReportsInStep(w) && ReportsAt(w, i)
    requires a == Crash(i) || (a.Work? && a.i == i && !a.ok)
    ensures var t := w.runners[i].queue[0];
            ReportsInStep(Next(hash, w, a)) <==>
              !w.runners[i].phase.Flagging? && TrackedReported(w.db, t.userId, t.offerId)
  {
    var w', t, p := Next(hash, w, a), w.runners[i].queue[0], w.runners[i].phase;
    HeadFits(hash, w, i);
    if p.Flagging? { FlagIsMissed(hash, w, w', i); }
    if !TrackedReported(w.db, t.userId, t.offerId) { PairIsMissed(hash, w, w', i); }
    if !p.Flagging? && TrackedReported(w.db, t.userId, t.offerId) {
      NothingIsMissed(w, w', i);
    }
  }

  /** The same tables and the same other workers, but this one no longer reports. */
  predicate Stopped(w: World, w': World, i: nat) {
    w'.db == w.db && |w'.runners| == |w.runners| && (CanWork(w', i) ==> w'.runners[i].phase.Start?)
    && forall j: nat :: j < |w.runners| && j != i ==> w'.runners[j] == w.runners[j]
  }

  lemma FlagIsMissed(hash: UserId -> int, w: World, w': World, i: nat)
    requires Base(hash, w) && ReportsInStep(w) && CanWork(w, i) && w.runners[i].phase.Flagging? && Stopped(w, w', i)
    ensures !ReportsInStep(w')
  {
    HeadFits(hash, w, i);
    var id := w.runners[i].phase.todo[0].id;
    assert FlagsAt(w, i, id);
    FlagsOwnRow(hash, w, i, id);
    forall j: nat ensures !FlagsAt(w', j, id) {
      if j != i && FlagsAt(w, j, id) {
        FlagsOwnRow(hash, w, j, id);
        UsersApart(hash, w, i, j);
      }
    }
    assert !BeingFlagged(w', id) && ReportsFor(w.db.reports, id) == 1;
  }

  lemma PairIsMissed(hash: UserId -> int, w: World, w': World, i: nat)
    requires Base(hash, w) && ReportsInStep(w) && CanWork(w, i) && Stopped(w, w', i)
    requires !TrackedReported(w.db, w.runners[i].queue[0].userId, w.runners[i].queue[0].offerId)
    ensures !ReportsInStep(w')
  {
    var u, o := w.runners[i].queue[0].userId, w.runners[i].queue[0].offerId;
    forall j: nat ensures !ReportsPair(w', j, u, o) {
      if j != i && ReportsPair(w, j, u, o) { UsersApart(hash, w, i, j); }
    }
    assert !BeingReported(w', u, o);
  }

  lemma NothingIsMissed(w: World, w': World, i: nat)
    requires ReportsInStep(w) && Stopped(w, w', i) && ReportsAt(w, i) && !w.runners[i].phase.Flagging?
    requires TrackedReported(w.db, w.runners[i].queue[0].userId, w.runners[i].queue[0].offerId)
    ensures ReportsInStep(w')
  {
    forall id: nat | id < |w.db.txns|
      ensures ReportsFor(w'.db.reports, id) == if w'.db.txns[id].reported || BeingFlagged(w', id) then 1 else 0
    {
      OthersGoOn(w, w', i, 0, 0, id);
    }
    forall u, o ensures BeingReported(w', u, o) || TrackedReported(w'.db, u, o) {
      OthersGoOn(w, w', i, u, o, 0);
    }
    forall j: nat | CanWork(w', j) ensures ReporterOk(w'.db, w'.runners[j].queue[0], w'.runners[j].phase) {
      if j != i { assert CanWork(w, j); }
    }
  }

  // ---- Batches ----

  lemma {:induction false} SuccessIsCalm(hash: UserId -> int, w: World, actions: seq<Action>)
    requires forall a :: a in actions ==> a.Load? || (a.Work? && a.ok)
    ensures CalmRun(hash, w, actions)
    decreases |actions|
  {
    if actions != [] {
      assert actions[0] in actions;
      SuccessIsCalm(hash, Next(hash, w, actions[0]), actions[1..]);
    }
  }

  /** Every finished interleaving of an assigned batch leaves the reports in order; whose ids are whose does not matter. */
  lemma BatchReportsAreSound(env: Env, db: Db, hash: UserId -> int, lists: seq<seq<Txn>>, schedule: seq<nat>)
    requires |lists| > 0 && Numbered(db) && Sound(db) && B.Loaded(db, hash, lists)
    requires P.AllDone(P.Interleave(env, B.Started(db, hash, lists), schedule))
    ensures Sound(P.Interleave(env, B.Started(db, hash, lists), schedule).db)
  {
    var w, actions := Runs.Resting(db), Runs.BatchActions(env, lists, schedule);
    var rest := Runs.Loads(lists, 0) + Runs.Accesses(env, schedule);
    assert actions[0] == Restart(|lists|) && actions[1..] == rest;
    QuietMeansSound(w);
    SuccessIsCalm(hash, Next(hash, w, actions[0]), rest);
    ReportsStayInStep(hash, w, actions);
    Runs.BatchIsRun(hash, env, db, lists, schedule);
    var b, end := P.Interleave(env, B.Started(db, hash, lists), schedule), Run(hash, w, actions);
    forall i: nat ensures !ReportsAt(end, i) {
      assert i < |b.workers| ==> b.workers[i] in b.workers;
    }
    QuietMeansSound(end);
  }
}
