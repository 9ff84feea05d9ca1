/** The whole system: tables, workers that may fail or crash at any access, reruns, arrivals, one exporter. */
module World {
  import opened Domain
  import opened Store
  import opened Eligibility
  import opened RowSteps
  import opened Assignment

  datatype Runner = Waiting | Running(queue: seq<Txn>, phase: Phase)

  /** Where the exporter is. `since` is how many rebates existed when it claimed its work. */
  datatype Exporter =
    | Idle
    | Claimed(since: nat)
    | Selected(since: nat, file: set<RebateId>)
    | Delivered(since: nat, file: set<RebateId>)
    | Journaled(since: nat, file: set<RebateId>, todo: seq<Rebate>)
    | Finished(since: nat)
    | Resetting

  datatype World = World(db: Db, runners: seq<Runner>, exporter: Exporter, files: seq<set<RebateId>>)

  datatype Action =
    | Arrive(t: Txn)                            // a transaction row is imported
    | Restart(n: nat)                           // earlier processes are gone; rows are assigned to n new workers
    | Load(i: nat, rows: seq<Txn>)              // worker i reads its list
    | Work(i: nat, env: Env, ok: bool)          // worker i makes one access
    | Crash(i: nat)
    | Export(ok: bool)                          // the exporter makes one access
    | ExportCrash
    | Sync(offer: OfferId)                      // fulfilled rebates of an offer are flagged as synced

  function Extracting(s: seq<Rebate>): (r: seq<Rebate>)
    ensures forall x :: x in r <==> x in s && x.status == ExtractionStarted
  {
    if s == [] then [] else
    var n := |s| - 1;
    assert s == s[..n] + [s[n]];
    Extracting(s[..n]) + if s[n].status == ExtractionStarted then [s[n]] else []
  }

  function ExtractingIds(s: seq<Rebate>): set<RebateId> {
    set r | r in Extracting(s) :: r.id
  }

  /** One access of the exporter; a failure before the upload leads to the roll-back, a later one to nothing. */
  function ExportStep(db: Db, files: seq<set<RebateId>>, e: Exporter, ok: bool): (Db, seq<set<RebateId>>, Exporter) {
    if !ok then (db, files, if e.Idle? || e.Claimed? || e.Selected? then Resetting else Idle) else
    match e
    case Idle => (db.(rebates := UpdateRebates(db.rebates, ExtractionBegun)), files, Claimed(|db.rebates|))
    case Claimed(n) =>
      var file := ExtractingIds(db.rebates);
      (db, files, if file == {} then Finished(n) else Selected(n, file))
    case Selected(n, file) => (db, files + [file], Delivered(n, file))
    case Delivered(n, file) => (db, files, Journaled(n, file, Extracting(db.rebates)))
    case Journaled(n, file, todo) =>
      if todo == []
      then (db.(rebates := UpdateRebates(db.rebates, ExtractionEnded)), files, Finished(n))
      else (db.(journal := db.journal + [NewJournal(|db.journal|, todo[0], PendingFulfillment)]), files,
            Journaled(n, file, todo[1..]))
    case Finished(_) => (db, files, Idle)
    case Resetting => (db.(rebates := UpdateRebates(db.rebates, ExtractionReset)), files, Idle)
  }

  predicate CanArrive(db: Db, t: Txn) {
    t.id == |db.txns| && !t.processed && t.status.None? && t.processor.None? && !t.reported
  }

  predicate CanWork(w: World, i: nat) {
    i < |w.runners| && w.runners[i].Running? && w.runners[i].queue != []
  }

  ghost function Next(hash: UserId -> int, w: World, a: Action): World {
    match a
    case Arrive(t) => if CanArrive(w.db, t) then w.(db := w.db.(txns := w.db.txns + [t])) else w
    case Restart(n) =>
      if n == 0 then w else w.(db := AssignWorkers(w.db, hash, n), runners := seq(n, _ => Waiting))
    case Load(i, rows) =>
      if i < |w.runners| && w.runners[i].Waiting? && IsPendingList(w.db, i + 1, rows)
      then w.(runners := w.runners[i := Running(rows, Start)]) else w
    case Work(i, env, ok) => if CanWork(w, i) then Worked(w, i, env, ok) else w
    case Crash(i) => if i < |w.runners| then w.(runners := w.runners[i := Running([], Start)]) else w
    case Export(ok) => ExportNext(w, ok)
    case ExportCrash => w.(exporter := Idle)
    case Sync(o) => w.(db := w.db.(rebates := UpdateRebates(w.db.rebates, MopSynced(o))))
  }

  function ExportNext(w: World, ok: bool): World {
    var (db, files, e) := ExportStep(w.db, w.files, w.exporter, ok);
    World(db, w.runners, e, files)
  }

  function Worked(w: World, i: nat, env: Env, ok: bool): World
    requires CanWork(w, i)
  {
    var Running(queue, phase) := w.runners[i];
    var (db', p') := Step(env, w.db, queue[0], phase, ok);
    w.(db := db', runners := w.runners[i := if p' == Done then Running(queue[1..], Start) else Running(queue, p')])
  }

  ghost function Run(hash: UserId -> int, w: World, actions: seq<Action>): World
    decreases |actions|
  {
    if actions == [] then w else Run(hash, Next(hash, w, actions[0]), actions[1..])
  }

  // ---- One user, one worker ----

  /** The columns of a transaction row that processing never changes. */
  predicate SameIdentity(a: Txn, b: Txn) {
    a == b.(processed := a.processed, status := a.status, processor := a.processor, reported := a.reported)
  }

  predicate BeforeMark(p: Phase) {
    p.Start? || p.LimitSeen? || p.PaymentUnusedSeen? || p.Marking?
  }

  /** A phase only occurs for rows of the type whose strategy has it. */
  predicate PhaseFits(t: Txn, p: Phase) {
    match p
    case LimitSeen => t.kind == Qualifying
    case PaymentUnusedSeen => t.kind == Fulfillment
    case Marking(_, sequel) => SequelFits(t, sequel)
    case Acting(sequel) => sequel != Stop && SequelFits(t, sequel)
    case Journaling(_) => t.kind == Fulfillment
    case Listed(_) => t.kind == Refund
    case Reporting(_) => t.kind == Refund
    case Flagging(_) => t.kind == Refund
    case Start => true
    case Done => false
  }

  predicate SequelFits(t: Txn, sequel: Sequel) {
    match sequel
    case Issue(_, _) => t.kind == Qualifying
    case Settle(_) => t.kind == Fulfillment
    case ReportRefunds => t.kind == Refund
    case Stop => true
  }

  ghost predicate QueueOk(hash: UserId -> int, db: Db, n: nat, i: nat, queue: seq<Txn>)
    requires n > 0
  {
    DistinctIds(queue)
    && forall t :: t in queue ==>
         t.id < |db.txns| && SameIdentity(db.txns[t.id], t) && Processor(hash(t.userId), n) == i + 1
  }

  ghost predicate RunnerOk(hash: UserId -> int, db: Db, n: nat, i: nat, r: Runner)
    requires n > 0
  {
    r.Running? ==>
      QueueOk(hash, db, n, i, r.queue)
      && (forall k :: 0 <= k < |r.queue| && (k == 0 ==> BeforeMark(r.phase)) ==> !db.txns[r.queue[k].id].processed)
      && (r.queue != [] ==> PhaseFits(r.queue[0], r.phase))
  }

  ghost predicate Base(hash: UserId -> int, w: World) {
    Numbered(w.db)
    && (forall i :: 0 <= i < |w.runners| ==> RunnerOk(hash, w.db, |w.runners|, i, w.runners[i]))
    && (|w.runners| > 0 ==> forall t :: t in w.db.txns && !t.processed && t.processor.Some? ==>
          t.processor.value == Processor(hash(t.userId), |w.runners|))
  }

  lemma StepFits(env: Env, db: Db, t: Txn, p: Phase, ok: bool)
    requires PhaseFits(t, p)
    ensures var p' := Step(env, db, t, p, ok).1; p' == Done || PhaseFits(t, p')
  {
  }

  /** Only the row being processed can become processed, and no other column of any row is lost. */
  lemma StepOnRows(env: Env, db: Db, t: Txn, p: Phase, ok: bool)
    requires Numbered(db) && PhaseFits(t, p)
    ensures var (db', p') := Step(env, db, t, p, ok);
            Numbered(db') && |db'.txns| == |db.txns| && |db'.rebates| >= |db.rebates|
            && (forall i :: 0 <= i < |db.txns| ==>
                  SameIdentity(db'.txns[i], db.txns[i]) && db'.txns[i].processor == db.txns[i].processor
                  && (i != t.id ==> db'.txns[i].processed == db.txns[i].processed && db'.txns[i].status == db.txns[i].status)
                  && (!p.Marking? ==>
                        db'.txns[i].processed == db.txns[i].processed && db'.txns[i].status == db.txns[i].status))
            && (BeforeMark(p') ==> db'.txns == db.txns)
            && (p' != Start)
  {
  }

  lemma WorkKeepsBase(hash: UserId -> int, w: World, i: nat, env: Env, ok: bool)
    requires Base(hash, w) && CanWork(w, i)
    ensures Base(hash, Worked(w, i, env, ok))
  {
    var Running(queue, phase) := w.runners[i];
    var w', n, t := Worked(w, i, env, ok), |w.runners|, queue[0];
    assert RunnerOk(hash, w.db, n, i, w.runners[i]);
    assert t in queue;
    StepFits(env, w.db, t, phase, ok);
    StepOnRows(env, w.db, t, phase, ok);
    forall j | 0 <= j < n ensures RunnerOk(hash, w'.db, n, j, w'.runners[j]) {
      assert RunnerOk(hash, w.db, n, j, w.runners[j]);
      WorkKeepsRunner(hash, w, i, env, ok, j);
    }
    forall x | x in w'.db.txns && !x.processed && x.processor.Some?
      ensures x.processor.value == Processor(hash(x.userId), n)
    {
      var k :| 0 <= k < |w'.db.txns| && w'.db.txns[k] == x;
      assert w.db.txns[k] in w.db.txns && !w.db.txns[k].processed;
    }
  }

  lemma WorkKeepsRunner(hash: UserId -> int, w: World, i: nat, env: Env, ok: bool, j: nat)
    requires Base(hash, w) && CanWork(w, i) && j < |w.runners|
    ensures RunnerOk(hash, Worked(w, i, env, ok).db, |w.runners|, j, Worked(w, i, env, ok).runners[j])
  {
    if j == i {
      WorkKeepsOwnRunner(hash, w, i, env, ok);
    } else {
      WorkKeepsOtherRunner(hash, w, i, env, ok, j);
    }
  }

  /** A worker's list still fits after a change that keeps identities and only processes the head of it. */
  lemma ListStillFits(hash: UserId -> int, db: Db, db': Db, n: nat, i: nat, queue: seq<Txn>, q: seq<Txn>)
    requires n > 0 && queue != [] && QueueOk(hash, db, n, i, queue) && (q == queue || q == queue[1..])
    requires |db'.txns| == |db.txns| && forall k :: 0 <= k < |db.txns| ==> SameIdentity(db'.txns[k], db.txns[k])
    ensures QueueOk(hash, db', n, i, q)
  {
    assert forall x :: x in q ==> x in queue;
  }

  lemma RestStillPending(db: Db, db': Db, queue: seq<Txn>, k: nat)
    requires 1 <= k < |queue| && DistinctIds(queue) && queue[k].id < |db.txns| == |db'.txns|
    requires !db.txns[queue[k].id].processed
    requires forall j :: 0 <= j < |db.txns| && j != queue[0].id ==> db'.txns[j].processed == db.txns[j].processed
    ensures !db'.txns[queue[k].id].processed
  {
  }

  /** Before the mark nothing has been written. */
  lemma UnmarkedStep(env: Env, db: Db, t: Txn, p: Phase, ok: bool)
    requires Numbered(db) && PhaseFits(t, p) && BeforeMark(Step(env, db, t, p, ok).1)
    ensures BeforeMark(p) && Step(env, db, t, p, ok).0 == db
  {
  }

  lemma WorkKeepsOwnRunner(hash: UserId -> int, w: World, i: nat, env: Env, ok: bool)
    requires Base(hash, w) && CanWork(w, i)
    ensures RunnerOk(hash, Worked(w, i, env, ok).db, |w.runners|, i, Worked(w, i, env, ok).runners[i])
  {
    var Running(queue, phase) := w.runners[i];
    var t := queue[0];
    var (db', p') := Step(env, w.db, t, phase, ok);
    assert RunnerOk(hash, w.db, |w.runners|, i, w.runners[i]) && t in queue;
    StepFits(env, w.db, t, phase, ok);
    StepOnRows(env, w.db, t, phase, ok);
    var next := if p' == Done then Running(queue[1..], Start) else Running(queue, p');
    ListStillFits(hash, w.db, db', |w.runners|, i, queue, next.queue);
    if BeforeMark(p') { UnmarkedStep(env, w.db, t, phase, ok); }
    forall k | 0 <= k < |next.queue| && (k == 0 ==> BeforeMark(next.phase)) ensures !db'.txns[next.queue[k].id].processed {
      var j := if p' == Done then k + 1 else k;
      assert next.queue[k] == queue[j] && queue[j] in queue;
      if j > 0 { RestStillPending(w.db, db', queue, j); }
    }
  }

  lemma WorkKeepsOtherRunner(hash: UserId -> int, w: World, i: nat, env: Env, ok: bool, j: nat)
    requires Base(hash, w) && CanWork(w, i) && j < |w.runners| && j != i
    ensures RunnerOk(hash, Worked(w, i, env, ok).db, |w.runners|, j, w.runners[j])
  {
    var t := w.runners[i].queue[0];
    assert RunnerOk(hash, w.db, |w.runners|, i, w.runners[i]) && RunnerOk(hash, w.db, |w.runners|, j, w.runners[j]);
    assert t in w.runners[i].queue;
    StepOnRows(env, w.db, t, w.runners[i].phase, ok);
    if w.runners[j].Running? {
      var q := w.runners[j].queue;
      forall k | 0 <= k < |q| ensures q[k].id != t.id {
        assert q[k] in q && Processor(hash(q[k].userId), |w.runners|) == j + 1;
      }
    }
  }

  lemma RunnersUnaffected(hash: UserId -> int, w: World, db': Db)
    requires Base(hash, w) && w.db.txns <= db'.txns
    ensures forall j :: 0 <= j < |w.runners| ==> RunnerOk(hash, db', |w.runners|, j, w.runners[j])
  {
    forall j | 0 <= j < |w.runners| ensures RunnerOk(hash, db', |w.runners|, j, w.runners[j]) {
      assert RunnerOk(hash, w.db, |w.runners|, j, w.runners[j]);
    }
  }

  lemma RestartKeepsBase(hash: UserId -> int, w: World, n: nat)
    requires Base(hash, w) && n > 0
    ensures Base(hash, Next(hash, w, Restart(n)))
  {
    var w' := Next(hash, w, Restart(n));
    forall t | t in w'.db.txns && !t.processed ensures t.processor == Some(Processor(hash(t.userId), n)) {
      var k :| 0 <= k < |w'.db.txns| && w'.db.txns[k] == t;
    }
  }

  lemma ExportOnlyRebates(db: Db, files: seq<set<RebateId>>, e: Exporter, ok: bool)
    requires Numbered(db)
    ensures var db' := ExportStep(db, files, e, ok).0;
            Numbered(db') && db'.txns == db.txns && db'.reports == db.reports && |db'.rebates| == |db.rebates|
            && db.journal <= db'.journal
  {
  }

  lemma ArrivalKeepsBase(hash: UserId -> int, w: World, t: Txn)
    requires Base(hash, w)
    ensures Base(hash, Next(hash, w, Arrive(t)))
  {
    RunnersUnaffected(hash, w, w.db.(txns := w.db.txns + [t]));
  }

  /** Rows untouched, rebates and journal in place, the same workers. */
  lemma SameRowsKeepBase(hash: UserId -> int, w: World, w': World)
    requires Base(hash, w) && Numbered(w'.db) && w'.db.txns == w.db.txns && w'.runners == w.runners
    ensures Base(hash, w')
  {
    RunnersUnaffected(hash, w, w'.db);
  }

  lemma OneRunnerKeepsBase(hash: UserId -> int, w: World, i: nat, r: Runner)
    requires Base(hash, w) && i < |w.runners| && RunnerOk(hash, w.db, |w.runners|, i, r)
    ensures Base(hash, w.(runners := w.runners[i := r]))
  {
  }

  lemma NextKeepsBase(hash: UserId -> int, w: World, a: Action)
    requires Base(hash, w)
    ensures Base(hash, Next(hash, w, a))
  {
    match a
    case Work(i, env, ok) => if CanWork(w, i) { WorkKeepsBase(hash, w, i, env, ok); }
    case Arrive(t) => ArrivalKeepsBase(hash, w, t);
    case Restart(n) => if n > 0 { RestartKeepsBase(hash, w, n); }
    case Load(i, rows) =>
      if i < |w.runners| && IsPendingList(w.db, i + 1, rows) {
        LoadedRunnerOk(hash, w, i, rows);
        OneRunnerKeepsBase(hash, w, i, Running(rows, Start));
      }
    case Crash(i) => if i < |w.runners| { OneRunnerKeepsBase(hash, w, i, Running([], Start)); }
    case Export(ok) =>
      ExportOnlyRebates(w.db, w.files, w.exporter, ok);
      SameRowsKeepBase(hash, w, ExportNext(w, ok));
    case ExportCrash => SameRowsKeepBase(hash, w, w.(exporter := Idle));
    case Sync(o) => SameRowsKeepBase(hash, w, Next(hash, w, a));
  }

  lemma {:induction false} RunKeepsBase(hash: UserId -> int, w: World, actions: seq<Action>)
    requires Base(hash, w)
    ensures Base(hash, Run(hash, w, actions))
    decreases |actions|
  {
    if actions != [] {
      NextKeepsBase(hash, w, actions[0]);
      RunKeepsBase(hash, Next(hash, w, actions[0]), actions[1..]);
    }
  }

  lemma LoadedRunnerOk(hash: UserId -> int, w: World, i: nat, rows: seq<Txn>)
    requires Base(hash, w) && i < |w.runners| && IsPendingList(w.db, i + 1, rows)
    ensures RunnerOk(hash, w.db, |w.runners|, i, Running(rows, Start))
  {
    forall t | t in rows
      ensures t.id < |w.db.txns| && w.db.txns[t.id] == t && !t.processed && Processor(hash(t.userId), |w.runners|) == i + 1
    {
      var k :| 0 <= k < |w.db.txns| && w.db.txns[k] == t;
    }
  }

  /** Two workers never hold rows of the same user. */
  lemma OneUserOneWorker(hash: UserId -> int, w: World, i: nat, j: nat, s: Txn, t: Txn)
    requires Base(hash, w)
    requires i < |w.runners| && w.runners[i].Running? && s in w.runners[i].queue
    requires j < |w.runners| && w.runners[j].Running? && t in w.runners[j].queue
    ensures s.userId == t.userId ==> i == j
  {
    assert RunnerOk(hash, w.db, |w.runners|, i, w.runners[i]);
    assert RunnerOk(hash, w.db, |w.runners|, j, w.runners[j]);
  }
}
