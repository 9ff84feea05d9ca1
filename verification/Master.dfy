/** The nightly job: assign, wait until nothing is pending, export, then sync. */
module Master {
  import opened Domain
  import opened Store
  import opened Eligibility
  import opened RowSteps
  import opened Outcomes
  import opened Assignment
  import opened Views
  import opened Parallel
  import opened Refinement
  import opened Batches
  import W = World
  import Exporting
  import MopSync

  // ---- The pending count ----

  lemma {:induction false} PendingFalls(s: seq<Txn>, s': seq<Txn>, i: nat)
    requires |s| == |s'| && forall k :: 0 <= k < |s| && s[k].processed ==> s'[k].processed
    ensures NumPending(s') <= NumPending(s)
    ensures i < |s| && !s[i].processed && s'[i].processed ==> NumPending(s') < NumPending(s)
  {
    if s != [] {
      var n := |s| - 1;
      PendingFalls(s[..n], s'[..n], i);
    }
  }

  lemma {:induction false} NonePending(s: seq<Txn>)
    ensures NumPending(s) == 0 <==> forall k :: 0 <= k < |s| ==> s[k].processed
  {
    if s != [] { NonePending(s[..|s| - 1]); }
  }

  /** Each mark of a pending row lowers the count, and no access raises it. */
  lemma StepLowersPending(env: Env, db: Db, t: Txn, p: Phase)
    requires Numbered(db)
    ensures NumPending(Step(env, db, t, p, true).0.txns) <= NumPending(db.txns)
    ensures p.Marking? && t.id < |db.txns| && !db.txns[t.id].processed ==>
              NumPending(Step(env, db, t, p, true).0.txns) < NumPending(db.txns)
  {
    PendingFalls(db.txns, Step(env, db, t, p, true).0.txns, t.id);
  }

  // ---- Rows that never throw are marked before they are done ----

  predicate NeverThrows(env: Env, t: Txn) {
    t.kind != OtherKind && (t.kind == Qualifying ==> !CardTypeReached(env, t) && !UnlistedProductReached(env, t))
  }

  lemma ScreenedDecides(env: Env, db: Db, t: Txn)
    requires t.kind == Qualifying && NeverThrows(env, t)
    ensures W.BeforeMark(Screened(env, db, t))
  {
    CardTypeDecides(env, db, t);
    UnlistedProductDecides(env, db, t);
    FirstHalf(SCREENING, CONCLUDING, env, db, t);
    var first := FirstFailing(SCREENING, env, db, t);
    if first.Some? { RefusedDecides(first.value, env, t); }
  }

  lemma FirstHalf(first: seq<Check>, rest: seq<Check>, env: Env, db: Db, t: Txn)
    ensures FirstFailing(first, env, db, t).Some? ==>
              FirstFailing(first + rest, env, db, t) == FirstFailing(first, env, db, t)
  {
    FirstOfSkips(first, rest, (c: Check) => !Holds(c, env, db, t));
  }

  lemma RefusedDecides(check: Check, env: Env, t: Txn)
    ensures check != CardTypeKnown && check != LinkDecidable ==> W.BeforeMark(Refused(check, env, t))
  {
  }

  lemma ConcludedDecides(env: Env, db: Db, t: Txn)
    ensures W.BeforeMark(Concluded(env, db, t))
  {
    FirstOfMember(CONCLUDING, (c: Check) => !Holds(c, env, db, t));
    if FirstFailing(CONCLUDING, env, db, t).None? { ConcludesToIssue(env, db, t); }
  }

  lemma StepDecides(env: Env, db: Db, t: Txn, p: Phase)
    requires NeverThrows(env, t) && W.PhaseFits(t, p) && W.BeforeMark(p) && !p.Marking?
    ensures W.BeforeMark(Step(env, db, t, p, true).1)
  {
    match p
    case LimitSeen => ConcludedDecides(env, db, t);
    case PaymentUnusedSeen => SecondLookTotal(env, db, t);
    case Start =>
      match t.kind {
        case Qualifying => ScreenedDecides(env, db, t);
        case Fulfillment =>
        case Refund => RefundVerdictTotal(env, db, t);
      }
  }

  // ---- Every pending row is in some worker's hands ----

  predicate Holding(b: Batch, w: nat, j: nat, id: RowId) {
    w < |b.workers| && j < |b.workers[w].queue| && b.workers[w].queue[j].id == id
    && (j == 0 ==> W.BeforeMark(b.workers[w].phase))
  }

  ghost predicate Held(b: Batch, id: RowId) {
    exists w: nat, j: nat :: Holding(b, w, j, id)
  }

  ghost predicate InHand(env: Env, b: Batch) {
    Numbered(b.db)
    && (forall i: nat :: i < |b.db.txns| && !b.db.txns[i].processed ==> Held(b, i))
    && (forall w :: w in b.workers ==>
          (forall t :: t in w.queue ==> NeverThrows(env, t)) && (w.queue != [] ==> W.PhaseFits(w.queue[0], w.phase)))
  }

  lemma AdvanceKeepsHeld(env: Env, b: Batch, w: nat, id: RowId)
    requires InHand(env, b) && w < |b.workers| && b.workers[w].queue != []
    requires id < |b.db.txns| && id < |Advance(env, b, w).db.txns| && !Advance(env, b, w).db.txns[id].processed
    requires !b.db.txns[id].processed
    ensures Held(Advance(env, b, w), id)
  {
    var b' := Advance(env, b, w);
    var Worker(queue, phase) := b.workers[w];
    assert b.workers[w] in b.workers && queue[0] in queue;
    var v: nat, j: nat :| Holding(b, v, j, id);
    if v != w {
      assert Holding(b', v, j, id);
    } else if j > 0 {
      assert Holding(b', v, if b'.workers[w].queue == queue then j else j - 1, id);
    } else {
      if !phase.Marking? { StepDecides(env, b.db, queue[0], phase); }
      assert Holding(b', w, 0, id);
    }
  }

  lemma AdvanceKeepsInHand(env: Env, b: Batch, w: nat)
    requires InHand(env, b)
    ensures var b' := Advance(env, b, w);
            InHand(env, b') && |b'.db.txns| == |b.db.txns| && NumPending(b'.db.txns) <= NumPending(b.db.txns)
  {
    if w < |b.workers| && b.workers[w].queue != [] {
      var b' := Advance(env, b, w);
      var Worker(queue, phase) := b.workers[w];
      assert b.workers[w] in b.workers && queue[0] in queue;
      W.StepOnRows(env, b.db, queue[0], phase, true);
      W.StepFits(env, b.db, queue[0], phase, true);
      PendingFalls(b.db.txns, b'.db.txns, 0);
      forall i: nat | i < |b'.db.txns| && !b'.db.txns[i].processed ensures Held(b', i) {
        AdvanceKeepsHeld(env, b, w, i);
      }
    }
  }

  lemma {:induction false} InterleaveKeepsInHand(env: Env, b: Batch, schedule: seq<nat>)
    requires InHand(env, b)
    ensures var b' := Interleave(env, b, schedule);
            InHand(env, b') && |b'.db.txns| == |b.db.txns| && NumPending(b'.db.txns) <= NumPending(b.db.txns)
    decreases |schedule|
  {
    if schedule != [] {
      AdvanceKeepsInHand(env, b, schedule[0]);
      InterleaveKeepsInHand(env, Advance(env, b, schedule[0]), schedule[1..]);
    }
  }

  /** When every worker is through its list, nothing is pending any more. */
  lemma AllDoneNonePending(env: Env, b: Batch)
    requires InHand(env, b) && AllDone(b)
    ensures NumPending(b.db.txns) == 0
  {
    NonePending(b.db.txns);
    forall i: nat | i < |b.db.txns| ensures b.db.txns[i].processed {
      NothingHeld(b, i);
    }
  }

  lemma NothingHeld(b: Batch, id: RowId)
    requires AllDone(b)
    ensures !Held(b, id)
  {
    forall w: nat, j: nat ensures !Holding(b, w, j, id) {
      assert w < |b.workers| ==> b.workers[w] in b.workers;
    }
  }

  /** What the workers' queries return right after the assignment. */
  function Lists(db: Db, hash: UserId -> int, n: nat): seq<seq<Txn>>
    requires n > 0
  {
    seq(n, i requires 0 <= i < n => PendingList(AssignWorkers(db, hash, n).txns, i + 1))
  }

  lemma ListsLoaded(db: Db, hash: UserId -> int, n: nat)
    requires n > 0 && Numbered(db)
    ensures Loaded(db, hash, Lists(db, hash, n))
  {
    var db' := AssignWorkers(db, hash, n);
    forall i: nat | i < n ensures IsPendingList(db', i + 1, Lists(db, hash, n)[i]) {
      PendingListIsOne(db', db'.txns, i + 1);
    }
  }

  lemma StartedHolds(db: Db, hash: UserId -> int, lists: seq<seq<Txn>>, i: nat)
    requires |lists| > 0 && Numbered(db) && Loaded(db, hash, lists)
    requires i < |db.txns| && !Started(db, hash, lists).db.txns[i].processed
    ensures Held(Started(db, hash, lists), i)
  {
    var n, b := |lists|, Started(db, hash, lists);
    var t := b.db.txns[i];
    var w := Processor(hash(t.userId), n) - 1;
    ProcessorInRange(hash(t.userId), n);
    assert t in b.db.txns && Pending(t, w + 1) && IsPendingList(b.db, w + 1, lists[w]);
    var j :| 0 <= j < |lists[w]| && lists[w][j] == t;
    assert Holding(b, w, j, i);
  }

  lemma StartedInHand(env: Env, db: Db, hash: UserId -> int, lists: seq<seq<Txn>>)
    requires |lists| > 0 && Numbered(db) && Loaded(db, hash, lists)
    requires forall t :: t in Started(db, hash, lists).db.txns && !t.processed ==> NeverThrows(env, t)
    ensures InHand(env, Started(db, hash, lists))
  {
    var n, b := |lists|, Started(db, hash, lists);
    forall i: nat | i < |b.db.txns| && !b.db.txns[i].processed ensures Held(b, i) {
      StartedHolds(db, hash, lists, i);
    }
    forall w: nat, t | w < n && t in lists[w] ensures NeverThrows(env, t) {
      PendingRow(db, hash, n, w, lists[w], t);
      assert b.db.txns[t.id] in b.db.txns;
    }
  }

  /** Tables, files and totals after the export and, if it succeeded, the sync. */
  ghost predicate AfterMaster(
      k: Exporting.ExportCalls, criteria: seq<OfferId>, db: Db, files: seq<set<RebateId>>, rows: seq<MopSync.OfferRow>,
      exported: bool, db': Db, files': seq<set<RebateId>>, rows': seq<MopSync.OfferRow>)
  {
    var (delivered, sent) := Exporting.WholeExport(k, db, files);
    files' == sent && (exported <==> Exporting.Completes(k, db.rebates))
    && if exported
       then MopSync.Books(db'.rebates, rows') == MopSync.Synced(MopSync.Books(delivered.rebates, rows), set o | o in criteria)
            && db' == delivered.(rebates := db'.rebates)
       else db' == delivered && rows' == rows
  }

  /**
    * Nothing is pending any more. If the workers are through as well, and no id is shared between users, the tables
    * are those of a sequential pass.
    */
  ghost predicate WaitedOut(env: Env, db: Db, hash: UserId -> int, lists: seq<seq<Txn>>, schedule: seq<nat>)
    requires |lists| > 0
  {
    var start := Started(db, hash, lists);
    var end := Interleave(env, start, schedule);
    NumPending(end.db.txns) == 0
    && (AllDone(end) ==>
          forall own :: PendingOwned(own, db) ==>
            SameUpToNewIds(|db.rebates|, end.db, RunRows(env, start.db, OneAfterAnother(start.workers))))
  }

  lemma ThroughMeansSequential(env: Env, db: Db, hash: UserId -> int, lists: seq<seq<Txn>>, schedule: seq<nat>)
    requires |lists| > 0 && Numbered(db) && Loaded(db, hash, lists)
    requires NumPending(Interleave(env, Started(db, hash, lists), schedule).db.txns) == 0
    ensures WaitedOut(env, db, hash, lists, schedule)
  {
    var start := Started(db, hash, lists);
    AssignmentPlacesRows(db, hash, lists);
    OneAfterAnotherKeepsOrder(Home(hash, |lists|), start);
    if AllDone(Interleave(env, start, schedule)) {
      forall own | PendingOwned(own, db)
        ensures SameUpToNewIds(|db.rebates|, Interleave(env, start, schedule).db,
                               RunRows(env, start.db, OneAfterAnother(start.workers)))
      {
        AssignedBatchRefinesSequential(env, own, db, hash, lists, schedule, OneAfterAnother(start.workers));
      }
    }
  }

  class JobRunner {
    const tables: Database
    const server: Exporting.Server
    const offers: MopSync.OfferRepository
    var workers: seq<Worker>

    constructor (tables: Database, server: Exporting.Server, offers: MopSync.OfferRepository)
      ensures this.tables == tables && this.server == server && this.offers == offers
    {
      this.tables, this.server, this.offers, workers := tables, server, offers, [];
    }

    /** Assigns every pending row to a worker and starts the workers, which read their lists. */
    method StartWorkers(hash: UserId -> int, n: nat)
      requires n > 0 && Numbered(tables.State())
      modifies this`workers, tables
      ensures Batch(tables.State(), workers) == Started(old(tables.State()), hash, Lists(old(tables.State()), hash, n))
      ensures tables.rebates == old(tables.rebates)
    {
      var was := tables.State();
      tables.Adopt(AssignWorkers(was, hash, n));
      workers := Started(was, hash, Lists(was, hash, n)).workers;
    }

    /** Five seconds, in which the workers go on by themselves. */
    method Wait(env: Env, schedule: seq<nat>)
      modifies this`workers, tables
      ensures Batch(tables.State(), workers) == Interleave(env, Batch(old(tables.State()), old(workers)), schedule)
    {
      var b := Interleave(env, Batch(tables.State(), workers), schedule);
      tables.Adopt(b.db);
      workers := b.workers;
    }

    /**
      * The wait loop ends, and the export starts only once a pending count of zero has been read: on what some
      * interleaving of the workers has left, which is what a sequential pass leaves if they are through. The sync
      * only follows an export that succeeded.
      */
    method MasterProcess(
        env: Env, hash: UserId -> int, n: nat, progress: Batch -> seq<nat>, k: Exporting.ExportCalls,
        criteria: seq<OfferId>)
      returns (exported: bool, ghost schedule: seq<nat>)
      requires n > 0 && Numbered(tables.State())
      requires forall t :: t in AssignWorkers(tables.State(), hash, n).txns && !t.processed ==> NeverThrows(env, t)
      requires forall b :: AllDone(b) || SomebodyWorks(b, progress(b))
      requires forall i, j :: 0 <= i < j < |criteria| ==> criteria[i] != criteria[j]
      modifies this`workers, tables, server, offers
      ensures var was := old(tables.State());
              var lists := Lists(was, hash, n);
              WaitedOut(env, was, hash, lists, schedule)
              && AfterMaster(k, criteria, Interleave(env, Started(was, hash, lists), schedule).db, old(server.files),
                             old(offers.rows), exported, tables.State(), server.files, offers.rows)
    {
      schedule := AssignAndWait(env, hash, n, progress);
      var transfer := new Exporting.RebateExport();
      exported := transfer.Perform(tables, server, k);
      if exported {
        offers.SyncTotalsToMOP(tables, criteria);
      }
    }

    method AssignAndWait(env: Env, hash: UserId -> int, n: nat, progress: Batch -> seq<nat>)
      returns (ghost schedule: seq<nat>)
      requires n > 0 && Numbered(tables.State())
      requires forall t :: t in AssignWorkers(tables.State(), hash, n).txns && !t.processed ==> NeverThrows(env, t)
      requires forall b :: AllDone(b) || SomebodyWorks(b, progress(b))
      modifies this`workers, tables
      ensures var was := old(tables.State());
              var lists := Lists(was, hash, n);
              WaitedOut(env, was, hash, lists, schedule)
              && tables.State() == Interleave(env, Started(was, hash, lists), schedule).db
    {
      ghost var was, lists := tables.State(), Lists(tables.State(), hash, n);
      ListsLoaded(was, hash, n);
      StartedInHand(env, was, hash, lists);
      StartWorkers(hash, n);
      schedule := WaitForWorkers(env, progress);
      ThroughMeansSequential(env, was, hash, lists, schedule);
    }

    /** Counts until nothing is pending. All it takes is that, while rows are left, somebody works on one between counts. */
    method WaitForWorkers(env: Env, progress: Batch -> seq<nat>) returns (ghost schedule: seq<nat>)
      requires InHand(env, Batch(tables.State(), workers))
      requires forall b :: AllDone(b) || SomebodyWorks(b, progress(b))
      modifies this`workers, tables
      ensures Batch(tables.State(), workers) == Interleave(env, Batch(old(tables.State()), old(workers)), schedule)
      ensures NumPending(tables.txns) == 0
    {
      ghost var start := Batch(tables.State(), workers);
      schedule := [];
      var numLeft := 1;
      while numLeft != 0
        invariant Batch(tables.State(), workers) == Interleave(env, start, schedule)
        invariant InHand(env, Batch(tables.State(), workers))
        invariant numLeft == 0 ==> NumPending(tables.txns) == 0
        decreases RowsLeft(workers), StagesLeft(workers), ReportsLeft(workers), numLeft != 0
      {
        var now := Batch(tables.State(), workers);
        var accesses := progress(now);
        InterleaveOn(env, start, schedule, accesses);
        InterleaveKeepsInHand(env, now, accesses);
        WorkLeavesLess(env, now, accesses);
        if AllDone(now) { StillNonePending(env, now, accesses); }
        Wait(env, accesses);
        schedule := schedule + accesses;
        numLeft := NumPending(tables.txns);
      }
    }
  }

  lemma StillNonePending(env: Env, b: Batch, schedule: seq<nat>)
    requires InHand(env, b) && AllDone(b)
    ensures NumPending(Interleave(env, b, schedule).db.txns) == 0
  {
    NothingToDo(env, b, schedule);
    AllDoneNonePending(env, b);
  }
}
