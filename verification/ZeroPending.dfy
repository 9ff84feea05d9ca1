/** What a pending count of zero says about the workers: a row is marked before its other writes are made. */
module ZeroPending {
  import opened Domain
  import opened Store
  import opened Eligibility
  import opened RowSteps
  import opened Outcomes
  import opened Assignment
  import opened Parallel
  import opened Batches
  import opened Master
  import W = World
  import V = Verdicts
  import Runs

  /** Through, or past the mark of the last row. */
  ghost predicate OnLastWrites(b: Batch) {
    forall w :: w in b.workers ==> w.queue == [] || (|w.queue| == 1 && !W.BeforeMark(w.phase))
  }

  predicate StillPending(b: Batch, w: nat, k: nat)
    requires w < |b.workers|
  {
    k < |b.workers[w].queue| && (k == 0 ==> W.BeforeMark(b.workers[w].phase)) ==>
      b.workers[w].queue[k].id < |b.db.txns| && !b.db.txns[b.workers[w].queue[k].id].processed
  }

  /** What is queued is still to be marked, except for a first row past its mark. */
  ghost predicate QueuedPending(b: Batch) {
    forall w: nat, k: nat :: w < |b.workers| ==> StillPending(b, w, k)
  }

  lemma InterleavingsQueuePending(env: Env, db: Db, hash: UserId -> int, lists: seq<seq<Txn>>, schedule: seq<nat>)
    requires |lists| > 0 && Numbered(db) && Loaded(db, hash, lists)
    ensures QueuedPending(Interleave(env, Started(db, hash, lists), schedule))
  {
    var w := W.Run(hash, Runs.Resting(db), Runs.BatchActions(env, lists, schedule));
    W.RunKeepsBase(hash, Runs.Resting(db), Runs.BatchActions(env, lists, schedule));
    Runs.BatchIsRun(hash, env, db, lists, schedule);
    forall i | 0 <= i < |w.runners| ensures W.RunnerOk(hash, w.db, |w.runners|, i, w.runners[i]) {
    }
    forall i, k | 0 <= i < |w.runners| && 0 <= k < |w.runners[i].queue| ensures w.runners[i].queue[k].id < |w.db.txns| {
      assert W.RunnerOk(hash, w.db, |w.runners|, i, w.runners[i]);
      assert w.runners[i].queue[k] in w.runners[i].queue;
    }
  }

  lemma LastWritesMeanZero(env: Env, b: Batch)
    requires InHand(env, b) && OnLastWrites(b)
    ensures NumPending(b.db.txns) == 0
  {
    NonePending(b.db.txns);
    forall i: nat | i < |b.db.txns| ensures b.db.txns[i].processed {
      forall w: nat, j: nat ensures !Holding(b, w, j, i) {
        assert w < |b.workers| ==> b.workers[w] in b.workers;
      }
      assert !Held(b, i);
    }
  }

  lemma ZeroMeansLastWrites(b: Batch)
    requires QueuedPending(b) && NumPending(b.db.txns) == 0
    ensures OnLastWrites(b)
  {
    NonePending(b.db.txns);
    forall x | x in b.workers ensures x.queue == [] || (|x.queue| == 1 && !W.BeforeMark(x.phase)) {
      var w :| 0 <= w < |b.workers| && b.workers[w] == x;
      assert StillPending(b, w, 0) && StillPending(b, w, 1);
    }
  }

  /** In a batch whose rows do not throw, nothing is pending exactly if every worker is through or on its last writes. */
  lemma ZeroPendingIff(env: Env, db: Db, hash: UserId -> int, lists: seq<seq<Txn>>, schedule: seq<nat>)
    requires |lists| > 0 && Numbered(db) && Loaded(db, hash, lists)
    requires forall t :: t in AssignWorkers(db, hash, |lists|).txns && !t.processed ==> NeverThrows(env, t)
    ensures var b := Interleave(env, Started(db, hash, lists), schedule);
            NumPending(b.db.txns) == 0 <==> OnLastWrites(b)
  {
    var start := Started(db, hash, lists);
    StartedInHand(env, db, hash, lists);
    InterleaveKeepsInHand(env, start, schedule);
    InterleavingsQueuePending(env, db, hash, lists, schedule);
    var b := Interleave(env, start, schedule);
    if OnLastWrites(b) { LastWritesMeanZero(env, b); }
    if NumPending(b.db.txns) == 0 { ZeroMeansLastWrites(b); }
  }

  // ---- One row ----

  /** Something is written for the row after its mark. */
  predicate WritesAfterMark(env: Env, db: Db, t: Txn) {
    match t.kind
    case Qualifying => FirstRefusal(env, db, t).None?
    case Fulfillment => t.rebateId.Some? && !HasFulfilled(db.rebates, t.txnId) && MatchesDueRebate(env, db, t)
    case Refund => t.offerId in env.offers
    case OtherKind => false
  }

  ghost predicate OnlyPending(db: Db, t: Txn) {
    Numbered(db) && t.id < |db.txns| && db.txns[t.id] == t
    && forall i :: 0 <= i < |db.txns| ==> db.txns[i].processed == (i != t.id)
  }

  function OneRow(db: Db, t: Txn, p: Phase): Batch {
    Batch(db, [Worker([t], p)])
  }

  ghost predicate ZeroBeforeDone(env: Env, b: Batch, schedule: seq<nat>) {
    var end := Interleave(env, b, schedule);
    NumPending(end.db.txns) == 0 && !AllDone(end)
  }

  /** Decided to be marked and nothing else, or still undecided. */
  predicate NothingToFollow(env: Env, db: Db, t: Txn, p: Phase) {
    match p
    case Start => true
    case LimitSeen => t.kind == Qualifying && FirstFailing(SCREENING, env, db, t).None?
    case PaymentUnusedSeen => t.kind == Fulfillment && FulfilmentVerdict(FIRST_LOOK, env, db, t).None?
    case Marking(_, sequel) => sequel == Stop
    case _ => false
  }

  lemma WritesIff(env: Env, db: Db, t: Txn)
    requires Numbered(db)
    ensures WritesAfterMark(env, db, t) <==>
            match t.kind
            case Refund => t.offerId in env.offers
            case Qualifying => V.QualifyingStatus(env, db, t) == Some(RebateCreated)
            case Fulfillment => V.FulfilmentStatus(env, db, t) == FulfilledTransSuccessful
            case OtherKind => false
  {
    match t.kind
    case Qualifying => V.CreatedIff(env, db, t);
    case Fulfillment =>
      V.FulfilmentColumns(FULFILMENT_ORDER, env, db, t);
      FulfilmentVerdictTotal(env, db, t);
    case _ =>
  }

  lemma NothingFollows(env: Env, db: Db, t: Txn, p: Phase)
    requires NothingToFollow(env, db, t, p) && !WritesAfterMark(env, db, t)
    ensures var (db', p') := Step(env, db, t, p, true); p' == Done || (db' == db && NothingToFollow(env, db, t, p'))
  {
    match p
    case Start => RefundVerdictTotal(env, db, t);
    case LimitSeen => FirstOfSkips(SCREENING, CONCLUDING, (c: Check) => !Holds(c, env, db, t));
    case PaymentUnusedSeen =>
      FirstLookTotal(env, db, t);
      SecondLookTotal(env, db, t);
    case _ =>
  }

  lemma {:induction false} NeverZeroBeforeDone(env: Env, db: Db, t: Txn, p: Phase, schedule: seq<nat>)
    requires OnlyPending(db, t) && NothingToFollow(env, db, t, p) && !WritesAfterMark(env, db, t)
    ensures !ZeroBeforeDone(env, OneRow(db, t, p), schedule)
    decreases |schedule|
  {
    var b := OneRow(db, t, p);
    if schedule == [] {
      NonePending(db.txns);
    } else if schedule[0] != 0 {
      NeverZeroBeforeDone(env, db, t, p, schedule[1..]);
    } else {
      NothingFollows(env, db, t, p);
      OneAdvance(env, db, t, p);
      var (db', p') := Step(env, db, t, p, true);
      if p' == Done {
        NothingToDo(env, Advance(env, b, 0), schedule[1..]);
      } else {
        NeverZeroBeforeDone(env, db, t, p', schedule[1..]);
      }
    }
  }

  lemma OneAdvance(env: Env, db: Db, t: Txn, p: Phase)
    ensures var (db', p') := Step(env, db, t, p, true);
            Advance(env, OneRow(db, t, p), 0) == if p' == Done then Batch(db', [Worker([], Start)]) else OneRow(db', t, p')
  {
    assert [t][1..] == [];
    assert OneRow(db, t, p).workers[0 := Worker([], Start)] == [Worker([], Start)];
  }

  lemma OneMore(env: Env, db: Db, t: Txn, p: Phase, later: seq<nat>)
    requires Step(env, db, t, p, true).1 != Done
    ensures var (db', p') := Step(env, db, t, p, true);
            Interleave(env, OneRow(db, t, p), [0] + later) == Interleave(env, OneRow(db', t, p'), later)
  {
    var (db', p') := Step(env, db, t, p, true);
    assert ([0] + later)[1..] == later;
    OneAdvance(env, db, t, p);
  }

  /** From a mark with more to write, one access reaches zero. */
  lemma MarkReachesZero(env: Env, db: Db, t: Txn, s: Status, sequel: Sequel)
    requires OnlyPending(db, t) && sequel != Stop
    ensures ZeroBeforeDone(env, OneRow(db, t, Marking(s, sequel)), [0] + [])
  {
    OneMore(env, db, t, Marking(s, sequel), []);
    var end := OneRow(Mark(db, t.id, s), t, Acting(sequel));
    assert Interleave(env, OneRow(db, t, Marking(s, sequel)), [0] + []) == end;
    assert end.workers[0] in end.workers;
    NonePending(end.db.txns);
  }

  lemma ReachesZero(env: Env, db: Db, t: Txn) returns (schedule: seq<nat>)
    requires OnlyPending(db, t) && WritesAfterMark(env, db, t)
    ensures ZeroBeforeDone(env, OneRow(db, t, Start), schedule)
  {
    if t.kind == Refund {
      RefundVerdictTotal(env, db, t);
      OneMore(env, db, t, Start, [0] + []);
      MarkReachesZero(env, db, t, RefundVerdict(env, db, t).value, ReportRefunds);
      schedule := [0] + ([0] + []);
    } else {
      var second := SecondPhase(env, db, t);
      var marking := Step(env, db, t, second, true).1;
      OneMore(env, db, t, Start, [0] + ([0] + []));
      OneMore(env, db, t, second, [0] + []);
      MarkReachesZero(env, db, t, marking.status, marking.sequel);
      schedule := [0] + ([0] + ([0] + []));
    }
  }

  lemma SecondPhase(env: Env, db: Db, t: Txn) returns (p: Phase)
    requires WritesAfterMark(env, db, t) && t.kind != Refund
    ensures Step(env, db, t, Start, true) == (db, p) && p != Done
    ensures var (db', p') := Step(env, db, t, p, true); db' == db && p'.Marking? && p'.sequel != Stop
  {
    if t.kind == Qualifying {
      FirstOfSkips(SCREENING, CONCLUDING, (c: Check) => !Holds(c, env, db, t));
      ConcludesToIssue(env, db, t);
      p := LimitSeen;
    } else {
      FirstLookTotal(env, db, t);
      SecondLookTotal(env, db, t);
      p := PaymentUnusedSeen;
    }
  }

  /** With one pending row, a count of zero can come too early exactly if something is written after its mark. */
  lemma ZeroCanComeEarlyIff(env: Env, db: Db, t: Txn)
    requires OnlyPending(db, t)
    ensures (exists schedule :: ZeroBeforeDone(env, OneRow(db, t, Start), schedule)) <==>
            match t.kind
            case Refund => t.offerId in env.offers
            case Qualifying => V.QualifyingStatus(env, db, t) == Some(RebateCreated)
            case Fulfillment => V.FulfilmentStatus(env, db, t) == FulfilledTransSuccessful
            case OtherKind => false
  {
    WritesIff(env, db, t);
    if WritesAfterMark(env, db, t) {
      var schedule := ReachesZero(env, db, t);
    } else {
      forall schedule ensures !ZeroBeforeDone(env, OneRow(db, t, Start), schedule) {
        NeverZeroBeforeDone(env, db, t, Start, schedule);
      }
    }
  }
}
