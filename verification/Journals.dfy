/** Each delivered rebate has exactly one journal row, in step with the rebate, unless somebody is stopped in between. */
module Journals {
  import opened Domain
  import opened Store
  import opened Eligibility
  import opened RowSteps
  import opened World
  import opened Issuance
  import opened Settlement
  import opened Exports

  ghost predicate Only(journal: seq<JournalRow>, m: nat, id: RebateId) {
    m < |journal| && journal[m].rebateId == id
    && forall n :: 0 <= n < |journal| && journal[n].rebateId == id ==> n == m
  }

  /** The amount stands in the column of its card type and in the column of its reward type, and nowhere else. */
  predicate Splits(j: JournalRow, amount: Cents, card: CardType, unit: RewardType) {
    j.ccCredit == (if card == CreditCard then amount else 0)
    && j.pbaCredit == (if card == CheckingAccount then amount else 0)
    && j.points == (if unit == Points then amount else 0)
    && j.dollars == (if unit == Dollars then amount else 0)
  }

  /** So the reward split adds up to the amount, and the card split does exactly for a recognised card type. */
  lemma SplitsAddUp(j: JournalRow, amount: Cents, card: CardType, unit: RewardType)
    requires Splits(j, amount, card, unit)
    ensures j.points + j.dollars == amount
    ensures j.ccCredit + j.pbaCredit == amount <==> card != OtherCard || amount == 0
  {
  }

  predicate PendingRow(j: JournalRow, r: Rebate) {
    j.status == PendingFulfillment && j.clientId == r.userId && Splits(j, r.amount, r.cardType, r.rewardType)
  }

  /** Settled by this payment. */
  predicate SettledRow(j: JournalRow, r: Rebate, payment: Txn) {
    j.status == FulfilledTransSuccessful && j.clientId == payment.userId
    && Splits(j, r.amount, payment.cardType, r.rewardType)
  }

  ghost predicate OnePending(journal: seq<JournalRow>, r: Rebate) {
    exists m: nat :: Only(journal, m, r.id) && PendingRow(journal[m], r)
  }

  /** The card split of a settled row is that of the payment. */
  ghost predicate OneSettled(db: Db, r: Rebate) {
    r.fulfilRow.Some? && r.fulfilRow.value < |db.txns|
    && exists m: nat :: Only(db.journal, m, r.id) && SettledRow(db.journal[m], r, db.txns[r.fulfilRow.value])
  }

  predicate AlreadyJournaled(e: Exporter, k: RebateId) {
    e.Journaled? && forall x :: x in e.todo ==> x.id != k
  }

  /** `busy`: a worker has settled the rebate and is about to update the journal. */
  ghost predicate RebateInStep(db: Db, e: Exporter, busy: bool, k: nat)
    requires k < |db.rebates|
  {
    match db.rebates[k].status
    case PendingExtraction => !HasJournal(db.journal, k)
    case ExtractionStarted =>
      if AlreadyJournaled(e, k) then OnePending(db.journal, db.rebates[k]) else !HasJournal(db.journal, k)
    case PendingFulfillment => OnePending(db.journal, db.rebates[k])
    case FulfilledTransSuccessful =>
      if busy then OnePending(db.journal, db.rebates[k]) else OneSettled(db, db.rebates[k])
    case _ => false
  }

  predicate Copy(db: Db, r: Rebate) {
    r.id < |db.rebates|
    && var now := db.rebates[r.id];
       now.userId == r.userId && now.amount == r.amount && now.rewardType == r.rewardType && now.cardType == r.cardType
  }

  /** A worker's copy of a rebate is good, and once it has settled the rebate the table says so. */
  predicate WorkerInStep(db: Db, t: Txn, p: Phase) {
    match p
    case Marking(_, Settle(r)) => Copy(db, r)
    case Acting(Settle(r)) => Copy(db, r)
    case Journaling(r) =>
      Copy(db, r) && r.status == FulfilledTransSuccessful && t.amount == r.amount
      && db.rebates[r.id].status == FulfilledTransSuccessful && db.rebates[r.id].fulfilRow == Some(t.id)
    case _ => true
  }

  predicate JournalsAt(w: World, i: nat, k: nat) {
    CanWork(w, i) && w.runners[i].phase.Journaling? && w.runners[i].phase.rebate.id == k
  }

  ghost predicate Busy(w: World, k: nat) {
    exists i: nat :: JournalsAt(w, i, k)
  }

  ghost predicate ExporterInStep(db: Db, e: Exporter) {
    e.Journaled? ==>
      (forall a, b :: 0 <= a < b < |e.todo| ==> e.todo[a].id != e.todo[b].id)
      && forall x :: x in e.todo ==> x.id < |db.rebates| && db.rebates[x.id] == x && x.status == ExtractionStarted
  }

  ghost predicate InStep(w: World) {
    (forall j :: j in w.db.journal ==> j.rebateId < |w.db.rebates|)
    && (forall k: nat :: k < |w.db.rebates| ==> RebateInStep(w.db, w.exporter, Busy(w, k), k))
    && (forall i: nat :: CanWork(w, i) ==> WorkerInStep(w.db, w.runners[i].queue[0], w.runners[i].phase))
    && ExporterInStep(w.db, w.exporter)
  }

  predicate AboutToJournal(w: World, i: nat) {
    CanWork(w, i) && w.runners[i].phase.Journaling?
  }

  /** The exporter has journaled a rebate that it has not yet made pending fulfilment. */
  ghost predicate HalfJournaled(w: World) {
    exists k: nat :: k < |w.db.rebates| && w.db.rebates[k].status == ExtractionStarted && AlreadyJournaled(w.exporter, k)
  }

  /** Nobody is stopped between an update of a rebate and the journal row that goes with it. */
  ghost predicate Smooth(w: World, a: Action) {
    match a
    case Work(i, _, ok) => AboutToJournal(w, i) ==> ok
    case Crash(i) => !AboutToJournal(w, i)
    case Restart(n) => n > 0 ==> forall i: nat :: !AboutToJournal(w, i)
    case Export(ok) => HalfJournaled(w) ==> ok
    case ExportCrash => !HalfJournaled(w)
    case _ => true
  }

  // ---- Journal rows of other rebates ----

  lemma AppendOther(journal: seq<JournalRow>, j: JournalRow, r: Rebate)
    requires j.rebateId != r.id
    ensures HasJournal(journal + [j], r.id) == HasJournal(journal, r.id)
    ensures OnePending(journal, r) ==> OnePending(journal + [j], r)
  {
    if OnePending(journal, r) {
      var m: nat :| Only(journal, m, r.id) && PendingRow(journal[m], r);
      assert Only(journal + [j], m, r.id);
    }
  }

  lemma AppendOtherSettled(db: Db, j: JournalRow, r: Rebate)
    requires j.rebateId != r.id && OneSettled(db, r)
    ensures OneSettled(db.(journal := db.journal + [j]), r)
  {
    var m: nat :| Only(db.journal, m, r.id) && SettledRow(db.journal[m], r, db.txns[r.fulfilRow.value]);
    assert Only(db.journal + [j], m, r.id);
  }

  lemma AppendFirst(journal: seq<JournalRow>, n: nat, r: Rebate)
    requires !HasJournal(journal, r.id)
    ensures OnePending(journal + [NewJournal(n, r, PendingFulfillment)], r)
  {
    var all := journal + [NewJournal(n, r, PendingFulfillment)];
    assert forall k :: 0 <= k < |journal| ==> journal[k] in journal;
    assert Only(all, |journal|, r.id) && PendingRow(all[|journal|], r);
  }

  /** Updating the one row of a rebate leaves the rows of the others alone. */
  lemma UpdateOther(journal: seq<JournalRow>, id: nat, t: Txn, r: Rebate, x: Rebate)
    requires r.id != x.id && forall n :: 0 <= n < |journal| && journal[n].id == id ==> journal[n].rebateId == r.id
    ensures var journal' := UpdateJournal(journal, id, t, r);
            HasJournal(journal', x.id) == HasJournal(journal, x.id)
            && (OnePending(journal, x) ==> OnePending(journal', x))
  {
    var journal' := UpdateJournal(journal, id, t, r);
    KeepsJournals(journal, journal', x.id);
    KeepsJournals(journal', journal, x.id);
    if OnePending(journal, x) {
      var m: nat :| Only(journal, m, x.id) && PendingRow(journal[m], x);
      assert Only(journal', m, x.id);
    }
  }

  lemma UpdateOtherSettled(db: Db, id: nat, t: Txn, r: Rebate, x: Rebate)
    requires r.id != x.id && OneSettled(db, x)
    requires forall n :: 0 <= n < |db.journal| && db.journal[n].id == id ==> db.journal[n].rebateId == r.id
    ensures OneSettled(db.(journal := UpdateJournal(db.journal, id, t, r)), x)
  {
    var m: nat :| Only(db.journal, m, x.id) && SettledRow(db.journal[m], x, db.txns[x.fulfilRow.value]);
    assert Only(UpdateJournal(db.journal, id, t, r), m, x.id);
  }

  /** The lookup at fulfilment finds the rebate's one row. */
  lemma LookupFinds(journal: seq<JournalRow>, m: nat, r: Rebate, now: Rebate)
    requires forall n :: 0 <= n < |journal| ==> journal[n].id == n
    requires r.id == now.id && r.userId == now.userId
    requires Only(journal, m, now.id) && PendingRow(journal[m], now)
    ensures FindJournal(journal, r.userId, r.id) == Some(journal[m])
  {
    assert IsOpenJournal(journal[m], r.userId, r.id);
    var found := FindJournal(journal, r.userId, r.id);
    assert journal[m] in journal;
    var n :| 0 <= n < |journal| && journal[n] == found.value;
  }

  lemma JournalUpdated(db: Db, t: Txn, r: Rebate)
    requires Numbered(db) && Copy(db, r) && r.status == FulfilledTransSuccessful && t.amount == r.amount
    requires db.rebates[r.id].fulfilRow == Some(t.id) && t.id < |db.txns| && SameIdentity(db.txns[t.id], t)
    requires OnePending(db.journal, db.rebates[r.id])
    ensures OneSettled(SettleJournal(db, t, r), db.rebates[r.id])
    ensures exists m: nat :: Only(db.journal, m, r.id) && FindJournal(db.journal, r.userId, r.id) == Some(db.journal[m])
  {
    var now := db.rebates[r.id];
    var m: nat :| Only(db.journal, m, now.id) && PendingRow(db.journal[m], now);
    LookupFinds(db.journal, m, r, now);
    var db' := SettleJournal(db, t, r);
    assert Only(db'.journal, m, r.id) && SettledRow(db'.journal[m], now, db.txns[t.id]);
  }

  // ---- One access of a worker ----

  lemma RebateUnaffected(db: Db, db': Db, e: Exporter, busy: bool, k: nat)
    requires k < |db.rebates| && k < |db'.rebates| && db'.rebates[k] == db.rebates[k] && db'.journal == db.journal
    requires |db.txns| <= |db'.txns| && forall i :: 0 <= i < |db.txns| ==> SameIdentity(db'.txns[i], db.txns[i])
    ensures RebateInStep(db, e, busy, k) ==> RebateInStep(db', e, busy, k)
  {
  }

  lemma BusySame(w: World, w': World, i: nat, k: nat)
    requires |w'.runners| == |w.runners| && forall j: nat :: j < |w.runners| && j != i ==> w'.runners[j] == w.runners[j]
    requires JournalsAt(w', i, k) == JournalsAt(w, i, k)
    ensures Busy(w', k) == Busy(w, k)
  {
    if j: nat :| JournalsAt(w, j, k) { assert JournalsAt(w', j, k); }
    if j: nat :| JournalsAt(w', j, k) { assert JournalsAt(w, j, k); }
  }

  lemma OneJournals(hash: UserId -> int, d: Discipline, claims: RebateId -> UserId, w: World, i: nat, j: nat, k: nat)
    requires Base(hash, w) && Disciplined(d, w) && Claims(d, claims, w) && InStep(w)
    requires JournalsAt(w, i, k) && JournalsAt(w, j, k)
    ensures i == j
  {
    assert WorkerInStep(w.db, w.runners[i].queue[0], w.runners[i].phase);
    assert WorkerInStep(w.db, w.runners[j].queue[0], w.runners[j].phase);
    if i != j { ClaimsApart(hash, d, claims, w, i, j); }
  }

  /** A rebate is settled: its journal row is still pending, and the worker is busy with it. */
  lemma SettlingInStep(env: Env, db: Db, t: Txn, r: Rebate, e: Exporter, busy: bool)
    requires Numbered(db) && r.id < |db.rebates| && db.rebates[r.id].status == PendingFulfillment
    requires RebateInStep(db, e, busy, r.id)
    ensures RebateInStep(SettleRebate(db, r.id, t), e, true, r.id)
  {
    var m: nat :| Only(db.journal, m, r.id) && PendingRow(db.journal[m], db.rebates[r.id]);
    var db' := SettleRebate(db, r.id, t);
    assert Only(db'.journal, m, r.id) && PendingRow(db'.journal[m], db'.rebates[r.id]);
  }

  lemma JournalingInStep(db: Db, t: Txn, r: Rebate, e: Exporter, busy: bool, k: nat)
    requires Numbered(db) && k < |db.rebates| && RebateInStep(db, e, busy, k)
    requires WorkerInStep(db, t, Journaling(r)) && t.id < |db.txns| && SameIdentity(db.txns[t.id], t)
    requires RebateInStep(db, e, true, r.id)
    ensures RebateInStep(SettleJournal(db, t, r), e, if k == r.id then false else busy, k)
  {
    JournalUpdated(db, t, r);
    if k != r.id {
      var m: nat :| Only(db.journal, m, r.id) && FindJournal(db.journal, r.userId, r.id) == Some(db.journal[m]);
      UpdateOther(db.journal, m, t, r, db.rebates[k]);
      if OneSettled(db, db.rebates[k]) { UpdateOtherSettled(db, m, t, r, db.rebates[k]); }
    }
  }

  ghost predicate Ready(hash: UserId -> int, d: Discipline, claims: RebateId -> UserId, w: World) {
    Base(hash, w) && Disciplined(d, w) && Claims(d, claims, w) && Settling(w) && InStep(w)
  }

  lemma HeadReady(hash: UserId -> int, d: Discipline, claims: RebateId -> UserId, w: World, i: nat)
    requires Ready(hash, d, claims, w) && CanWork(w, i)
    ensures var t, p := w.runners[i].queue[0], w.runners[i].phase;
            t.id < |w.db.txns| && SameIdentity(w.db.txns[t.id], t) && PhaseFits(t, p)
            && PaysSafely(w.db, t, p) && WorkerInStep(w.db, t, p)
  {
    HeadIsRow(hash, d, w, i);
    assert RunnerOk(hash, w.db, |w.runners|, i, w.runners[i]);
  }

  lemma SettleKeepsRebate(
      hash: UserId -> int, d: Discipline, claims: RebateId -> UserId, w: World, i: nat, env: Env, r: Rebate, k: nat)
    requires Ready(hash, d, claims, w) && CanWork(w, i) && k < |w.db.rebates|
    requires w.runners[i].phase == Acting(Settle(r))
    ensures var w' := Worked(w, i, env, true);
            k < |w'.db.rebates| && RebateInStep(w'.db, w'.exporter, Busy(w', k), k)
  {
    var t, w' := w.runners[i].queue[0], Worked(w, i, env, true);
    HeadReady(hash, d, claims, w, i);
    assert RebateInStep(w.db, w.exporter, Busy(w, k), k);
    assert w'.runners[i].phase == Journaling(SettledCopy(r, t));
    if r.id == k {
      SettlingInStep(env, w.db, t, r, w.exporter, Busy(w, k));
      assert JournalsAt(w', i, k);
    } else {
      BusySame(w, w', i, k);
      RebateUnaffected(w.db, w'.db, w.exporter, Busy(w, k), k);
    }
  }

  lemma JournalKeepsRebate(
      hash: UserId -> int, d: Discipline, claims: RebateId -> UserId, w: World, i: nat, env: Env, r: Rebate, k: nat)
    requires Ready(hash, d, claims, w) && CanWork(w, i) && k < |w.db.rebates|
    requires w.runners[i].phase == Journaling(r)
    ensures var w' := Worked(w, i, env, true);
            k < |w'.db.rebates| && RebateInStep(w'.db, w'.exporter, Busy(w', k), k)
  {
    var w' := Worked(w, i, env, true);
    HeadReady(hash, d, claims, w, i);
    assert JournalsAt(w, i, r.id) && RebateInStep(w.db, w.exporter, Busy(w, r.id), r.id);
    JournalingInStep(w.db, w.runners[i].queue[0], r, w.exporter, Busy(w, k), k);
    if r.id == k {
      NoLongerBusy(hash, d, claims, w, i, env, k);
    } else {
      BusySame(w, w', i, k);
    }
  }

  lemma StepKeepsRebate(
      hash: UserId -> int, d: Discipline, claims: RebateId -> UserId, w: World, i: nat, env: Env, k: nat)
    requires Ready(hash, d, claims, w) && CanWork(w, i) && k < |w.db.rebates|
    requires !w.runners[i].phase.Journaling? && !Settles(w.runners[i].phase, true)
    ensures var w' := Worked(w, i, env, true);
            k < |w'.db.rebates| && RebateInStep(w'.db, w'.exporter, Busy(w', k), k)
  {
    var t, p, w' := w.runners[i].queue[0], w.runners[i].phase, Worked(w, i, env, true);
    HeadReady(hash, d, claims, w, i);
    StepOnRows(env, w.db, t, p, true);
    StepPayments(env, w.db, t, p, true);
    assert !w'.runners[i].phase.Journaling? && w'.db.journal == w.db.journal;
    BusySame(w, w', i, k);
    RebateUnaffected(w.db, w'.db, w.exporter, Busy(w, k), k);
  }

  lemma WorkKeepsRebate(
      hash: UserId -> int, d: Discipline, claims: RebateId -> UserId, w: World, i: nat, env: Env, k: nat)
    requires Ready(hash, d, claims, w) && CanWork(w, i) && k < |w.db.rebates|
    ensures var w' := Worked(w, i, env, true);
            k < |w'.db.rebates| && RebateInStep(w'.db, w'.exporter, Busy(w', k), k)
  {
    var p := w.runners[i].phase;
    if p.Journaling? {
      JournalKeepsRebate(hash, d, claims, w, i, env, p.rebate, k);
    } else if Settles(p, true) {
      SettleKeepsRebate(hash, d, claims, w, i, env, p.sequel.rebate, k);
    } else {
      StepKeepsRebate(hash, d, claims, w, i, env, k);
    }
  }

  lemma StepJournal(env: Env, db: Db, t: Txn, p: Phase)
    requires Numbered(db) && WorkerInStep(db, t, p)
    ensures var db' := Step(env, db, t, p, true).0;
            |db.rebates| <= |db'.rebates|
            && ((forall j :: j in db.journal ==> j.rebateId < |db.rebates|) ==>
                  forall j :: j in db'.journal ==> j.rebateId < |db'.rebates|)
  {
    StepPayments(env, db, t, p, true);
    var db' := Step(env, db, t, p, true).0;
    if forall j :: j in db.journal ==> j.rebateId < |db.rebates| {
      forall j | j in db'.journal ensures j.rebateId < |db'.rebates| {
        var n :| 0 <= n < |db'.journal| && db'.journal[n] == j;
        assert db.journal[n] in db.journal;
      }
    }
  }

  /** A new rebate has no journal row yet. */
  lemma NewRebateInStep(env: Env, db: Db, t: Txn, p: Phase, e: Exporter, busy: bool, k: nat)
    requires Numbered(db) && forall j :: j in db.journal ==> j.rebateId < |db.rebates|
    requires var db' := Step(env, db, t, p, true).0; |db.rebates| <= k < |db'.rebates|
    ensures RebateInStep(Step(env, db, t, p, true).0, e, busy, k)
  {
    StepPayments(env, db, t, p, true);
  }

  lemma WorkKeepsInStep(
      hash: UserId -> int, d: Discipline, claims: RebateId -> UserId, w: World, i: nat, env: Env)
    requires Ready(hash, d, claims, w) && CanWork(w, i)
    ensures InStep(Worked(w, i, env, true))
  {
    var t, p, w' := w.runners[i].queue[0], w.runners[i].phase, Worked(w, i, env, true);
    HeadReady(hash, d, claims, w, i);
    StepJournal(env, w.db, t, p);
    WorkKeepsExporter(env, w.db, t, p, w.exporter);
    forall k: nat | k < |w'.db.rebates| ensures RebateInStep(w'.db, w'.exporter, Busy(w', k), k) {
      if k < |w.db.rebates| {
        WorkKeepsRebate(hash, d, claims, w, i, env, k);
      } else {
        NewRebateInStep(env, w.db, t, p, w.exporter, Busy(w', k), k);
      }
    }
    forall j: nat | CanWork(w', j) ensures WorkerInStep(w'.db, w'.runners[j].queue[0], w'.runners[j].phase) {
      if j == i {
        OwnWorkerInStep(env, w.db, t, p);
      } else {
        assert CanWork(w, j);
        OtherWorkerInStep(env, w.db, t, p, w.runners[j].queue[0], w.runners[j].phase);
      }
    }
  }

  lemma NoLongerBusy(hash: UserId -> int, d: Discipline, claims: RebateId -> UserId, w: World, i: nat, env: Env, k: nat)
    requires Base(hash, w) && Disciplined(d, w) && Claims(d, claims, w) && InStep(w) && JournalsAt(w, i, k)
    ensures !Busy(Worked(w, i, env, true), k)
  {
    var w' := Worked(w, i, env, true);
    if j: nat :| JournalsAt(w', j, k) {
      if j != i {
        assert JournalsAt(w, j, k);
        OneJournals(hash, d, claims, w, i, j, k);
      }
    }
  }

  lemma OwnWorkerInStep(env: Env, db: Db, t: Txn, p: Phase)
    requires Numbered(db) && PaysSafely(db, t, p) && WorkerInStep(db, t, p)
    ensures var (db', p') := Step(env, db, t, p, true); WorkerInStep(db', t, p')
  {
    if p.PaymentUnusedSeen? {
      SecondLookTotal(env, db, t);
      var r := NamedRebate(db, t);
      if r.Some? { var k :| 0 <= k < |db.rebates| && db.rebates[k] == r.value; }
    }
  }

  /** What a step does to rebates that others hold copies of. */
  lemma OtherWorkerInStep(env: Env, db: Db, t: Txn, p: Phase, x: Txn, q: Phase)
    requires Numbered(db) && PaysSafely(db, t, p) && WorkerInStep(db, x, q)
    ensures WorkerInStep(Step(env, db, t, p, true).0, x, q)
  {
    StepPayments(env, db, t, p, true);
  }

  lemma WorkKeepsExporter(env: Env, db: Db, t: Txn, p: Phase, e: Exporter)
    requires Numbered(db) && PaysSafely(db, t, p) && ExporterInStep(db, e)
    ensures ExporterInStep(Step(env, db, t, p, true).0, e)
  {
    StepPayments(env, db, t, p, true);
  }

  // ---- One access of the exporter ----

  lemma {:induction false} ExtractingOnce(s: seq<Rebate>)
    requires forall k :: 0 <= k < |s| ==> s[k].id == k
    ensures forall a, b :: 0 <= a < b < |Extracting(s)| ==> Extracting(s)[a].id != Extracting(s)[b].id
  {
    if s != [] {
      var n := |s| - 1;
      ExtractingOnce(s[..n]);
      assert forall a :: 0 <= a < |Extracting(s[..n])| ==> Extracting(s[..n])[a] in s[..n];
    }
  }

  lemma JournalingKeepsRebate(db: Db, e: Exporter, busy: bool, k: nat)
    requires Numbered(db) && ExporterInStep(db, e) && k < |db.rebates| && RebateInStep(db, e, busy, k)
    requires e.Journaled? && e.todo != []
    ensures var db' := db.(journal := db.journal + [NewJournal(|db.journal|, e.todo[0], PendingFulfillment)]);
            RebateInStep(db', Journaled(e.since, e.file, e.todo[1..]), busy, k)
  {
    var x, rest := e.todo[0], e.todo[1..];
    var j := NewJournal(|db.journal|, x, PendingFulfillment);
    assert x in e.todo && e.todo == [x] + rest;
    if k == x.id {
      AppendFirst(db.journal, |db.journal|, x);
      forall y | y in rest ensures y.id != k {
        var n :| 0 <= n < |rest| && rest[n] == y;
        assert e.todo[n + 1] == y;
      }
    } else {
      AppendOther(db.journal, j, db.rebates[k]);
      if OneSettled(db, db.rebates[k]) { AppendOtherSettled(db, j, db.rebates[k]); }
    }
  }

  lemma EndingKeepsRebate(db: Db, e: Exporter, busy: bool, k: nat)
    requires Numbered(db) && k < |db.rebates| && RebateInStep(db, e, busy, k) && e.Journaled? && e.todo == []
    ensures RebateInStep(db.(rebates := UpdateRebates(db.rebates, ExtractionEnded)), Finished(e.since), busy, k)
  {
    if db.rebates[k].status == ExtractionStarted {
      var m: nat :| Only(db.journal, m, k) && PendingRow(db.journal[m], db.rebates[k]);
      assert Only(db.journal, m, UpdateRebates(db.rebates, ExtractionEnded)[k].id);
    }
  }

  lemma ExportKeepsRebate(w: World, k: nat, busy: bool)
    requires Numbered(w.db) && ExporterInStep(w.db, w.exporter)
    requires k < |w.db.rebates| && RebateInStep(w.db, w.exporter, busy, k)
    ensures var w' := ExportNext(w, true);
            |w'.db.rebates| == |w.db.rebates| && RebateInStep(w'.db, w'.exporter, busy, k)
  {
    match w.exporter
    case Journaled(_, _, todo) =>
      if todo == [] {
        EndingKeepsRebate(w.db, w.exporter, busy, k);
      } else {
        JournalingKeepsRebate(w.db, w.exporter, busy, k);
      }
    case Delivered(_, _) =>
      if w.db.rebates[k].status == ExtractionStarted { assert w.db.rebates[k] in Extracting(w.db.rebates); }
    case _ =>
  }

  lemma ExportKeepsExporter(w: World)
    requires Numbered(w.db) && ExporterInStep(w.db, w.exporter)
    ensures var w' := ExportNext(w, true); ExporterInStep(w'.db, w'.exporter)
  {
    match w.exporter
    case Delivered(n, file) =>
      ExtractingOnce(w.db.rebates);
      forall x | x in Extracting(w.db.rebates) ensures x.id < |w.db.rebates| && w.db.rebates[x.id] == x {
        var k :| 0 <= k < |w.db.rebates| && w.db.rebates[k] == x;
      }
    case Journaled(n, file, todo) =>
      if todo != [] { assert forall x :: x in todo[1..] ==> x in todo; }
    case _ =>
  }

  lemma ExportKeepsWorkers(w: World, i: nat)
    requires CanWork(w, i) && WorkerInStep(w.db, w.runners[i].queue[0], w.runners[i].phase)
    ensures WorkerInStep(ExportNext(w, true).db, w.runners[i].queue[0], w.runners[i].phase)
  {
  }

  lemma ExportKeepsInStep(hash: UserId -> int, d: Discipline, claims: RebateId -> UserId, w: World)
    requires Ready(hash, d, claims, w)
    ensures InStep(ExportNext(w, true))
  {
    var w' := ExportNext(w, true);
    ExportKeepsExporter(w);
    forall k: nat | k < |w'.db.rebates| ensures RebateInStep(w'.db, w'.exporter, Busy(w', k), k) {
      ExportOnlyRebates(w.db, w.files, w.exporter, true);
      BusySame(w, w', |w.runners|, k);
      ExportKeepsRebate(w, k, Busy(w, k));
    }
    forall i: nat | CanWork(w', i) ensures WorkerInStep(w'.db, w'.runners[i].queue[0], w'.runners[i].phase) {
      assert CanWork(w, i);
      ExportKeepsWorkers(w, i);
    }
    ExportKeepsBounds(w);
  }

  lemma ExportKeepsBounds(w: World)
    requires Numbered(w.db) && ExporterInStep(w.db, w.exporter)
    requires forall j :: j in w.db.journal ==> j.rebateId < |w.db.rebates|
    ensures var w' := ExportNext(w, true); forall j :: j in w'.db.journal ==> j.rebateId < |w'.db.rebates|
  {
    ExportOnlyRebates(w.db, w.files, w.exporter, true);
    if w.exporter.Journaled? && w.exporter.todo != [] { assert w.exporter.todo[0] in w.exporter.todo; }
  }

  // ---- Everything else ----

  lemma QuietKeepsRebate(db: Db, db': Db, e: Exporter, busy: bool, k: nat)
    requires k < |db.rebates| && |db'.rebates| == |db.rebates| && db'.journal == db.journal
    requires db'.rebates[k] == db.rebates[k].(synced := db'.rebates[k].synced)
    requires |db.txns| <= |db'.txns| && forall i :: 0 <= i < |db.txns| ==> SameIdentity(db'.txns[i], db.txns[i])
    ensures RebateInStep(db, e, busy, k) ==> RebateInStep(db', e, busy, k)
  {
    var r, r' := db.rebates[k], db'.rebates[k];
    if OnePending(db.journal, r) {
      var m: nat :| Only(db.journal, m, r.id) && PendingRow(db.journal[m], r);
      assert Only(db.journal, m, r'.id) && PendingRow(db.journal[m], r');
    }
    if OneSettled(db, r) {
      var m: nat :| Only(db.journal, m, r.id) && SettledRow(db.journal[m], r, db.txns[r.fulfilRow.value]);
      assert Only(db'.journal, m, r'.id) && SettledRow(db'.journal[m], r', db'.txns[r'.fulfilRow.value]);
    }
  }

  lemma QuietRunners(hash: UserId -> int, w: World, a: Action, k: nat)
    requires !a.Work? && !a.Export? && Smooth(w, a)
    ensures var w' := Next(hash, w, a);
            Busy(w', k) == Busy(w, k)
            && forall i: nat :: CanWork(w', i) ==>
                 w'.runners[i].phase.Start? || (CanWork(w, i) && w'.runners[i] == w.runners[i])
  {
    var w' := Next(hash, w, a);
    forall i: nat ensures JournalsAt(w', i, k) == JournalsAt(w, i, k) {
      assert JournalsAt(w, i, k) ==> AboutToJournal(w, i);
    }
  }

  lemma QuietTables(hash: UserId -> int, w: World, a: Action)
    requires Base(hash, w) && !a.Work? && !a.Export?
    ensures var w' := Next(hash, w, a);
            w'.db.journal == w.db.journal && |w'.db.rebates| == |w.db.rebates|
            && (!a.ExportCrash? ==> w'.exporter == w.exporter)
            && forall k :: 0 <= k < |w.db.rebates| ==>
                 w'.db.rebates[k] == w.db.rebates[k].(synced := w'.db.rebates[k].synced)
                 && (w.db.rebates[k].status == ExtractionStarted ==> w'.db.rebates[k] == w.db.rebates[k])
  {
  }

  lemma QuietKeepsInStep(hash: UserId -> int, d: Discipline, claims: RebateId -> UserId, w: World, a: Action)
    requires Ready(hash, d, claims, w) && !a.Work? && !a.Export? && !a.ExportCrash? && Smooth(w, a)
    ensures InStep(Next(hash, w, a))
  {
    var w' := Next(hash, w, a);
    QuietTables(hash, w, a);
    RowsSurvive(hash, w, a);
    forall k: nat | k < |w'.db.rebates| ensures RebateInStep(w'.db, w'.exporter, Busy(w', k), k) {
      QuietRunners(hash, w, a, k);
      QuietKeepsRebate(w.db, w'.db, w.exporter, Busy(w, k), k);
    }
    forall i: nat | CanWork(w', i) ensures WorkerInStep(w'.db, w'.runners[i].queue[0], w'.runners[i].phase) {
      QuietRunners(hash, w, a, 0);
      if !w'.runners[i].phase.Start? {
        assert WorkerInStep(w.db, w.runners[i].queue[0], w.runners[i].phase);
      }
    }
  }

  // ---- Stopping in the middle ----

  /** The same tables, exporter and other workers; this worker is not about to journal and holds no copy of a rebate. */
  predicate Stopped(w: World, w': World, i: nat) {
    w'.db == w.db && w'.exporter == w.exporter && |w'.runners| == |w.runners|
    && (CanWork(w', i) ==> w'.runners[i].phase.Start? || (w'.runners[i].phase.Acting? && w'.runners[i].phase.sequel.Issue?))
    && forall j: nat :: j < |w.runners| && j != i ==> w'.runners[j] == w.runners[j]
  }

  lemma StoppingStops(hash: UserId -> int, w: World, a: Action, i: nat)
    requires Base(hash, w) && CanWork(w, i) && (a == Crash(i) || (a.Work? && a.i == i && !a.ok))
    ensures Stopped(w, Next(hash, w, a), i)
  {
    assert RunnerOk(hash, w.db, |w.runners|, i, w.runners[i]);
  }

  lemma RowIsMissed(hash: UserId -> int, d: Discipline, claims: RebateId -> UserId, w: World, w': World, i: nat)
    requires Ready(hash, d, claims, w) && AboutToJournal(w, i) && Stopped(w, w', i)
    ensures !InStep(w')
  {
    var k := w.runners[i].phase.rebate.id;
    HeadReady(hash, d, claims, w, i);
    assert JournalsAt(w, i, k) && RebateInStep(w.db, w.exporter, Busy(w, k), k);
    forall j: nat ensures !JournalsAt(w', j, k) {
      if j != i && JournalsAt(w, j, k) { OneJournals(hash, d, claims, w, i, j, k); }
    }
    assert !Busy(w', k);
    PendingIsNotSettled(w.db, w.db.rebates[k]);
  }

  lemma PendingIsNotSettled(db: Db, r: Rebate)
    requires OnePending(db.journal, r)
    ensures !OneSettled(db, r)
  {
    var m: nat :| Only(db.journal, m, r.id) && PendingRow(db.journal[m], r);
  }

  lemma StillInStep(w: World, w': World, i: nat)
    requires InStep(w) && CanWork(w, i) && !AboutToJournal(w, i) && Stopped(w, w', i)
    ensures InStep(w')
  {
    forall k: nat | k < |w'.db.rebates| ensures RebateInStep(w'.db, w'.exporter, Busy(w', k), k) {
      BusySame(w, w', i, k);
    }
    forall j: nat | CanWork(w', j) ensures WorkerInStep(w'.db, w'.runners[j].queue[0], w'.runners[j].phase) {
      if j != i { assert CanWork(w, j); }
    }
  }

  /** Stopping a worker, by a crash or a failing access, keeps the journal in step exactly if it was not about to journal. */
  lemma StoppingKeepsJournalIff(
      hash: UserId -> int, d: Discipline, claims: RebateId -> UserId, w: World, a: Action, i: nat)
    requires Ready(hash, d, claims, w) && CanWork(w, i) && (a == Crash(i) || (a.Work? && a.i == i && !a.ok))
    ensures InStep(Next(hash, w, a)) <==> !AboutToJournal(w, i)
  {
    var w' := Next(hash, w, a);
    StoppingStops(hash, w, a, i);
    if AboutToJournal(w, i) {
      RowIsMissed(hash, d, claims, w, w', i);
    } else {
      StillInStep(w, w', i);
    }
  }

  lemma OnceIdle(w: World, e: Exporter)
    requires Numbered(w.db) && InStep(w) && !e.Journaled?
    ensures InStep(w.(exporter := e)) <==> !HalfJournaled(w)
  {
    var w' := w.(exporter := e);
    forall k: nat ensures Busy(w', k) == Busy(w, k) {
      BusySame(w, w', |w.runners|, k);
    }
    if k: nat :| k < |w.db.rebates| && w.db.rebates[k].status == ExtractionStarted && AlreadyJournaled(w.exporter, k) {
      assert RebateInStep(w.db, w.exporter, Busy(w, k), k);
      HasItsRow(w.db.journal, w.db.rebates[k]);
      assert !RebateInStep(w.db, e, Busy(w', k), k);
    } else {
      forall k: nat | k < |w.db.rebates| ensures RebateInStep(w.db, e, Busy(w', k), k) {
        assert RebateInStep(w.db, w.exporter, Busy(w, k), k);
      }
      forall i: nat | CanWork(w', i) ensures WorkerInStep(w'.db, w'.runners[i].queue[0], w'.runners[i].phase) {
        assert CanWork(w, i);
      }
    }
  }

  lemma HasItsRow(journal: seq<JournalRow>, r: Rebate)
    requires OnePending(journal, r)
    ensures HasJournal(journal, r.id)
  {
    var m: nat :| Only(journal, m, r.id) && PendingRow(journal[m], r);
    assert journal[m] in journal;
  }

  /** Stopping an export keeps the journal in step exactly if no rebate was journaled that is still being extracted. */
  lemma StoppingExportKeepsJournalIff(hash: UserId -> int, w: World, a: Action)
    requires Base(hash, w) && InStep(w) && (a == ExportCrash || a == Export(false))
    ensures InStep(Next(hash, w, a)) <==> !HalfJournaled(w)
  {
    OnceIdle(w, Next(hash, w, a).exporter);
  }

  // ---- Whole runs ----

  ghost predicate SmoothRun(hash: UserId -> int, w: World, actions: seq<Action>)
    decreases |actions|
  {
    actions == [] || (Smooth(w, actions[0]) && SmoothRun(hash, Next(hash, w, actions[0]), actions[1..]))
  }

  lemma NextKeepsInStep(hash: UserId -> int, d: Discipline, claims: RebateId -> UserId, w: World, a: Action)
    requires Ready(hash, d, claims, w) && Smooth(w, a)
    ensures InStep(Next(hash, w, a))
  {
    match a
    case Work(i, env, ok) =>
      if CanWork(w, i) {
        if ok { WorkKeepsInStep(hash, d, claims, w, i, env); } else { StoppingKeepsJournalIff(hash, d, claims, w, a, i); }
      }
    case Export(ok) =>
      if ok { ExportKeepsInStep(hash, d, claims, w); } else { StoppingExportKeepsJournalIff(hash, w, a); }
    case ExportCrash => StoppingExportKeepsJournalIff(hash, w, a);
    case _ => QuietKeepsInStep(hash, d, claims, w, a);
  }

  lemma NextKeepsReady(hash: UserId -> int, d: Discipline, claims: RebateId -> UserId, w: World, a: Action)
    requires Ready(hash, d, claims, w) && Smooth(w, a)
    requires Keeps(d, a) && (a.Arrive? ==> ClaimKeeps(d, claims, a.t))
    ensures Ready(hash, d, claims, Next(hash, w, a))
  {
    NextKeepsBase(hash, w, a);
    NextKeepsDiscipline(hash, d, w, a);
    NextKeepsClaims(hash, d, claims, w, a);
    NextKeepsInStep(hash, d, claims, w, a);
    if a.Work? {
      if CanWork(w, a.i) { WorkKeepsSettling(hash, d, claims, w, a.i, a.env, a.ok); }
    } else {
      QuietKeepsSettling(hash, w, a);
    }
  }

  lemma {:induction false} RunKeepsReady(
      hash: UserId -> int, d: Discipline, claims: RebateId -> UserId, w: World, actions: seq<Action>)
    requires Ready(hash, d, claims, w) && SmoothRun(hash, w, actions)
    requires forall a :: a in actions ==> Keeps(d, a) && (a.Arrive? ==> ClaimKeeps(d, claims, a.t))
    ensures Ready(hash, d, claims, Run(hash, w, actions))
    decreases |actions|
  {
    if actions != [] {
      NextKeepsReady(hash, d, claims, w, actions[0]);
      RunKeepsReady(hash, d, claims, Next(hash, w, actions[0]), actions[1..]);
    }
  }

  /** Exactly one row, with this status and client, and the rebate's amount in the columns of this card and its reward. */
  ghost predicate JournaledAs(db: Db, r: Rebate, s: Status, client: UserId, card: CardType) {
    exists m: nat :: Only(db.journal, m, r.id) && db.journal[m].status == s && db.journal[m].clientId == client
      && Splits(db.journal[m], r.amount, card, r.rewardType)
  }

  /**
    * Over any run in which nobody is stopped between a rebate and its journal row, every delivered rebate has exactly
    * one such row. Its status is the rebate's, except between the two updates of a fulfilment, where it is still pending
    * and the lookup will find it.
    */
  lemma JournalStaysInStep(
      hash: UserId -> int, d: Discipline, claims: RebateId -> UserId, w: World, actions: seq<Action>, k: nat)
    requires Ready(hash, d, claims, w) && SmoothRun(hash, w, actions)
    requires forall a :: a in actions ==> Keeps(d, a) && (a.Arrive? ==> ClaimKeeps(d, claims, a.t))
    requires k < |Run(hash, w, actions).db.rebates| && IsDelivered(Run(hash, w, actions).db.rebates[k].status)
    ensures var end := Run(hash, w, actions); var r := end.db.rebates[k];
            (if Busy(end, k) || r.status == PendingFulfillment
             then JournaledAs(end.db, r, PendingFulfillment, r.userId, r.cardType)
             else r.fulfilRow.Some? && r.fulfilRow.value < |end.db.txns|
                  && var payment := end.db.txns[r.fulfilRow.value];
                     JournaledAs(end.db, r, FulfilledTransSuccessful, payment.userId, payment.cardType))
            && (Busy(end, k) ==> r.status == FulfilledTransSuccessful)
            && (forall i: nat :: JournalsAt(end, i, k) ==>
                  FindJournal(end.db.journal, end.runners[i].phase.rebate.userId, k).Some?)
  {
    RunKeepsReady(hash, d, claims, w, actions);
    var end := Run(hash, w, actions);
    assert RebateInStep(end.db, end.exporter, Busy(end, k), k);
    forall i: nat | JournalsAt(end, i, k)
      ensures end.db.rebates[k].status == FulfilledTransSuccessful
      ensures FindJournal(end.db.journal, end.runners[i].phase.rebate.userId, k).Some?
    {
      HeadReady(hash, d, claims, end, i);
      JournalUpdated(end.db, end.runners[i].queue[0], end.runners[i].phase.rebate);
    }
  }
}
