/** Export: what is delivered was uploaded and journaled, and a completed export leaves nothing behind. */
module Exports {
  import opened Domain
  import opened Store
  import opened Eligibility
  import opened RowSteps
  import opened World
  import Settlement

  predicate IsDelivered(s: Status) {
    s == PendingFulfillment || s == FulfilledTransSuccessful
  }

  /** The life of one rebate row: its status, and what is stamped in which status. */
  predicate LifeOk(r: Rebate) {
    r.status in [PendingExtraction, ExtractionStarted, PendingFulfillment, FulfilledTransSuccessful]
    && (r.delivered <==> IsDelivered(r.status))
    && (r.synced ==> r.status == FulfilledTransSuccessful)
  }

  predicate Uploaded(files: seq<set<RebateId>>, id: RebateId) {
    exists f :: f in files && id in f
  }

  predicate HasJournal(journal: seq<JournalRow>, id: RebateId) {
    exists j :: j in journal && j.rebateId == id
  }

  /** A worker about to settle a rebate settles one that has been delivered. */
  predicate SettlesDelivered(db: Db, p: Phase) {
    match p
    case Marking(_, Settle(r)) => r.id < |db.rebates| && IsDelivered(db.rebates[r.id].status)
    case Acting(Settle(r)) => r.id < |db.rebates| && IsDelivered(db.rebates[r.id].status)
    case _ => true
  }

  /** What the exporter knows about the tables at each point of one export. */
  ghost predicate ExporterOk(w: World) {
    var s := w.db.rebates;
    match w.exporter
    case Idle => true
    case Resetting => true
    case Claimed(n) => ClaimedFrom(s, n)
    case Selected(n, file) => ClaimedFrom(s, n) && FileIs(s, file)
    case Delivered(n, file) => ClaimedFrom(s, n) && FileIs(s, file) && file in w.files
    case Journaled(n, file, todo) =>
      ClaimedFrom(s, n) && FileIs(s, file) && file in w.files
      && Covered(w.db.journal, todo, file)
    case Finished(n) => n <= |s| && forall k :: 0 <= k < n ==> IsDelivered(s[k].status)
  }

  /** Every rebate of the file has its journal row or is still to get it. */
  ghost predicate Covered(journal: seq<JournalRow>, todo: seq<Rebate>, file: set<RebateId>) {
    forall id :: id in file ==> HasJournal(journal, id) || exists x :: x in todo && x.id == id
  }

  /** The file holds exactly the rebates being extracted. */
  ghost predicate FileIs(s: seq<Rebate>, file: set<RebateId>) {
    forall id: nat :: id in file <==> id < |s| && s[id].status == ExtractionStarted
  }

  ghost predicate ClaimedFrom(s: seq<Rebate>, n: nat) {
    n <= |s| && forall k :: 0 <= k < n ==> s[k].status != PendingExtraction
  }

  ghost predicate Exported(w: World) {
    (forall r :: r in w.db.rebates ==> LifeOk(r))
    && (forall r :: r in w.db.rebates && IsDelivered(r.status) ==> Uploaded(w.files, r.id) && HasJournal(w.db.journal, r.id))
    && (forall i: nat :: CanWork(w, i) ==> SettlesDelivered(w.db, w.runners[i].phase))
    && ExporterOk(w)
  }

  /** How other processes may change the rebates while an export is going on. */
  ghost predicate Elsewhere(s: seq<Rebate>, s': seq<Rebate>) {
    |s| <= |s'|
    && (forall k :: 0 <= k < |s| ==>
          s'[k].id == s[k].id
          && (s'[k].status == s[k].status || (IsDelivered(s[k].status) && IsDelivered(s'[k].status))))
    && (forall k :: |s| <= k < |s'| ==> s'[k].status == PendingExtraction)
  }

  lemma ExtractingIsFile(s: seq<Rebate>)
    requires forall k :: 0 <= k < |s| ==> s[k].id == k
    ensures FileIs(s, ExtractingIds(s))
  {
    forall id: nat ensures id in ExtractingIds(s) <==> id < |s| && s[id].status == ExtractionStarted {
      if id < |s| && s[id].status == ExtractionStarted {
        assert s[id] in Extracting(s);
      }
      if id in ExtractingIds(s) {
        var r :| r in Extracting(s) && r.id == id;
        var k :| 0 <= k < |s| && s[k] == r;
      }
    }
  }

  lemma KeepsJournals(j: seq<JournalRow>, j': seq<JournalRow>, id: RebateId)
    requires |j| <= |j'| && forall k :: 0 <= k < |j| ==> j'[k].rebateId == j[k].rebateId
    ensures HasJournal(j, id) ==> HasJournal(j', id)
  {
    if x :| x in j && x.rebateId == id {
      var k :| 0 <= k < |j| && j[k] == x;
      assert j'[k] in j';
    }
  }

  ghost predicate JournalGrows(j: seq<JournalRow>, j': seq<JournalRow>) {
    |j| <= |j'| && forall k :: 0 <= k < |j| ==> j'[k].rebateId == j[k].rebateId
  }

  lemma JournalKeepsCovered(j: seq<JournalRow>, j': seq<JournalRow>, todo: seq<Rebate>, file: set<RebateId>)
    requires JournalGrows(j, j') && Covered(j, todo, file)
    ensures Covered(j', todo, file)
  {
    forall id | id in file ensures HasJournal(j', id) || exists x :: x in todo && x.id == id {
      KeepsJournals(j, j', id);
    }
  }

  lemma ElsewhereKeepsClaim(s: seq<Rebate>, s': seq<Rebate>, n: nat)
    requires Elsewhere(s, s')
    ensures ClaimedFrom(s, n) ==> ClaimedFrom(s', n)
    ensures forall file :: FileIs(s, file) ==> FileIs(s', file)
  {
  }

  /** The exporter's picture survives whatever other processes do. */
  lemma ElsewhereKeepsExporter(w: World, w': World)
    requires ExporterOk(w) && w'.exporter == w.exporter && w'.files == w.files
    requires Elsewhere(w.db.rebates, w'.db.rebates) && JournalGrows(w.db.journal, w'.db.journal)
    ensures ExporterOk(w')
  {
    match w.exporter
    case Idle =>
    case Resetting =>
    case Finished(n) =>
    case Claimed(n) => ElsewhereKeepsClaim(w.db.rebates, w'.db.rebates, n);
    case Selected(n, file) => ElsewhereKeepsClaim(w.db.rebates, w'.db.rebates, n);
    case Delivered(n, file) => ElsewhereKeepsClaim(w.db.rebates, w'.db.rebates, n);
    case Journaled(n, file, todo) =>
      ElsewhereKeepsClaim(w.db.rebates, w'.db.rebates, n);
      JournalKeepsCovered(w.db.journal, w'.db.journal, todo, file);
  }

  lemma StepElsewhere(env: Env, db: Db, t: Txn, p: Phase, ok: bool)
    requires Numbered(db) && SettlesDelivered(db, p)
    ensures var db' := Step(env, db, t, p, ok).0;
            Elsewhere(db.rebates, db'.rebates) && JournalGrows(db.journal, db'.journal)
  {
    Settlement.StepPayments(env, db, t, p, ok);
  }

  lemma StepLife(env: Env, db: Db, t: Txn, p: Phase, ok: bool)
    requires Numbered(db) && SettlesDelivered(db, p) && forall r :: r in db.rebates ==> LifeOk(r)
    ensures forall r :: r in Step(env, db, t, p, ok).0.rebates ==> LifeOk(r)
  {
    var s := Step(env, db, t, p, ok).0.rebates;
    Settlement.StepPayments(env, db, t, p, ok);
    forall r | r in s ensures LifeOk(r) {
      var k :| 0 <= k < |s| && s[k] == r;
      if k < |db.rebates| {
        assert db.rebates[k] in db.rebates;
      } else {
        StepInserts(env, db, t, p, ok);
      }
    }
  }

  lemma StepInserts(env: Env, db: Db, t: Txn, p: Phase, ok: bool)
    ensures var s := Step(env, db, t, p, ok).0.rebates;
            forall k :: |db.rebates| <= k < |s| ==> LifeOk(s[k]) && s[k].status == PendingExtraction
  {
  }

  lemma StepKeepsTarget(env: Env, db: Db, t: Txn, p: Phase, ok: bool)
    requires Numbered(db) && SettlesDelivered(db, p)
    ensures var (db', p') := Step(env, db, t, p, ok); SettlesDelivered(db', p')
  {
    if ok && p.PaymentUnusedSeen? {
      SecondLookTotal(env, db, t);
      var r := NamedRebate(db, t);
      if r.Some? { var k :| 0 <= k < |db.rebates| && db.rebates[k] == r.value; }
    }
  }

  lemma DeliveredElsewhere(w: World, w': World)
    requires Exported(w) && Numbered(w.db) && Numbered(w'.db) && w'.files == w.files
    requires Elsewhere(w.db.rebates, w'.db.rebates) && JournalGrows(w.db.journal, w'.db.journal)
    ensures forall r :: r in w'.db.rebates && IsDelivered(r.status) ==>
              Uploaded(w'.files, r.id) && HasJournal(w'.db.journal, r.id)
  {
    forall r | r in w'.db.rebates && IsDelivered(r.status)
      ensures Uploaded(w'.files, r.id) && HasJournal(w'.db.journal, r.id)
    {
      var k :| 0 <= k < |w'.db.rebates| && w'.db.rebates[k] == r;
      assert w.db.rebates[k] in w.db.rebates;
      KeepsJournals(w.db.journal, w'.db.journal, r.id);
    }
  }

  lemma WorkKeepsExported(hash: UserId -> int, w: World, i: nat, env: Env, ok: bool)
    requires Base(hash, w) && Exported(w) && CanWork(w, i)
    ensures Exported(Worked(w, i, env, ok))
  {
    var w', t, phase := Worked(w, i, env, ok), w.runners[i].queue[0], w.runners[i].phase;
    WorkKeepsBase(hash, w, i, env, ok);
    StepElsewhere(env, w.db, t, phase, ok);
    StepLife(env, w.db, t, phase, ok);
    StepKeepsTarget(env, w.db, t, phase, ok);
    ElsewhereKeepsExporter(w, w');
    DeliveredElsewhere(w, w');
    forall j: nat | CanWork(w', j) ensures SettlesDelivered(w'.db, w'.runners[j].phase) {
      if j != i { assert CanWork(w, j); }
    }
  }

  predicate TouchesNoStatus(a: Action) {
    !a.Work? && !a.Export? && !a.ExportCrash?
  }

  lemma QuietElsewhere(hash: UserId -> int, w: World, a: Action)
    requires Base(hash, w) && TouchesNoStatus(a) && forall r :: r in w.db.rebates ==> LifeOk(r)
    ensures var w' := Next(hash, w, a);
            |w'.db.rebates| == |w.db.rebates| && w'.db.journal == w.db.journal
            && w'.exporter == w.exporter && w'.files == w.files
            && (forall k :: 0 <= k < |w.db.rebates| ==>
                  w'.db.rebates[k].id == w.db.rebates[k].id && w'.db.rebates[k].status == w.db.rebates[k].status)
            && (forall r :: r in w'.db.rebates ==> LifeOk(r))
  {
    if a.Sync? { SyncKeepsLife(w.db.rebates, a.offer); }
  }

  lemma SyncKeepsLife(s: seq<Rebate>, o: OfferId)
    requires forall r :: r in s ==> LifeOk(r)
    ensures forall r :: r in UpdateRebates(s, MopSynced(o)) ==> LifeOk(r)
  {
    forall r | r in UpdateRebates(s, MopSynced(o)) ensures LifeOk(r) {
      var k :| 0 <= k < |s| && UpdateRebates(s, MopSynced(o))[k] == r;
      assert LifeOk(s[k]);
    }
  }

  /** Sync, arrivals, crashes, restarts and loads: nobody's status changes. */
  lemma QuietKeepsExported(hash: UserId -> int, w: World, a: Action)
    requires Base(hash, w) && Exported(w) && TouchesNoStatus(a)
    ensures Exported(Next(hash, w, a))
  {
    var w' := Next(hash, w, a);
    NextKeepsBase(hash, w, a);
    QuietElsewhere(hash, w, a);
    ElsewhereKeepsExporter(w, w');
    DeliveredElsewhere(w, w');
    forall j: nat | CanWork(w', j) ensures SettlesDelivered(w'.db, w'.runners[j].phase) {
      if !w'.runners[j].phase.Start? {
        assert CanWork(w, j) && w.runners[j] == w'.runners[j];
        assert SettlesDelivered(w.db, w.runners[j].phase);
      }
    }
  }

  lemma ExtractionUpdate(s: seq<Rebate>, up: RebateUpdate)
    requires up.ExtractionBegun? || up.ExtractionReset? || up.ExtractionEnded?
    requires forall r :: r in s ==> LifeOk(r)
    ensures forall r :: r in UpdateRebates(s, up) ==> LifeOk(r)
    ensures forall k :: 0 <= k < |s| && IsDelivered(s[k].status) ==> UpdateRebates(s, up)[k] == s[k]
  {
    forall r | r in UpdateRebates(s, up) ensures LifeOk(r) {
      var k :| 0 <= k < |s| && UpdateRebates(s, up)[k] == r;
      assert LifeOk(s[k]);
    }
  }

  /** The roll-back undoes the claim, exactly if nothing else was being extracted before. */
  lemma RollBackUndoesClaim(s: seq<Rebate>)
    ensures UpdateRebates(UpdateRebates(s, ExtractionBegun), ExtractionReset) == s
            <==> forall r :: r in s ==> r.status != ExtractionStarted
  {
    var s' := UpdateRebates(UpdateRebates(s, ExtractionBegun), ExtractionReset);
    assert forall k :: 0 <= k < |s| ==> s[k] in s;
    assert forall k :: 0 <= k < |s| ==> s'[k].status != ExtractionStarted;
    if s' == s {
      forall r | r in s ensures r.status != ExtractionStarted {
        var k :| 0 <= k < |s| && s[k] == r;
        assert s'[k] == r;
      }
    }
  }

  /** The end step delivers exactly the rebates of the file just uploaded, each of them journaled. */
  lemma EndStepDeliversTheFile(w: World, n: nat, file: set<RebateId>)
    requires Numbered(w.db) && Exported(w) && w.exporter == Journaled(n, file, [])
    ensures var (db', files', e') := ExportStep(w.db, w.files, w.exporter, true);
            e' == Finished(n) && file in files'
            && |db'.rebates| == |w.db.rebates|
            && (forall k :: 0 <= k < |w.db.rebates| ==>
                  (IsDelivered(db'.rebates[k].status) <==> IsDelivered(w.db.rebates[k].status) || k in file)
                  && (k in file ==> w.db.rebates[k].status == ExtractionStarted && db'.rebates[k].status == PendingFulfillment
                                    && db'.rebates[k].delivered && HasJournal(db'.journal, k))
                  && (k !in file ==> db'.rebates[k] == w.db.rebates[k]))
            && (forall k :: 0 <= k < n ==> IsDelivered(db'.rebates[k].status))
  {
    var s := w.db.rebates;
    assert forall k :: 0 <= k < |s| ==> s[k] in s && LifeOk(s[k]);
  }

  lemma ExportKeepsExported(hash: UserId -> int, w: World, ok: bool)
    requires Base(hash, w) && Exported(w)
    ensures Exported(Next(hash, w, Export(ok)))
  {
    var w' := Next(hash, w, Export(ok));
    var s, s' := w.db.rebates, w'.db.rebates;
    NextKeepsBase(hash, w, Export(ok));
    ExportKeepsLife(w, ok);
    ExportKeepsDelivered(w, ok);
    ExportKeepsExporter(w, ok);
    forall j: nat | CanWork(w', j) ensures SettlesDelivered(w'.db, w'.runners[j].phase) {
      assert CanWork(w, j);
    }
  }

  lemma ExportKeepsLife(w: World, ok: bool)
    requires Exported(w)
    ensures var s' := ExportStep(w.db, w.files, w.exporter, ok).0.rebates;
            |s'| == |w.db.rebates| && (forall r :: r in s' ==> LifeOk(r))
            && (forall k :: 0 <= k < |s'| && IsDelivered(w.db.rebates[k].status) ==> s'[k] == w.db.rebates[k])
  {
    ExtractionUpdate(w.db.rebates, ExtractionBegun);
    ExtractionUpdate(w.db.rebates, ExtractionReset);
    ExtractionUpdate(w.db.rebates, ExtractionEnded);
  }

  lemma ExportKeepsDelivered(w: World, ok: bool)
    requires Numbered(w.db) && Exported(w)
    ensures var w' := ExportNext(w, ok);
            forall r :: r in w'.db.rebates && IsDelivered(r.status) ==>
              Uploaded(w'.files, r.id) && HasJournal(w'.db.journal, r.id)
  {
    var w' := ExportNext(w, ok);
    ExportOnlyRebates(w.db, w.files, w.exporter, ok);
    ExportKeepsLife(w, ok);
    if ok && w.exporter.Journaled? && w.exporter.todo == [] {
      EndStepDeliversTheFile(w, w.exporter.since, w.exporter.file);
    }
    forall r | r in w'.db.rebates && IsDelivered(r.status)
      ensures Uploaded(w'.files, r.id) && HasJournal(w'.db.journal, r.id)
    {
      var k :| 0 <= k < |w'.db.rebates| && w'.db.rebates[k] == r;
      assert w.db.rebates[k] in w.db.rebates;
      KeepsJournals(w.db.journal, w'.db.journal, r.id);
    }
  }

  lemma JournalingCovers(journal: seq<JournalRow>, todo: seq<Rebate>, file: set<RebateId>, j: JournalRow)
    requires todo != [] && j.rebateId == todo[0].id && Covered(journal, todo, file)
    ensures Covered(journal + [j], todo[1..], file)
  {
    assert todo == [todo[0]] + todo[1..];
    assert j in journal + [j];
    forall id | id in file ensures HasJournal(journal + [j], id) || exists x :: x in todo[1..] && x.id == id {
      KeepsJournals(journal, journal + [j], id);
    }
  }

  lemma ExportKeepsExporter(w: World, ok: bool)
    requires Numbered(w.db) && Exported(w)
    ensures ExporterOk(ExportNext(w, ok))
  {
    var w' := ExportNext(w, ok);
    if ok {
      match w.exporter
      case Claimed(n) =>
        ExtractingIsFile(w.db.rebates);
        if ExtractingIds(w.db.rebates) == {} {
          forall k | 0 <= k < n ensures IsDelivered(w.db.rebates[k].status) {
            assert w.db.rebates[k] in w.db.rebates && LifeOk(w.db.rebates[k]);
            assert k !in ExtractingIds(w.db.rebates);
          }
        }
      case Journaled(n, file, todo) =>
        if todo == [] {
          EndStepDeliversTheFile(w, n, file);
        } else {
          JournalingCovers(w.db.journal, todo, file, NewJournal(|w.db.journal|, todo[0], PendingFulfillment));
        }
      case _ =>
    }
  }

  lemma NextKeepsExported(hash: UserId -> int, w: World, a: Action)
    requires Base(hash, w) && Exported(w)
    ensures Exported(Next(hash, w, a))
  {
    match a
    case Work(i, env, ok) => if CanWork(w, i) { WorkKeepsExported(hash, w, i, env, ok); }
    case Export(ok) => ExportKeepsExported(hash, w, ok);
    case ExportCrash => assert forall i: nat :: CanWork(Next(hash, w, a), i) ==> CanWork(w, i);
    case _ => QuietKeepsExported(hash, w, a);
  }

  /**
    * Over any run, with failures and crashes anywhere: a rebate that reached PendingFulfillment or beyond was in an
    * uploaded file and has a journal row; stamps match statuses; a completed export leaves none of the rebates
    * that existed when it started in PendingExtraction or ExtractionStarted.
    */
  lemma {:induction false} ExportIsSafe(hash: UserId -> int, w: World, actions: seq<Action>)
    requires Base(hash, w) && Exported(w)
    ensures Base(hash, Run(hash, w, actions)) && Exported(Run(hash, w, actions))
    decreases |actions|
  {
    if actions != [] {
      NextKeepsBase(hash, w, actions[0]);
      NextKeepsExported(hash, w, actions[0]);
      ExportIsSafe(hash, Next(hash, w, actions[0]), actions[1..]);
    }
  }

  /** In columns: what the end of any such run says about one rebate. */
  lemma DeliveredIsOnFile(hash: UserId -> int, w: World, actions: seq<Action>, k: nat)
    requires Base(hash, w) && Exported(w) && k < |Run(hash, w, actions).db.rebates|
    ensures var end := Run(hash, w, actions); var r := end.db.rebates[k];
            (r.delivered <==> r.status == PendingFulfillment || r.status == FulfilledTransSuccessful)
            && (r.synced ==> r.status == FulfilledTransSuccessful)
            && (r.delivered ==>
                  (exists n: nat :: n < |end.files| && k in end.files[n])
                  && exists m: nat :: m < |end.db.journal| && end.db.journal[m].rebateId == k)
  {
    ExportIsSafe(hash, w, actions);
    var end := Run(hash, w, actions);
    var r := end.db.rebates[k];
    assert r in end.db.rebates && r.id == k;
    if r.delivered {
      var f :| f in end.files && k in f;
      var n: nat :| n < |end.files| && end.files[n] == f;
      var j :| j in end.db.journal && j.rebateId == k;
      var m: nat :| m < |end.db.journal| && end.db.journal[m] == j;
    }
  }

  function SinceOf(e: Exporter): Option<nat> {
    match e
    case Idle => None
    case Resetting => None
    case Claimed(n) => Some(n)
    case Selected(n, _) => Some(n)
    case Delivered(n, _) => Some(n)
    case Journaled(n, _, _) => Some(n)
    case Finished(n) => Some(n)
  }

  /** The export under way neither fails nor crashes nor is replaced by another during these actions. */
  ghost predicate Unbroken(hash: UserId -> int, w: World, actions: seq<Action>)
    decreases |actions|
  {
    SinceOf(w.exporter).Some? && (actions != [] ==> Unbroken(hash, Next(hash, w, actions[0]), actions[1..]))
  }

  lemma {:induction false} UnbrokenKeepsSince(hash: UserId -> int, w: World, actions: seq<Action>)
    requires Unbroken(hash, w, actions)
    ensures SinceOf(Run(hash, w, actions).exporter) == SinceOf(w.exporter)
    decreases |actions|
  {
    if actions != [] {
      UnbrokenKeepsSince(hash, Next(hash, w, actions[0]), actions[1..]);
    }
  }

  /**
    * Whatever exports failed or crashed before, one export that runs to its end delivers every rebate that existed
    * when it started, while others are being issued and fulfilled.
    */
  lemma ExportRecovers(hash: UserId -> int, w: World, actions: seq<Action>)
    requires Base(hash, w) && Exported(w) && w.exporter == Idle
    requires var w1 := Next(hash, w, Export(true));
             Unbroken(hash, w1, actions) && Run(hash, w1, actions).exporter.Finished?
    ensures var end := Run(hash, Next(hash, w, Export(true)), actions);
            |w.db.rebates| <= |end.db.rebates|
            && forall k :: 0 <= k < |w.db.rebates| ==> IsDelivered(end.db.rebates[k].status)
  {
    var w1 := Next(hash, w, Export(true));
    NextKeepsBase(hash, w, Export(true));
    NextKeepsExported(hash, w, Export(true));
    ExportIsSafe(hash, w1, actions);
    UnbrokenKeepsSince(hash, w1, actions);
  }
}
