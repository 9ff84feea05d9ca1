/** One export as an object: cached rebates, the upload flag, the journal loop, and the conditional roll-back. */
module Exporting {
  import opened Domain
  import opened Store
  import opened World

  /** Which calls of one export succeed; everything between selecting and uploading counts as the upload. */
  datatype ExportCalls = ExportCalls(
    claim: bool, select: bool, upload: bool, list: bool, journal: RebateId -> bool, end: bool, reset: bool)

  predicate Succeeds(k: ExportCalls, e: Exporter) {
    match e
    case Idle => k.claim
    case Claimed(_) => k.select
    case Selected(_, _) => k.upload
    case Delivered(_, _) => k.list
    case Journaled(_, _, todo) => if todo == [] then k.end else k.journal(todo[0].id)
    case Finished(_) => true
    case Resetting => k.reset
  }

  function Stage(e: Exporter): nat {
    match e
    case Idle => 0
    case Finished(_) => 1
    case Resetting => 1
    case Journaled(_, _, todo) => 2 + |todo|
    case _ => 0
  }

  function Rank(e: Exporter): nat {
    match e
    case Claimed(_) => 3
    case Selected(_, _) => 2
    case Delivered(_, _) => 1
    case _ => 0
  }

  /** The rest of an export, with these calls failing. */
  function ExportRest(k: ExportCalls, db: Db, files: seq<set<RebateId>>, e: Exporter): (Db, seq<set<RebateId>>)
    decreases Rank(e), Stage(e)
  {
    if e.Idle? then (db, files) else
    var (db', files', e') := ExportStep(db, files, e, Succeeds(k, e));
    ExportRest(k, db', files', e')
  }

  /** A whole export from idle to idle. */
  function WholeExport(k: ExportCalls, db: Db, files: seq<set<RebateId>>): (Db, seq<set<RebateId>>) {
    var (db', files', e') := ExportStep(db, files, Idle, k.claim);
    ExportRest(k, db', files', e')
  }

  /** Still to be extracted, or left behind by a failed export. */
  predicate IsOpen(r: Rebate) {
    r.status == PendingExtraction || r.status == ExtractionStarted
  }

  /** The calls that an export makes all succeed: with nothing to export, those are only the first two. */
  ghost predicate Completes(k: ExportCalls, s: seq<Rebate>) {
    k.claim && k.select
    && ((forall r :: r in s ==> !IsOpen(r))
        || (k.upload && k.list && k.end && forall r :: r in s && IsOpen(r) ==> k.journal(r.id)))
  }

  lemma ClaimedAreOpen(s: seq<Rebate>)
    ensures var todo := Extracting(UpdateRebates(s, ExtractionBegun));
            (forall x :: x in todo ==> exists r :: r in s && IsOpen(r) && r.id == x.id)
            && (forall r :: r in s && IsOpen(r) ==> exists x :: x in todo && x.id == r.id)
  {
    var claimed := UpdateRebates(s, ExtractionBegun);
    var todo := Extracting(claimed);
    forall x | x in todo ensures exists r :: r in s && IsOpen(r) && r.id == x.id {
      var i :| 0 <= i < |claimed| && claimed[i] == x;
      assert s[i] in s && IsOpen(s[i]) && s[i].id == x.id;
    }
    forall r | r in s && IsOpen(r) ensures exists x :: x in todo && x.id == r.id {
      var i :| 0 <= i < |s| && s[i] == r;
      assert claimed[i] in todo && claimed[i].id == r.id;
    }
  }

  lemma NothingOpen(s: seq<Rebate>)
    ensures ExtractingIds(UpdateRebates(s, ExtractionBegun)) == {} <==> forall r :: r in s ==> !IsOpen(r)
  {
    var claimed := UpdateRebates(s, ExtractionBegun);
    var ids := ExtractingIds(claimed);
    ClaimedAreOpen(s);
    assert forall x :: x in Extracting(claimed) ==> x.id in ids;
    if ids != {} { var id :| id in ids; }
  }

  lemma AllJournaled(k: ExportCalls, s: seq<Rebate>)
    ensures (forall x :: x in Extracting(UpdateRebates(s, ExtractionBegun)) ==> k.journal(x.id)) <==>
            (forall r :: r in s && IsOpen(r) ==> k.journal(r.id))
  {
    ClaimedAreOpen(s);
  }

  lemma UnrollExport(k: ExportCalls, db: Db, files: seq<set<RebateId>>, e: Exporter)
    requires !e.Idle?
    ensures var (db', files', e') := ExportStep(db, files, e, Succeeds(k, e));
            ExportRest(k, db, files, e) == ExportRest(k, db', files', e')
  {
  }

  lemma JournalOne(k: ExportCalls, db: Db, files: seq<set<RebateId>>, n: nat, file: set<RebateId>, todo: seq<Rebate>)
    requires todo != []
    ensures ExportRest(k, db, files, Journaled(n, file, todo)) ==
            if k.journal(todo[0].id)
            then ExportRest(k, db.(journal := db.journal + [NewJournal(|db.journal|, todo[0], PendingFulfillment)]), files,
                            Journaled(n, file, todo[1..]))
            else (db, files)
  {
    UnrollExport(k, db, files, Journaled(n, file, todo));
  }

  /** Where zip files are uploaded to. */
  class Server {
    var files: seq<set<RebateId>>

    method Upload(file: set<RebateId>)
      modifies this
      ensures files == old(files) + [file]
    {
      files := files + [file];
    }
  }

  class RebateExport {
    var cachedRebates: Option<set<RebateId>>
    var uploadedToSFTP: bool

    constructor ()
      ensures cachedRebates.None? && !uploadedToSFTP
    {
      cachedRebates, uploadedToSFTP := None, false;
    }

    /** Claims every rebate pending extraction and selects all that are being extracted, once. */
    method RebatesToExport(db: Database, k: ExportCalls) returns (ok: bool)
      requires cachedRebates.None?
      modifies this`cachedRebates, db`rebates
      ensures db.State() == ExportStep(old(db.State()), [], Idle, k.claim).0
      ensures ok == (k.claim && k.select) && (ok ==> cachedRebates == Some(ExtractingIds(db.rebates)))
    {
      if !k.claim {
        return false;
      }
      db.UpdateRebateRows(ExtractionBegun);
      if !k.select {
        return false;
      }
      cachedRebates := Some(ExtractingIds(db.rebates));
      ok := true;
    }

    method UploadToSFTP(server: Server, k: ExportCalls) returns (ok: bool)
      requires cachedRebates.Some?
      modifies this`uploadedToSFTP, server
      ensures ok == k.upload && uploadedToSFTP == (ok || old(uploadedToSFTP))
      ensures server.files == if ok then old(server.files) + [cachedRebates.value] else old(server.files)
    {
      ok := k.upload;
      if ok {
        server.Upload(cachedRebates.value);
        uploadedToSFTP := true;
      }
    }

    /** The journal loop over the rebates being extracted. */
    method CreateJournalRecords(db: Database, k: ExportCalls, ghost files: seq<set<RebateId>>, ghost e: Exporter)
      returns (ok: bool)
      requires e.Delivered?
      modifies db`journal
      ensures ExportRest(k, old(db.State()), files, e) ==
              if ok then ExportRest(k, db.State(), files, Journaled(e.since, e.file, [])) else (db.State(), files)
      ensures ok <==> k.list && forall x :: x in Extracting(db.rebates) ==> k.journal(x.id)
    {
      UnrollExport(k, db.State(), files, e);
      if !k.list {
        return false;
      }
      var rebatesToWrite := Extracting(db.rebates);
      ghost var start := ExportRest(k, db.State(), files, e);
      for i := 0 to |rebatesToWrite|
        invariant start == ExportRest(k, db.State(), files, Journaled(e.since, e.file, rebatesToWrite[i..]))
        invariant forall j :: 0 <= j < i ==> k.journal(rebatesToWrite[j].id)
      {
        ghost var todo := rebatesToWrite[i..];
        JournalOne(k, db.State(), files, e.since, e.file, todo);
        assert rebatesToWrite[i] in rebatesToWrite;
        assert todo[0] == rebatesToWrite[i] && todo[1..] == rebatesToWrite[i + 1..];
        if !k.journal(rebatesToWrite[i].id) {
          return false;
        }
        db.InsertJournal(rebatesToWrite[i], PendingFulfillment);
      }
      ok := true;
    }

    /** Rolls back what was claimed, unless the file has gone out. */
    method RecordFailure(db: Database, k: ExportCalls)
      modifies db`rebates
      ensures db.State() == if !uploadedToSFTP && k.reset
                            then old(db.State()).(rebates := UpdateRebates(old(db.rebates), ExtractionReset))
                            else old(db.State())
    {
      if !uploadedToSFTP && k.reset {
        db.UpdateRebateRows(ExtractionReset);
      }
    }

    /** One export: tables and files end as the exporter's steps leave them, whichever calls fail. */
    method Perform(db: Database, server: Server, k: ExportCalls) returns (ok: bool)
      requires cachedRebates.None? && !uploadedToSFTP
      modifies this, db, server
      ensures (db.State(), server.files) == WholeExport(k, old(db.State()), old(server.files))
      ensures ok <==> Completes(k, old(db.rebates))
    {
      NothingOpen(db.rebates);
      AllJournaled(k, db.rebates);
      ghost var n, whole := |db.rebates|, WholeExport(k, db.State(), server.files);
      ok := RebatesToExport(db, k);
      if k.claim { UnrollExport(k, db.State(), server.files, Claimed(n)); }
      if ok && cachedRebates.value == {} {
        UnrollExport(k, db.State(), server.files, Finished(n));
        return true;
      }
      if ok {
        UnrollExport(k, db.State(), server.files, Selected(n, cachedRebates.value));
        ok := UploadToSFTP(server, k);
        if ok {
          ok := FinishDelivery(db, k, server.files, Delivered(n, cachedRebates.value));
        }
      }
      assert !ok && !uploadedToSFTP ==> whole == ExportRest(k, db.State(), server.files, Resetting);
      if !ok {
        UnrollExport(k, db.State(), server.files, Resetting);
        RecordFailure(db, k);
      }
    }

    /** After the upload: journal records, then the rebates of the file become pending fulfilment. */
    method FinishDelivery(db: Database, k: ExportCalls, ghost files: seq<set<RebateId>>, ghost e: Exporter)
      returns (ok: bool)
      requires e.Delivered?
      modifies db
      ensures (db.State(), files) == ExportRest(k, old(db.State()), files, e)
      ensures ok <==> k.list && k.end && forall x :: x in Extracting(old(db.rebates)) ==> k.journal(x.id)
    {
      ok := CreateJournalRecords(db, k, files, e);
      if ok {
        UnrollExport(k, db.State(), files, Journaled(e.since, e.file, []));
        ok := k.end;
        if ok {
          db.UpdateRebateRows(ExtractionEnded);
          UnrollExport(k, db.State(), files, Finished(e.since));
        }
      }
    }
  }
}
