/** What one whole export leaves in the tables and on the server, for every pattern of failing calls, in columns. */
module ExportColumns {
  import opened Domain
  import opened Store
  import opened World
  import opened Exporting
  import Exports
  import Journals

  /** The rebates an export is about: those still to be extracted, and those left behind by a failed export. */
  function Open(s: seq<Rebate>): set<RebateId> {
    set i: nat | i < |s| && IsOpen(s[i])
  }

  /** These rebates get this status, and the others stay as they are. */
  ghost predicate Moved(s: seq<Rebate>, s': seq<Rebate>, ids: set<RebateId>, status: Status) {
    |s'| == |s|
    && forall i :: 0 <= i < |s| ==>
         s'[i] == if i !in ids then s[i]
                  else s[i].(status := status, delivered := s[i].delivered || status == PendingFulfillment)
  }

  /** The journal row of one of these rebates, still pending, with its columns. */
  predicate NewRow(j: JournalRow, s: seq<Rebate>, ids: set<RebateId>) {
    j.rebateId in ids && j.rebateId < |s| && Journals.PendingRow(j, s[j.rebateId])
  }

  /** The new journal rows: one for each rebate up to the first that cannot be journaled, in the order of their ids. */
  ghost predicate Journaled(s: seq<Rebate>, journal: seq<JournalRow>, journal': seq<JournalRow>, ids: set<RebateId>) {
    journal <= journal'
    && (forall m :: |journal| <= m < |journal'| ==> journal'[m].id == m && NewRow(journal'[m], s, ids))
    && (forall m, n :: |journal| <= m < n < |journal'| ==> journal'[m].rebateId < journal'[n].rebateId)
    && (forall id :: id in ids ==> exists m :: |journal| <= m < |journal'| && journal'[m].rebateId == id)
  }

  /** Rebates whose journal row, and that of every earlier one, can be written. */
  function Writable(k: ExportCalls, ids: set<RebateId>): set<RebateId> {
    set id | id in ids && k.list && forall x :: x in ids && x <= id ==> k.journal(x)
  }

  // ---- The list of rebates being extracted ----

  lemma {:induction false} ExtractingInOrder(s: seq<Rebate>)
    requires forall i :: 0 <= i < |s| ==> s[i].id == i
    ensures forall a, b :: 0 <= a < b < |Extracting(s)| ==> Extracting(s)[a].id < Extracting(s)[b].id
  {
    if s != [] {
      var n := |s| - 1;
      ExtractingInOrder(s[..n]);
      forall x | x in Extracting(s[..n]) ensures x.id < n {
        var i :| 0 <= i < n && s[..n][i] == x;
      }
      assert forall a :: 0 <= a < |Extracting(s[..n])| ==> Extracting(s[..n])[a] in Extracting(s[..n]);
    }
  }

  /** How many rebates of a list are journaled before the first failure. */
  function Written(k: ExportCalls, todo: seq<Rebate>): (m: nat)
    ensures m <= |todo|
    ensures forall i :: 0 <= i < m ==> k.journal(todo[i].id)
    ensures m < |todo| ==> !k.journal(todo[m].id)
  {
    if todo == [] || !k.journal(todo[0].id) then 0 else 1 + Written(k, todo[1..])
  }

  function RowsFor(from: nat, todo: seq<Rebate>, m: nat): seq<JournalRow>
    requires m <= |todo|
  {
    seq(m, i requires 0 <= i < m => NewJournal(from + i, todo[i], PendingFulfillment))
  }

  lemma {:induction false} JournalRuns(
      k: ExportCalls, db: Db, files: seq<set<RebateId>>, n: nat, file: set<RebateId>, todo: seq<Rebate>)
    ensures var m := Written(k, todo);
            var written := db.(journal := db.journal + RowsFor(|db.journal|, todo, m));
            ExportRest(k, db, files, Exporter.Journaled(n, file, todo)) ==
            (if m == |todo| && k.end then written.(rebates := UpdateRebates(db.rebates, ExtractionEnded)) else written, files)
    decreases |todo|
  {
    UnrollExport(k, db, files, Exporter.Journaled(n, file, todo));
    if todo == [] {
      assert db.journal + RowsFor(|db.journal|, todo, 0) == db.journal;
      if k.end { UnrollExport(k, db.(rebates := UpdateRebates(db.rebates, ExtractionEnded)), files, Finished(n)); }
    } else if k.journal(todo[0].id) {
      var m := Written(k, todo);
      var j := NewJournal(|db.journal|, todo[0], PendingFulfillment);
      var next := db.(journal := db.journal + [j]);
      JournalRuns(k, next, files, n, file, todo[1..]);
      assert db.journal + RowsFor(|db.journal|, todo, m) == next.journal + RowsFor(|next.journal|, todo[1..], m - 1);
    } else {
      assert db.journal + RowsFor(|db.journal|, todo, 0) == db.journal;
    }
  }

  // ---- The statements in columns ----

  lemma Claiming(s: seq<Rebate>)
    ensures Moved(s, UpdateRebates(s, ExtractionBegun), Open(s), ExtractionStarted)
    ensures Open(UpdateRebates(s, ExtractionBegun)) == Open(s)
    ensures Open(s) == {} ==> UpdateRebates(s, ExtractionBegun) == s
  {
    var claimed := UpdateRebates(s, ExtractionBegun);
    if Open(s) == {} {
      forall i: nat | i < |s| ensures claimed[i] == s[i] {
        assert i !in Open(s);
      }
      assert claimed == s;
    }
  }

  lemma Selecting(s: seq<Rebate>)
    requires forall i :: 0 <= i < |s| ==> s[i].id == i
    ensures ExtractingIds(UpdateRebates(s, ExtractionBegun)) == Open(s)
  {
    var claimed := UpdateRebates(s, ExtractionBegun);
    Exports.ExtractingIsFile(claimed);
    assert forall id :: id in ExtractingIds(claimed) <==> id in Open(s);
  }

  lemma RollingBack(s: seq<Rebate>)
    ensures Moved(s, UpdateRebates(UpdateRebates(s, ExtractionBegun), ExtractionReset), Open(s), PendingExtraction)
  {
  }

  lemma Ending(s: seq<Rebate>)
    ensures Moved(s, UpdateRebates(UpdateRebates(s, ExtractionBegun), ExtractionEnded), Open(s), PendingFulfillment)
  {
  }

  /** All can be written exactly if no journal call of an open rebate fails. */
  lemma AllWritten(k: ExportCalls, claimed: seq<Rebate>, ids: set<RebateId>)
    requires forall i :: 0 <= i < |claimed| ==> claimed[i].id == i
    requires ExtractingIds(claimed) == ids
    ensures Written(k, Extracting(claimed)) == |Extracting(claimed)| <==> forall x :: x in ids ==> k.journal(x)
  {
    var todo := Extracting(claimed);
    var m := Written(k, todo);
    forall x | x in ids ensures exists i :: 0 <= i < |todo| && todo[i].id == x {
      var r :| r in todo && r.id == x;
    }
    assert forall i :: 0 <= i < |todo| ==> todo[i] in todo && todo[i].id in ids;
  }

  /** A rebate is among the first m of the list exactly if it and all earlier ones can be journaled. */
  lemma WrittenIsWritable(k: ExportCalls, todo: seq<Rebate>, ids: set<RebateId>, a: nat)
    requires a < |todo| && k.list
    requires forall i, j :: 0 <= i < j < |todo| ==> todo[i].id < todo[j].id
    requires forall x :: x in ids <==> exists i :: 0 <= i < |todo| && todo[i].id == x
    ensures a < Written(k, todo) <==> todo[a].id in Writable(k, ids)
  {
    var m := Written(k, todo);
    if a < m {
      forall x | x in ids && x <= todo[a].id ensures k.journal(x) {
        var i :| 0 <= i < |todo| && todo[i].id == x;
        assert i <= a;
      }
    } else {
      assert todo[m].id in ids && !k.journal(todo[m].id);
      assert m == a || todo[m].id < todo[a].id;
    }
  }

  /** The list that is journaled: the open rebates, all of them, in order. */
  ghost predicate ListsOpen(s: seq<Rebate>, todo: seq<Rebate>) {
    (forall i, j :: 0 <= i < j < |todo| ==> todo[i].id < todo[j].id)
    && (forall x :: x in Open(s) <==> exists i :: 0 <= i < |todo| && todo[i].id == x)
    && forall i :: 0 <= i < |todo| ==> todo[i].id < |s| && todo[i] == s[todo[i].id].(status := ExtractionStarted)
  }

  lemma RowOfRebate(n: nat, r: Rebate, claimed: Rebate)
    requires claimed == r.(status := ExtractionStarted)
    ensures Journals.PendingRow(NewJournal(n, claimed, PendingFulfillment), r)
  {
  }

  lemma RowColumns(s: seq<Rebate>, ids: set<RebateId>, from: nat, todo: seq<Rebate>, m: nat, i: nat)
    requires i < m <= |todo| && todo[i].id in ids && todo[i].id < |s|
    requires todo[i] == s[todo[i].id].(status := ExtractionStarted)
    ensures var j := RowsFor(from, todo, m)[i];
            j.id == from + i && j.rebateId == todo[i].id && NewRow(j, s, ids)
  {
    RowOfRebate(from + i, s[todo[i].id], todo[i]);
  }

  lemma RowInPlace(journal: seq<JournalRow>, todo: seq<Rebate>, m: nat, a: nat)
    requires a < m <= |todo|
    ensures var journal' := journal + RowsFor(|journal|, todo, m);
            |journal| + a < |journal'| && journal'[|journal| + a].rebateId == todo[a].id
  {
    var rows := RowsFor(|journal|, todo, m);
    assert (journal + rows)[|journal| + a] == rows[a];
  }

  lemma EachHasItsRow(k: ExportCalls, s: seq<Rebate>, journal: seq<JournalRow>, todo: seq<Rebate>, id: RebateId)
    requires k.list && ListsOpen(s, todo) && id in Writable(k, Open(s))
    ensures var journal' := journal + RowsFor(|journal|, todo, Written(k, todo));
            exists m :: |journal| <= m < |journal'| && journal'[m].rebateId == id
  {
    var a: nat :| a < |todo| && todo[a].id == id;
    WrittenIsWritable(k, todo, Open(s), a);
    RowInPlace(journal, todo, Written(k, todo), a);
  }

  lemma RowsAreJournaled(k: ExportCalls, s: seq<Rebate>, journal: seq<JournalRow>, todo: seq<Rebate>)
    requires k.list && ListsOpen(s, todo)
    ensures Journaled(s, journal, journal + RowsFor(|journal|, todo, Written(k, todo)), Writable(k, Open(s)))
  {
    var rows := RowsFor(|journal|, todo, Written(k, todo));
    var journal' := journal + rows;
    forall m | |journal| <= m < |journal'|
      ensures journal'[m].id == m && journal'[m].rebateId == todo[m - |journal|].id
      ensures NewRow(journal'[m], s, Writable(k, Open(s)))
    {
      var i := m - |journal|;
      assert journal'[m] == rows[i];
      WrittenIsWritable(k, todo, Open(s), i);
      RowColumns(s, Writable(k, Open(s)), |journal|, todo, |rows|, i);
    }
    forall id | id in Writable(k, Open(s)) ensures exists m :: |journal| <= m < |journal'| && journal'[m].rebateId == id {
      EachHasItsRow(k, s, journal, todo, id);
    }
  }

  lemma ListedOpen(s: seq<Rebate>)
    requires forall i :: 0 <= i < |s| ==> s[i].id == i
    ensures ListsOpen(s, Extracting(UpdateRebates(s, ExtractionBegun)))
  {
    var claimed := UpdateRebates(s, ExtractionBegun);
    var todo := Extracting(claimed);
    ExtractingInOrder(claimed);
    forall a | 0 <= a < |todo|
      ensures todo[a].id < |s| && todo[a] == s[todo[a].id].(status := ExtractionStarted) && todo[a].id in Open(s)
    {
      assert todo[a] in todo;
      var i :| 0 <= i < |claimed| && claimed[i] == todo[a];
    }
    forall x | x in Open(s) ensures exists i :: 0 <= i < |todo| && todo[i].id == x {
      assert claimed[x] in todo;
    }
  }

  // ---- Whole exports ----

  /**
    * A file goes out exactly if claim, select and upload succeed and there is something to export, and holds all open
    * rebates; these are delivered exactly if everything after it succeeds as well. A failure before the upload is rolled
    * back, one after it is not.
    */
  ghost predicate ExportLeaves(k: ExportCalls, db: Db, files: seq<set<RebateId>>, end: (Db, seq<set<RebateId>>)) {
    var (db', files') := end;
    var s, s', ids := db.rebates, db'.rebates, Open(db.rebates);
    db'.txns == db.txns && db'.reports == db.reports
    && if !k.claim then
         files' == files && db'.journal == db.journal
         && if k.reset then Moved(s, s', (set i: nat | i < |s| && s[i].status == ExtractionStarted), PendingExtraction)
            else s' == s
       else if k.select && ids == {} then files' == files && db' == db
       else if !k.select || !k.upload then
         files' == files && db'.journal == db.journal
         && Moved(s, s', ids, if k.reset then PendingExtraction else ExtractionStarted)
       else
         files' == files + [ids] && Journaled(s, db.journal, db'.journal, Writable(k, ids))
         && Moved(s, s', ids, if k.list && k.end && (forall x :: x in ids ==> k.journal(x))
                              then PendingFulfillment else ExtractionStarted)
  }

  lemma NotClaimed(k: ExportCalls, db: Db, files: seq<set<RebateId>>)
    requires !k.claim
    ensures ExportLeaves(k, db, files, WholeExport(k, db, files))
  {
    UnrollExport(k, db, files, Resetting);
  }

  lemma NothingToExport(k: ExportCalls, db: Db, files: seq<set<RebateId>>)
    requires Numbered(db) && k.claim && k.select && Open(db.rebates) == {}
    ensures ExportLeaves(k, db, files, WholeExport(k, db, files))
  {
    var n := |db.rebates|;
    Claiming(db.rebates);
    Selecting(db.rebates);
    assert db.(rebates := db.rebates) == db;
    UnrollExport(k, db, files, Claimed(n));
    UnrollExport(k, db, files, Finished(n));
  }

  lemma NotUploadedRuns(k: ExportCalls, db: Db, files: seq<set<RebateId>>)
    requires Numbered(db) && k.claim && !(k.select && Open(db.rebates) == {}) && !(k.select && k.upload)
    ensures var claimed := UpdateRebates(db.rebates, ExtractionBegun);
            WholeExport(k, db, files) ==
            (db.(rebates := if k.reset then UpdateRebates(claimed, ExtractionReset) else claimed), files)
  {
    var n, claimed := |db.rebates|, db.(rebates := UpdateRebates(db.rebates, ExtractionBegun));
    Selecting(db.rebates);
    UnrollExport(k, claimed, files, Claimed(n));
    if k.select { UnrollExport(k, claimed, files, Selected(n, Open(db.rebates))); }
    UnrollExport(k, claimed, files, Resetting);
  }

  lemma NotUploaded(k: ExportCalls, db: Db, files: seq<set<RebateId>>, end: (Db, seq<set<RebateId>>))
    requires k.claim && !(k.select && Open(db.rebates) == {}) && !(k.select && k.upload)
    requires var claimed := UpdateRebates(db.rebates, ExtractionBegun);
             end == (db.(rebates := if k.reset then UpdateRebates(claimed, ExtractionReset) else claimed), files)
    ensures ExportLeaves(k, db, files, end)
  {
    Claiming(db.rebates);
    RollingBack(db.rebates);
  }

  lemma UploadedRuns(k: ExportCalls, db: Db, files: seq<set<RebateId>>)
    requires Numbered(db) && k.claim && k.select && k.upload && Open(db.rebates) != {}
    ensures var n, ids, s := |db.rebates|, Open(db.rebates), UpdateRebates(db.rebates, ExtractionBegun);
            var claimed := db.(rebates := s);
            WholeExport(k, db, files) ==
            if k.list then ExportRest(k, claimed, files + [ids], Exporter.Journaled(n, ids, Extracting(s)))
            else (claimed, files + [ids])
  {
    var n, ids, claimed := |db.rebates|, Open(db.rebates), db.(rebates := UpdateRebates(db.rebates, ExtractionBegun));
    Selecting(db.rebates);
    UnrollExport(k, claimed, files, Claimed(n));
    UnrollExport(k, claimed, files, Selected(n, ids));
    UnrollExport(k, claimed, files + [ids], Delivered(n, ids));
  }

  lemma DeliveredRows(k: ExportCalls, s: seq<Rebate>)
    requires k.list && forall i :: 0 <= i < |s| ==> s[i].id == i
    ensures var claimed := UpdateRebates(s, ExtractionBegun);
            var todo := Extracting(claimed);
            (Written(k, todo) == |todo| <==> forall x :: x in Open(s) ==> k.journal(x))
            && Moved(s, claimed, Open(s), ExtractionStarted)
            && Moved(s, UpdateRebates(claimed, ExtractionEnded), Open(s), PendingFulfillment)
  {
    Claiming(s);
    Ending(s);
    Selecting(s);
    AllWritten(k, UpdateRebates(s, ExtractionBegun), Open(s));
  }

  lemma IsUploaded(k: ExportCalls, db: Db, files: seq<set<RebateId>>, end: (Db, seq<set<RebateId>>))
    requires k.claim && k.select && k.upload && Open(db.rebates) != {}
    requires end.0.txns == db.txns && end.0.reports == db.reports && end.1 == files + [Open(db.rebates)]
    requires Journaled(db.rebates, db.journal, end.0.journal, Writable(k, Open(db.rebates)))
    requires Moved(db.rebates, end.0.rebates, Open(db.rebates),
               if k.list && k.end && (forall x :: x in Open(db.rebates) ==> k.journal(x))
               then PendingFulfillment else ExtractionStarted)
    ensures ExportLeaves(k, db, files, end)
  {
  }

  lemma NotListed(k: ExportCalls, db: Db, files: seq<set<RebateId>>, end: (Db, seq<set<RebateId>>))
    requires k.claim && k.select && k.upload && Open(db.rebates) != {} && !k.list
    requires end == (db.(rebates := UpdateRebates(db.rebates, ExtractionBegun)), files + [Open(db.rebates)])
    ensures ExportLeaves(k, db, files, end)
  {
    Claiming(db.rebates);
  }

  /** One export, whichever of its calls fail. */
  lemma ExportResult(k: ExportCalls, db: Db, files: seq<set<RebateId>>)
    requires Numbered(db)
    ensures ExportLeaves(k, db, files, WholeExport(k, db, files))
  {
    if !k.claim {
      NotClaimed(k, db, files);
    } else if k.select && Open(db.rebates) == {} {
      NothingToExport(k, db, files);
    } else if !k.select || !k.upload {
      NotUploadedRuns(k, db, files);
      NotUploaded(k, db, files, WholeExport(k, db, files));
    } else {
      AfterUpload(k, db, files);
    }
  }

  lemma AfterUpload(k: ExportCalls, db: Db, files: seq<set<RebateId>>)
    requires Numbered(db) && k.claim && k.select && k.upload && Open(db.rebates) != {}
    ensures ExportLeaves(k, db, files, WholeExport(k, db, files))
  {
    var n, ids, claimed := |db.rebates|, Open(db.rebates), UpdateRebates(db.rebates, ExtractionBegun);
    UploadedRuns(k, db, files);
    if k.list {
      JournalRuns(k, db.(rebates := claimed), files + [ids], n, ids, Extracting(claimed));
      IsListed(k, db, files, WholeExport(k, db, files));
    } else {
      NotListed(k, db, files, WholeExport(k, db, files));
    }
  }

  lemma IsListed(k: ExportCalls, db: Db, files: seq<set<RebateId>>, end: (Db, seq<set<RebateId>>))
    requires Numbered(db) && k.claim && k.select && k.upload && Open(db.rebates) != {} && k.list
    requires var claimed := UpdateRebates(db.rebates, ExtractionBegun);
             var todo := Extracting(claimed);
             var m := Written(k, todo);
             end.0.txns == db.txns && end.0.reports == db.reports && end.1 == files + [Open(db.rebates)]
             && end.0.journal == db.journal + RowsFor(|db.journal|, todo, m)
             && end.0.rebates == if m == |todo| && k.end then UpdateRebates(claimed, ExtractionEnded) else claimed
    ensures ExportLeaves(k, db, files, end)
  {
    ListedOpen(db.rebates);
    RowsAreJournaled(k, db.rebates, db.journal, Extracting(UpdateRebates(db.rebates, ExtractionBegun)));
    DeliveredRows(k, db.rebates);
    IsUploaded(k, db, files, end);
  }

  /** The rebate is in the file, has one new journal row and awaits its fulfilment; or none of it, and nothing changes. */
  ghost predicate DeliveredIff(due: bool, db: Db, files: seq<set<RebateId>>, end: (Db, seq<set<RebateId>>), id: RebateId)
    requires id < |db.rebates|
  {
    var (db', files') := end;
    id < |db'.rebates| && db.journal <= db'.journal
    && if due then
         db'.rebates[id] == db.rebates[id].(status := PendingFulfillment, delivered := true)
         && |files'| == |files| + 1 && id in files'[|files|]
         && exists m: nat :: |db.journal| <= m < |db'.journal| && db'.journal[m].rebateId == id
              && forall n :: |db.journal| <= n < |db'.journal| && db'.journal[n].rebateId == id ==> n == m
       else
         db'.rebates[id] == db.rebates[id] && (|files'| > |files| ==> id !in files'[|files|])
         && forall n :: |db.journal| <= n < |db'.journal| ==> db'.journal[n].rebateId != id
  }

  /** When no call fails, that is so for every rebate that was pending extraction or left in extraction, and for no other. */
  lemma ExportDelivers(k: ExportCalls, db: Db, files: seq<set<RebateId>>, id: RebateId)
    requires Numbered(db) && k.claim && k.select && k.upload && k.list && k.end && forall x :: k.journal(x)
    requires id < |db.rebates|
    ensures var was := db.rebates[id].status;
            DeliveredIff(was == PendingExtraction || was == ExtractionStarted, db, files, WholeExport(k, db, files), id)
  {
    ExportResult(k, db, files);
    LeavesDelivered(k, db, files, WholeExport(k, db, files), id);
  }

  lemma LeavesDelivered(
      k: ExportCalls, db: Db, files: seq<set<RebateId>>, end: (Db, seq<set<RebateId>>), id: RebateId)
    requires k.claim && k.select && k.upload && k.list && k.end && forall x :: k.journal(x)
    requires id < |db.rebates| && ExportLeaves(k, db, files, end)
    ensures DeliveredIff(id in Open(db.rebates), db, files, end, id)
  {
    var ids := Open(db.rebates);
    if ids == {} {
      assert end.1 == files && end.0 == db;
    } else {
      assert Writable(k, ids) == ids;
      FileDelivered(db, files, end, ids, id);
    }
  }

  lemma FileDelivered(db: Db, files: seq<set<RebateId>>, end: (Db, seq<set<RebateId>>), ids: set<RebateId>, id: RebateId)
    requires id < |db.rebates| && end.1 == files + [ids]
    requires Journaled(db.rebates, db.journal, end.0.journal, ids)
    requires Moved(db.rebates, end.0.rebates, ids, PendingFulfillment)
    ensures DeliveredIff(id in ids, db, files, end, id)
  {
    if id in ids {
      OneRow(db.rebates, db.journal, end.0.journal, ids, id);
    }
  }

  lemma OneRow(s: seq<Rebate>, journal: seq<JournalRow>, journal': seq<JournalRow>, ids: set<RebateId>, id: RebateId)
    requires Journaled(s, journal, journal', ids) && id in ids
    ensures exists m: nat :: |journal| <= m < |journal'| && journal'[m].rebateId == id
              && forall n :: |journal| <= n < |journal'| && journal'[n].rebateId == id ==> n == m
  {
    var m :| |journal| <= m < |journal'| && journal'[m].rebateId == id;
    forall n | |journal| <= n < |journal'| && journal'[n].rebateId == id ensures n == m {
      assert !(n < m) && !(m < n);
    }
  }
}
