/** The user ledger: a change-only log kept by a trigger on the users table and read "as of a day". */
module Ledger {
  import opened Domain

  /** The two offer lists that the trigger snapshots, compared as ordered lists. */
  datatype UserInfo = UserInfo(linked: seq<OfferId>, targeted: seq<OfferId>)

  /** One ledger row; also one upsert of a users row at a given instant. */
  datatype Entry = Entry(userId: UserId, at: Instant, info: UserInfo)

  predicate Visible(e: Entry, u: UserId, cutoff: Option<Instant>) {
    e.userId == u && (cutoff.Some? ==> e.at <= cutoff.value)
  }

  /** The visible row with the greatest timestamp, wherever it stands in the table. */
  function Latest(rows: seq<Entry>, u: UserId, cutoff: Option<Instant>): (r: Option<Entry>)
    ensures r.None? <==> forall e :: e in rows ==> !Visible(e, u, cutoff)
    ensures r.Some? ==> r.value in rows && Visible(r.value, u, cutoff)
    ensures r.Some? ==> forall e :: e in rows && Visible(e, u, cutoff) ==> e.at <= r.value.at
  {
    if rows == [] then None else
    var n := |rows| - 1;
    var best := Latest(rows[..n], u, cutoff);
    assert rows == rows[..n] + [rows[n]];
    if Visible(rows[n], u, cutoff) && (best.None? || best.value.at <= rows[n].at) then Some(rows[n]) else best
  }

  /** Place of the user's newest row by the cutoff; among rows of one instant, of the last in the table. */
  ghost predicate NewestAt(rows: seq<Entry>, u: UserId, cutoff: Instant, i: nat) {
    i < |rows| && rows[i].userId == u && rows[i].at <= cutoff
    && forall j :: 0 <= j < |rows| && rows[j].userId == u && rows[j].at <= cutoff ==>
         rows[j].at < rows[i].at || (rows[j].at == rows[i].at && j <= i)
  }

  lemma {:induction false} LatestIsNewest(rows: seq<Entry>, u: UserId, cutoff: Instant)
    ensures match Latest(rows, u, Some(cutoff))
            case None => forall i: nat :: !NewestAt(rows, u, cutoff, i)
            case Some(e) => exists i: nat :: NewestAt(rows, u, cutoff, i) && rows[i] == e
  {
    if rows != [] {
      var n := |rows| - 1;
      var best := Latest(rows[..n], u, Some(cutoff));
      LatestIsNewest(rows[..n], u, cutoff);
      if best.Some? {
        var i: nat :| NewestAt(rows[..n], u, cutoff, i) && rows[..n][i] == best.value;
        NewestOfMore(rows, u, cutoff, i);
      } else if Visible(rows[n], u, Some(cutoff)) {
        assert forall j :: 0 <= j < n ==> rows[j] in rows[..n];
        assert NewestAt(rows, u, cutoff, n);
      }
      assert forall i :: 0 <= i < |rows| ==> rows[i] in rows;
    }
  }

  lemma NewestOfMore(rows: seq<Entry>, u: UserId, cutoff: Instant, i: nat)
    requires rows != [] && NewestAt(rows[..|rows| - 1], u, cutoff, i)
    ensures var n := |rows| - 1;
            NewestAt(rows, u, cutoff, if Visible(rows[n], u, Some(cutoff)) && rows[i].at <= rows[n].at then n else i)
  {
    var n := |rows| - 1;
    assert forall j :: 0 <= j < n ==> rows[..n][j] == rows[j];
  }

  /** The lookup of a day gives the lists of the newest row up to its second 23:59:59, and nothing without such a row. */
  lemma StateAtIsNewest(rows: seq<Entry>, u: UserId, d: Instant, info: UserInfo)
    ensures StateAt(rows, u, d) == Some(info) <==>
            exists i: nat :: NewestAt(rows, u, d - d % 86_400_000_000 + 86_399_000_000, i) && rows[i].info == info
  {
    var cutoff := d - d % 86_400_000_000 + 86_399_000_000;
    assert EndOfDay(d) == cutoff;
    LatestIsNewest(rows, u, cutoff);
  }

  /** What the trigger leaves in the ledger after one upsert. */
  function Record(rows: seq<Entry>, e: Entry): seq<Entry> {
    var last := Latest(rows, e.userId, None);
    if last.None? || last.value.info != e.info then rows + [e] else rows
  }

  /** The ledger after a whole history of upserts. */
  function Compress(history: seq<Entry>): seq<Entry> {
    if history == [] then [] else Record(Compress(history[..|history| - 1]), history[|history| - 1])
  }

  function InfoOf(e: Option<Entry>): Option<UserInfo> {
    if e.None? then None else Some(e.value.info)
  }

  /** Last second of the day of an instant: later fractions of that second are not included. */
  function EndOfDay(d: Instant): Instant {
    d / DAY * DAY + DAY - SECOND
  }

  function StateAt(rows: seq<Entry>, u: UserId, d: Instant): Option<UserInfo> {
    InfoOf(Latest(rows, u, Some(EndOfDay(d))))
  }

  /** Reference reading of the uncompressed history: the last upsert of the user by the cutoff. */
  function LastUpsert(history: seq<Entry>, u: UserId, cutoff: Option<Instant>): Option<UserInfo> {
    if history == [] then None else
    var n := |history| - 1;
    if Visible(history[n], u, cutoff) then Some(history[n].info) else LastUpsert(history[..n], u, cutoff)
  }

  /** Each user's upserts carry strictly increasing timestamps. */
  ghost predicate TimesIncrease(history: seq<Entry>) {
    forall i, j :: 0 <= i < j < |history| && history[i].userId == history[j].userId ==> history[i].at < history[j].at
  }

  lemma {:induction false} CompressedRowsComeFromHistory(history: seq<Entry>)
    ensures forall e :: e in Compress(history) ==> e in history
  {
    if history != [] {
      CompressedRowsComeFromHistory(history[..|history| - 1]);
    }
  }

  lemma AppendUnseen(rows: seq<Entry>, e: Entry, u: UserId, cutoff: Option<Instant>)
    requires !Visible(e, u, cutoff)
    ensures Latest(rows + [e], u, cutoff) == Latest(rows, u, cutoff)
  {
    assert (rows + [e])[..|rows|] == rows;
  }

  lemma AppendNewest(rows: seq<Entry>, e: Entry, u: UserId, cutoff: Option<Instant>)
    requires Visible(e, u, cutoff)
    requires forall x :: x in rows && x.userId == u ==> x.at < e.at
    ensures Latest(rows + [e], u, cutoff) == Some(e)
  {
    assert (rows + [e])[..|rows|] == rows;
  }

  lemma {:induction false} SameWindow(rows: seq<Entry>, u: UserId, cutoff: Option<Instant>)
    requires forall x :: x in rows && x.userId == u ==> Visible(x, u, cutoff)
    ensures Latest(rows, u, cutoff) == Latest(rows, u, None)
  {
    if rows != [] {
      SameWindow(rows[..|rows| - 1], u, cutoff);
    }
  }

  lemma RecordUnseen(rows: seq<Entry>, e: Entry, u: UserId, cutoff: Option<Instant>)
    requires !Visible(e, u, cutoff)
    ensures Latest(Record(rows, e), u, cutoff) == Latest(rows, u, cutoff)
  {
    AppendUnseen(rows, e, u, cutoff);
  }

  lemma RecordNewest(rows: seq<Entry>, e: Entry, u: UserId, cutoff: Option<Instant>)
    requires Visible(e, u, cutoff)
    requires forall x :: x in rows && x.userId == u ==> x.at < e.at
    ensures InfoOf(Latest(Record(rows, e), u, cutoff)) == Some(e.info)
  {
    AppendNewest(rows, e, u, cutoff);
    SameWindow(rows, u, cutoff);
  }

  /** Reading the compressed log gives what reading the full history gives, at every cutoff. */
  lemma {:induction false} CompressedAgreesWithHistory(history: seq<Entry>, u: UserId, cutoff: Option<Instant>)
    requires TimesIncrease(history)
    ensures InfoOf(Latest(Compress(history), u, cutoff)) == LastUpsert(history, u, cutoff)
  {
    if history != [] {
      var n := |history| - 1;
      var e, earlier := history[n], history[..n];
      var rows := Compress(earlier);
      CompressedAgreesWithHistory(earlier, u, cutoff);
      if !Visible(e, u, cutoff) {
        RecordUnseen(rows, e, u, cutoff);
      } else {
        CompressedRowsComeFromHistory(earlier);
        forall x | x in rows && x.userId == u ensures x.at < e.at {
          var i :| 0 <= i < n && earlier[i] == x;
          assert history[i].at < history[n].at;
        }
        RecordNewest(rows, e, u, cutoff);
      }
    }
  }

  /** Two rows of one user with none of that user in between. */
  ghost predicate Neighbours(rows: seq<Entry>, i: nat, j: nat) {
    i < j < |rows| && rows[i].userId == rows[j].userId && forall k :: i < k < j ==> rows[k].userId != rows[i].userId
  }

  lemma {:induction false} LatestIsLastOfUser(rows: seq<Entry>, u: UserId, i: nat)
    requires i < |rows| && rows[i].userId == u && forall k :: i < k < |rows| ==> rows[k].userId != u
    requires TimesIncrease(rows)
    ensures Latest(rows, u, None) == Some(rows[i])
  {
    var n := |rows| - 1;
    if i < n {
      LatestIsLastOfUser(rows[..n], u, i);
    } else {
      assert forall k :: 0 <= k < n ==> rows[..n][k] == rows[k];
    }
  }

  lemma {:induction false} CompressedTimesIncrease(history: seq<Entry>)
    requires TimesIncrease(history)
    ensures TimesIncrease(Compress(history))
  {
    if history != [] {
      var n := |history| - 1;
      CompressedTimesIncrease(history[..n]);
      CompressedRowsComeFromHistory(history[..n]);
      var rows := Compress(history[..n]);
      forall i | 0 <= i < |rows| && rows[i].userId == history[n].userId ensures rows[i].at < history[n].at {
        assert rows[i] in history[..n];
        var k :| 0 <= k < n && history[k] == rows[i];
      }
    }
  }

  lemma NeighboursOf(rows: seq<Entry>, e: Entry, i: nat, j: nat)
    requires Neighbours(rows + [e], i, j)
    ensures j < |rows| ==> Neighbours(rows, i, j)
    ensures j == |rows| ==> rows[i].userId == e.userId && forall k :: i < k < j ==> rows[k].userId != e.userId
  {
    assert forall k :: 0 <= k < |rows| ==> (rows + [e])[k] == rows[k];
  }

  /** The log holds changes only: two consecutive rows of a user never carry the same lists. */
  lemma {:induction false} OnlyChangesAreKept(history: seq<Entry>, i: nat, j: nat)
    requires TimesIncrease(history) && Neighbours(Compress(history), i, j)
    ensures Compress(history)[i].info != Compress(history)[j].info
  {
    if history != [] {
      var n := |history| - 1;
      var rows := Compress(history[..n]);
      if Compress(history) == rows {
        OnlyChangesAreKept(history[..n], i, j);
      } else {
        NeighboursOf(rows, history[n], i, j);
        if j < |rows| {
          OnlyChangesAreKept(history[..n], i, j);
        } else {
          CompressedTimesIncrease(history[..n]);
          LatestIsLastOfUser(rows, history[n].userId, i);
        }
      }
    }
  }

  /** getStateAtDate over the ledger equals the full history read at 23:59:59 of the lookup day. */
  lemma StateAtAgreesWithHistory(history: seq<Entry>, u: UserId, d: Instant)
    requires TimesIncrease(history)
    ensures StateAt(Compress(history), u, d) == LastUpsert(history, u, Some(EndOfDay(d)))
    ensures StateAt(Compress(history), u, d).None?
            <==> forall e :: e in history ==> e.userId == u ==> e.at > EndOfDay(d)
    ensures EndOfDay(d) / DAY == d / DAY && EndOfDay(d) % DAY == DAY - SECOND
  {
    CompressedAgreesWithHistory(history, u, Some(EndOfDay(d)));
    NoneIffNoUpsert(history, u, Some(EndOfDay(d)));
  }

  lemma {:induction false} NoneIffNoUpsert(history: seq<Entry>, u: UserId, cutoff: Option<Instant>)
    ensures LastUpsert(history, u, cutoff).None? <==> forall e :: e in history ==> !Visible(e, u, cutoff)
  {
    if history != [] {
      var n := |history| - 1;
      assert history == history[..n] + [history[n]];
      NoneIffNoUpsert(history[..n], u, cutoff);
    }
  }

  // ---- The last second of the day ----

  function LastInstant(d: Instant): Instant {
    d / DAY * DAY + DAY - 1
  }

  /** After the instant the lookup stops at, and still on the day. */
  predicate InLastSecond(e: Entry, u: UserId, d: Instant) {
    e.userId == u && EndOfDay(d) < e.at <= LastInstant(d)
  }

  /** The user's last upsert of that day. */
  ghost predicate LastOfDay(history: seq<Entry>, e: Entry, d: Instant) {
    e in history && e.at <= LastInstant(d)
    && forall x :: x in history && x.userId == e.userId && x.at <= LastInstant(d) ==> x.at <= e.at
  }

  lemma {:induction false} LatestIsLast(history: seq<Entry>, u: UserId, cutoff: Option<Instant>)
    requires TimesIncrease(history)
    ensures LastUpsert(history, u, cutoff) == InfoOf(Latest(history, u, cutoff))
  {
    if history != [] {
      var n := |history| - 1;
      LatestIsLast(history[..n], u, cutoff);
    }
  }

  lemma {:induction false} SameVisible(history: seq<Entry>, u: UserId, a: Option<Instant>, b: Option<Instant>)
    requires forall e :: e in history ==> Visible(e, u, a) == Visible(e, u, b)
    ensures LastUpsert(history, u, a) == LastUpsert(history, u, b)
  {
    if history != [] {
      var n := |history| - 1;
      assert history[n] in history;
      SameVisible(history[..n], u, a, b);
    }
  }

  lemma LastOfDayIsRead(history: seq<Entry>, e: Entry, d: Instant)
    requires TimesIncrease(history) && LastOfDay(history, e, d)
    ensures LastUpsert(history, e.userId, Some(LastInstant(d))) == Some(e.info)
  {
    LatestIsLast(history, e.userId, Some(LastInstant(d)));
    var best := Latest(history, e.userId, Some(LastInstant(d))).value;
    assert best.at == e.at;
    var i :| 0 <= i < |history| && history[i] == best;
    var j :| 0 <= j < |history| && history[j] == e;
  }

  /**
    * The lookup sees the state at the true end of the day exactly if the day's last upsert, where it falls within the
    * last second, repeats what was held before that second.
    */
  lemma MissesTheLastSecondIff(history: seq<Entry>, u: UserId, d: Instant)
    requires TimesIncrease(history)
    ensures StateAt(Compress(history), u, d) == LastUpsert(history, u, Some(LastInstant(d)))
            <==> forall e :: LastOfDay(history, e, d) && InLastSecond(e, u, d) ==>
                   LastUpsert(history, u, Some(EndOfDay(d))) == Some(e.info)
  {
    StateAtAgreesWithHistory(history, u, d);
    if e :| LastOfDay(history, e, d) && InLastSecond(e, u, d) {
      forall x | LastOfDay(history, x, d) && InLastSecond(x, u, d) {
        LastOfDayIsRead(history, x, d);
      }
      LastOfDayIsRead(history, e, d);
    } else {
      NobodyInLastSecond(history, u, d);
    }
  }

  lemma NobodyInLastSecond(history: seq<Entry>, u: UserId, d: Instant)
    requires !exists e :: LastOfDay(history, e, d) && InLastSecond(e, u, d)
    ensures LastUpsert(history, u, Some(EndOfDay(d))) == LastUpsert(history, u, Some(LastInstant(d)))
  {
    var best := Latest(history, u, Some(LastInstant(d)));
    if best.Some? {
      assert LastOfDay(history, best.value, d);
    }
    SameVisible(history, u, Some(EndOfDay(d)), Some(LastInstant(d)));
  }

  /** Half a second before midnight is missed. */
  lemma HalfASecondBeforeMidnight(u: UserId, d: Instant, info: UserInfo)
    ensures var history := [Entry(u, EndOfDay(d) + 500_000, info)];
            TimesIncrease(history) && StateAt(Compress(history), u, d) == None
            && LastUpsert(history, u, Some(LastInstant(d))) == Some(info)
  {
    var e := Entry(u, EndOfDay(d) + 500_000, info);
    StateAtAgreesWithHistory([e], u, d);
  }

  /** The ledger table with its trigger and its lookup. */
  class UserLedger {
    var rows: seq<Entry>
    ghost var history: seq<Entry>

    ghost predicate Valid()
      reads this
    {
      TimesIncrease(history) && rows == Compress(history)
    }

    constructor ()
      ensures Valid() && history == []
    {
      rows, history := [], [];
    }

    /** user_ledger_trigger_fn, fired after every insert or update of a users row. */
    method Trigger(userId: UserId, now: Instant, info: UserInfo)
      requires Valid()
      requires forall e :: e in history && e.userId == userId ==> e.at < now
      modifies this
      ensures Valid()
      ensures history == old(history) + [Entry(userId, now, info)]
      ensures rows == if LastUpsert(old(history), userId, None) == Some(info) then old(rows)
                      else old(rows) + [Entry(userId, now, info)]
    {
      CompressedAgreesWithHistory(history, userId, None);
      var previous := Newest(userId, None);
      history := history + [Entry(userId, now, info)];
      assert history[..|history| - 1] == old(history);
      if previous.None? || previous.value.info != info {
        rows := rows + [Entry(userId, now, info)];
      }
    }

    /** SELECT ... ORDER BY update_timestamp DESC LIMIT 1, as a scan that keeps the best row so far. */
    method Newest(u: UserId, cutoff: Option<Instant>) returns (best: Option<Entry>)
      ensures best == Latest(rows, u, cutoff)
    {
      best := None;
      for i := 0 to |rows|
        invariant best == Latest(rows[..i], u, cutoff)
      {
        assert rows[..i + 1][..i] == rows[..i];
        if Visible(rows[i], u, cutoff) && (best.None? || best.value.at <= rows[i].at) {
          best := Some(rows[i]);
        }
      }
      assert rows[..|rows|] == rows;
    }

    /** The offers a user held on the day of `d`, or nothing if the user did not exist by then. */
    method GetStateAtDate(u: UserId, d: Instant) returns (state: Option<UserInfo>)
      requires Valid()
      ensures state == LastUpsert(history, u, Some(EndOfDay(d)))
    {
      var row := Newest(u, Some(EndOfDay(d)));
      StateAtAgreesWithHistory(history, u, d);
      state := InfoOf(row);
    }
  }
}
