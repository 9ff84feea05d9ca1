/** Assigning pending rows to workers by a hash of the user, and the lists the workers read back. */
module Assignment {
  import opened Domain
  import opened Store

  /** Remainder with the sign of the dividend, as the database computes it. */
  function Remainder(a: int, n: nat): int
    requires n > 0
  {
    if a >= 0 then a % n else -(-a % n)
  }

  /** processor_id for a hash value, with n workers. */
  function Processor(h: int, n: nat): int
    requires n > 0
  {
    var r := Remainder(h, n);
    if r < 0 then -r + 1 else r + 1
  }

  /** assignWorkerProcesses: every unprocessed row gets the processor of its user. */
  function AssignWorkers(db: Db, hash: UserId -> int, n: nat): Db
    requires n > 0
  {
    db.(txns := seq(|db.txns|, i requires 0 <= i < |db.txns| =>
      if db.txns[i].processed then db.txns[i]
      else db.txns[i].(processor := Some(Processor(hash(db.txns[i].userId), n)))))
  }

  predicate Pending(t: Txn, processor: int) {
    !t.processed && t.processor == Some(processor)
  }

  ghost predicate ByDate(rows: seq<Txn>) {
    forall i, j :: 0 <= i < j < |rows| ==> rows[i].date <= rows[j].date
  }

  ghost predicate DistinctIds(rows: seq<Txn>) {
    forall i, j :: 0 <= i < j < |rows| ==> rows[i].id != rows[j].id
  }

  /** A list getTransactionsAssignedToProcess may return: rows of equal date come in any order. */
  ghost predicate IsPendingList(db: Db, processor: int, rows: seq<Txn>) {
    ByDate(rows) && DistinctIds(rows) && forall t :: t in rows <==> t in db.txns && Pending(t, processor)
  }

  function NumPending(s: seq<Txn>): nat {
    if s == [] then 0 else NumPending(s[..|s| - 1]) + if s[|s| - 1].processed then 0 else 1
  }

  lemma RemainderBelow(a: nat, n: nat)
    requires n > 0
    ensures 0 <= a % n < n
  {
  }

  lemma SmallRemainder(h: nat, n: nat)
    requires h < n
    ensures h % n == h
  {
  }

  lemma ProcessorOfSize(h: int, n: nat)
    requires n > 0
    ensures Processor(h, n) == (if h >= 0 then h else -h) % n + 1
  {
    RemainderBelow(if h >= 0 then h else -h, n);
  }

  /** Any hash gives a processor in 1..n, and the numbers a worker process carries are exactly those. */
  lemma ProcessorInRange(h: int, n: nat)
    requires n > 0
    ensures 1 <= Processor(h, n) <= n
    ensures Processor(h, n) == Processor(-h, n)
    ensures 0 <= h < n ==> Processor(h, n) == h + 1
  {
    ProcessorOfSize(h, n);
    ProcessorOfSize(-h, n);
    RemainderBelow(if h >= 0 then h else -h, n);
    if 0 <= h < n { SmallRemainder(h, n); }
  }

  /** Exactly the unprocessed rows get a processor, that of their user; no other column of any row changes. */
  lemma AssignsPendingRows(db: Db, hash: UserId -> int, n: nat, i: nat)
    requires n > 0 && i < |db.txns|
    ensures var db', t := AssignWorkers(db, hash, n), db.txns[i];
            db' == db.(txns := db'.txns) && |db'.txns| == |db.txns|
            && var h := hash(t.userId);
               db'.txns[i] == if t.processed then t else t.(processor := Some((if h >= 0 then h else -h) % n + 1))
  {
    ProcessorOfSize(hash(db.txns[i].userId), n);
  }

  /** What a list holds, in columns: oldest first, each row once, and exactly the unprocessed rows of the processor. */
  lemma PendingListMeans(db: Db, processor: int, rows: seq<Txn>)
    requires Numbered(db)
    ensures IsPendingList(db, processor, rows) <==>
            (forall i :: 0 <= i < |rows| - 1 ==> rows[i].date <= rows[i + 1].date)
            && (forall i, j :: 0 <= i < j < |rows| ==> rows[i] != rows[j])
            && (forall t :: t in rows ==> t.id < |db.txns| && db.txns[t.id] == t)
            && (forall i :: 0 <= i < |db.txns| ==>
                  (db.txns[i] in rows <==> !db.txns[i].processed && db.txns[i].processor == Some(processor)))
  {
    if forall i :: 0 <= i < |rows| - 1 ==> rows[i].date <= rows[i + 1].date {
      forall i: nat, j: nat | i < j < |rows| ensures rows[i].date <= rows[j].date {
        StepByStep(rows, i, j);
      }
    }
    if forall t :: t in rows ==> t.id < |db.txns| && db.txns[t.id] == t {
      assert forall i :: 0 <= i < |rows| ==> rows[i] in rows;
    }
  }

  lemma {:induction false} StepByStep(rows: seq<Txn>, i: nat, j: nat)
    requires i < j < |rows| && forall k :: 0 <= k < |rows| - 1 ==> rows[k].date <= rows[k + 1].date
    ensures rows[i].date <= rows[j].date
    decreases j
  {
    if i + 1 < j { StepByStep(rows, i, j - 1); }
    assert rows[j - 1].date <= rows[j - 1 + 1].date;
  }

  function UnprocessedIn(s: seq<Txn>): set<nat> {
    set i: nat | i < |s| && !s[i].processed
  }

  /** The count that the master waits on is the number of unprocessed rows. */
  lemma {:induction false} PendingAreCounted(s: seq<Txn>)
    ensures NumPending(s) == |UnprocessedIn(s)|
  {
    if s == [] {
      assert UnprocessedIn(s) == {};
    } else {
      var n := |s| - 1;
      var before := UnprocessedIn(s[..n]);
      PendingAreCounted(s[..n]);
      assert n !in before;
      assert UnprocessedIn(s) == if s[n].processed then before else before + {n};
    }
  }

  /** Insertion by date after rows of the same date. */
  function Insert(t: Txn, rows: seq<Txn>): seq<Txn> {
    if rows == [] || rows[|rows| - 1].date <= t.date then rows + [t]
    else Insert(t, rows[..|rows| - 1]) + [rows[|rows| - 1]]
  }

  /** One list the query may return: oldest first, table order within a date. */
  function PendingList(s: seq<Txn>, processor: int): seq<Txn> {
    if s == [] then [] else
    var n := |s| - 1;
    var rows := PendingList(s[..n], processor);
    if Pending(s[n], processor) then Insert(s[n], rows) else rows
  }

  lemma {:induction false} InsertKeepsOrder(t: Txn, rows: seq<Txn>)
    requires ByDate(rows) && DistinctIds(rows) && forall x :: x in rows ==> x.id != t.id
    ensures ByDate(Insert(t, rows)) && DistinctIds(Insert(t, rows))
    ensures forall x :: x in Insert(t, rows) <==> x == t || x in rows
  {
    if !(rows == [] || rows[|rows| - 1].date <= t.date) {
      var n := |rows| - 1;
      assert rows == rows[..n] + [rows[n]];
      InsertKeepsOrder(t, rows[..n]);
      var r := Insert(t, rows[..n]);
      forall i | 0 <= i < |r| ensures r[i].date <= rows[n].date && r[i].id != rows[n].id {
        assert r[i] == t || r[i] in rows[..n];
      }
    }
  }

  lemma {:induction false} PendingListIsOne(db: Db, s: seq<Txn>, processor: int)
    requires Numbered(db) && s <= db.txns
    ensures ByDate(PendingList(s, processor)) && DistinctIds(PendingList(s, processor))
    ensures forall t :: t in PendingList(s, processor) <==> t in s && Pending(t, processor)
  {
    if s != [] {
      var n := |s| - 1;
      assert s == s[..n] + [s[n]];
      PendingListIsOne(db, s[..n], processor);
      var rows := PendingList(s[..n], processor);
      if Pending(s[n], processor) {
        forall x | x in rows ensures x.id != s[n].id {
          var k :| 0 <= k < n && s[k] == x;
          assert db.txns[k] == x && db.txns[n] == s[n];
        }
        InsertKeepsOrder(s[n], rows);
      }
    }
  }

  /**
    * After an assignment the workers' lists partition the pending rows: each is on exactly one list, rows of one
    * user share a list, and a list that satisfies the query exists for every worker.
    */
  lemma AssignmentPartitions(db: Db, hash: UserId -> int, n: nat, t: Txn)
    requires n > 0 && Numbered(db)
    requires t in AssignWorkers(db, hash, n).txns && !t.processed
    ensures var db' := AssignWorkers(db, hash, n);
            var home := Processor(hash(t.userId), n);
            1 <= home <= n
            && (forall p :: Pending(t, p) <==> p == home)
            && (forall p, rows :: IsPendingList(db', p, rows) ==> (t in rows <==> p == home))
            && (forall x: Txn, p, rows :: IsPendingList(db', p, rows) && x in rows && x.userId == t.userId ==> p == home)
            && (forall p :: IsPendingList(db', p, PendingList(db'.txns, p)))
  {
    var db' := AssignWorkers(db, hash, n);
    ProcessorInRange(hash(t.userId), n);
    forall x | x in db'.txns && !x.processed ensures x.processor == Some(Processor(hash(x.userId), n)) {
      var i :| 0 <= i < |db'.txns| && db'.txns[i] == x;
    }
    forall p ensures IsPendingList(db', p, PendingList(db'.txns, p)) {
      PendingListIsOne(db', db'.txns, p);
    }
  }
}
