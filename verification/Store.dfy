/** The database: its tables as values, the statements the repositories issue, and the tables as an object. */
module Store {
  import opened Domain

  datatype Db = Db(
    txns: seq<Txn>,
    rebates: seq<Rebate>,
    reports: seq<RefundReport>,
    journal: seq<JournalRow>)

  /** Rows are never deleted and ids come from counters, so a row's id is its place in its table. */
  ghost predicate Numbered(db: Db) {
    (forall i :: 0 <= i < |db.txns| ==> db.txns[i].id == i)
    && (forall i :: 0 <= i < |db.rebates| ==> db.rebates[i].id == i)
    && (forall i :: 0 <= i < |db.journal| ==> db.journal[i].id == i)
  }

  // ---- Queries ----

  predicate Counts(r: Rebate, u: UserId, o: OfferId, card: Option<CardNo>) {
    r.userId == u && r.offerId == o && (card.Some? ==> r.card == card.value)
  }

  /** Number of rebates of a user for an offer, on one card when a card is given. */
  function Redeemed(s: seq<Rebate>, u: UserId, o: OfferId, card: Option<CardNo>): nat {
    if s == [] then 0 else
    var n := |s| - 1;
    Redeemed(s[..n], u, o, card) + if Counts(s[n], u, o, card) then 1 else 0
  }

  function Places(s: seq<Rebate>, u: UserId, o: OfferId, card: Option<CardNo>): set<nat> {
    set i: nat | i < |s| && Counts(s[i], u, o, card)
  }

  lemma {:induction false} RedeemedIsPlaces(s: seq<Rebate>, u: UserId, o: OfferId, card: Option<CardNo>)
    ensures Redeemed(s, u, o, card) == |Places(s, u, o, card)|
  {
    if s == [] {
      assert Places(s, u, o, card) == {};
    } else {
      var n := |s| - 1;
      var before := Places(s[..n], u, o, card);
      RedeemedIsPlaces(s[..n], u, o, card);
      assert n !in before;
      assert Places(s, u, o, card) == if Counts(s[n], u, o, card) then before + {n} else before;
    }
  }

  /** The count is the size of a set of places, whichever card is asked for. */
  lemma RedeemedIsSize(s: seq<Rebate>, u: UserId, o: OfferId, card: Option<CardNo>)
    ensures Redeemed(s, u, o, card) ==
            |set i: nat | i < |s| && s[i].userId == u && s[i].offerId == o && (card.Some? ==> s[i].card == card.value)|
  {
    RedeemedIsPlaces(s, u, o, card);
    assert Places(s, u, o, card) ==
           set i: nat | i < |s| && s[i].userId == u && s[i].offerId == o && (card.Some? ==> s[i].card == card.value);
  }

  predicate HasSource(s: seq<Rebate>, txnId: TxnId) {
    exists r :: r in s && r.sourceTxnId == txnId
  }

  predicate HasFulfilled(s: seq<Rebate>, txnId: TxnId) {
    exists r :: r in s && r.fulfilledTxnId == Some(txnId)
  }

  function FindRebate(s: seq<Rebate>, id: RebateId): (r: Option<Rebate>)
    ensures r.Some? ==> r.value in s && r.value.id == id
  {
    if s == [] then None else
    var n := |s| - 1;
    if s[n].id == id then Some(s[n]) else FindRebate(s[..n], id)
  }

  lemma {:induction false} FoundInPlace(s: seq<Rebate>, id: RebateId)
    requires forall k :: 0 <= k < |s| ==> s[k].id == k
    ensures FindRebate(s, id) == if id < |s| then Some(s[id]) else None
  {
    if s != [] {
      FoundInPlace(s[..|s| - 1], id);
    }
  }

  predicate IsTracked(t: Txn, u: UserId, o: OfferId) {
    t.userId == u && t.offerId == o && t.status == Some(RefundTrackedForReporting)
  }

  predicate IsReportable(t: Txn, u: UserId, o: OfferId) {
    t.userId == u && t.offerId == o && t.kind == Qualifying && !t.reported
    && t.status in [Some(PendingExtraction), Some(PendingFulfillment), Some(FulfilledTransSuccessful), Some(RebateCreated)]
  }

  /** getRefundTransactionsForClientOffer, in table order. */
  function TrackedRefunds(s: seq<Txn>, u: UserId, o: OfferId): (r: seq<Txn>)
    ensures forall t :: t in r <==> t in s && IsTracked(t, u, o)
  {
    if s == [] then [] else
    var n := |s| - 1;
    assert s == s[..n] + [s[n]];
    TrackedRefunds(s[..n], u, o) + if IsTracked(s[n], u, o) then [s[n]] else []
  }

  /** getAssociatedQualifyingTransactions, in table order. */
  function ReportableQualifying(s: seq<Txn>, u: UserId, o: OfferId): (r: seq<Txn>)
    ensures forall t :: t in r <==> t in s && IsReportable(t, u, o)
  {
    if s == [] then [] else
    var n := |s| - 1;
    assert s == s[..n] + [s[n]];
    ReportableQualifying(s[..n], u, o) + if IsReportable(s[n], u, o) then [s[n]] else []
  }

  predicate IsOpenJournal(j: JournalRow, client: UserId, rebate: RebateId) {
    j.clientId == client && j.status == PendingFulfillment && j.rebateId == rebate
  }

  /** One pending journal row of a rebate, as getExistingReport looks it up. */
  function FindJournal(s: seq<JournalRow>, client: UserId, rebate: RebateId): (r: Option<JournalRow>)
    ensures r.Some? ==> r.value in s && IsOpenJournal(r.value, client, rebate)
    ensures r.None? ==> forall j :: j in s ==> !IsOpenJournal(j, client, rebate)
  {
    if s == [] then None else
    var n := |s| - 1;
    assert s == s[..n] + [s[n]];
    if IsOpenJournal(s[n], client, rebate) then Some(s[n]) else FindJournal(s[..n], client, rebate)
  }

  // ---- Statements that change rows in place ----

  datatype TxnUpdate =
    | Processed(id: RowId, status: Status)
    | ReportCreated(id: RowId)

  function UpdateTxn(t: Txn, up: TxnUpdate): Txn {
    if t.id != up.id then t else
    match up
    case Processed(_, status) => t.(processed := true, status := Some(status))
    case ReportCreated(_) => t.(reported := true)
  }

  function UpdateTxns(s: seq<Txn>, up: TxnUpdate): seq<Txn> {
    seq(|s|, i requires 0 <= i < |s| => UpdateTxn(s[i], up))
  }

  datatype RebateUpdate =
    | Settled(id: RebateId, txnId: TxnId, amount: Cents, row: RowId)
    | ExtractionBegun
    | ExtractionReset
    | ExtractionEnded
    | MopSynced(offerId: OfferId)

  function UpdateRebate(r: Rebate, up: RebateUpdate): Rebate {
    match up
    case Settled(id, txnId, amount, row) =>
      if r.id == id
      then r.(status := FulfilledTransSuccessful, fulfilledTxnId := Some(txnId),
              fulfilledAmount := Some(amount), fulfilRow := Some(row))
      else r
    case ExtractionBegun => if r.status == PendingExtraction then r.(status := ExtractionStarted) else r
    case ExtractionReset => if r.status == ExtractionStarted then r.(status := PendingExtraction) else r
    case ExtractionEnded => if r.status == ExtractionStarted then r.(status := PendingFulfillment, delivered := true) else r
    case MopSynced(o) => if r.offerId == o && r.status == FulfilledTransSuccessful then r.(synced := true) else r
  }

  function UpdateRebates(s: seq<Rebate>, up: RebateUpdate): seq<Rebate> {
    seq(|s|, i requires 0 <= i < |s| => UpdateRebate(s[i], up))
  }

  /** The pending rebate that PendingRebateIssuance inserts for a transaction. */
  function NewRebate(id: RebateId, t: Txn, amount: Cents, unit: RewardType): Rebate {
    Rebate(id, t.userId, t.offerId, t.accountId, t.txnId, t.id, amount, unit, t.card, t.cardType,
           PendingExtraction, None, None, None, false, false)
  }

  function NewReport(t: Txn): RefundReport {
    RefundReport(t.id, t.userId, t.offerId, t.accountId, t.amount, t.kind)
  }

  /** RebateJournalReportCreate: the amount split by card and by reward. */
  function NewJournal(id: nat, r: Rebate, status: Status): JournalRow {
    JournalRow(id, r.id, r.userId, status,
               if r.cardType == CreditCard then r.amount else 0,
               if r.cardType == CheckingAccount then r.amount else 0,
               if r.rewardType == Points then r.amount else 0,
               if r.rewardType == Dollars then r.amount else 0)
  }

  /** RebateJournalReportUpdate: the card split follows the fulfilment, the reward split its amount. */
  function FulfilledJournal(j: JournalRow, t: Txn, r: Rebate): JournalRow {
    JournalRow(j.id, r.id, t.userId, r.status,
               if t.cardType == CreditCard then r.amount else 0,
               if t.cardType == CheckingAccount then r.amount else 0,
               if r.rewardType == Points then t.amount else 0,
               if r.rewardType == Dollars then t.amount else 0)
  }

  function UpdateJournal(s: seq<JournalRow>, id: nat, t: Txn, r: Rebate): seq<JournalRow> {
    seq(|s|, i requires 0 <= i < |s| => if s[i].id == id then FulfilledJournal(s[i], t, r) else s[i])
  }

  function Mark(db: Db, id: RowId, status: Status): Db {
    db.(txns := UpdateTxns(db.txns, Processed(id, status)))
  }

  function InsertRebate(db: Db, t: Txn, amount: Cents, unit: RewardType): Db {
    db.(rebates := db.rebates + [NewRebate(|db.rebates|, t, amount, unit)])
  }

  function SettleRebate(db: Db, id: RebateId, t: Txn): Db {
    db.(rebates := UpdateRebates(db.rebates, Settled(id, t.txnId, t.amount, t.id)))
  }

  function InsertReport(db: Db, t: Txn): Db {
    db.(reports := db.reports + [NewReport(t)])
  }

  function FlagReported(db: Db, id: RowId): Db {
    db.(txns := UpdateTxns(db.txns, ReportCreated(id)))
  }

  /** Settles the journal row of a rebate, if it is found. */
  function SettleJournal(db: Db, t: Txn, r: Rebate): Db {
    match FindJournal(db.journal, r.userId, r.id)
    case None => db
    case Some(j) => db.(journal := UpdateJournal(db.journal, j.id, t, r))
  }

  /** The tables as one object; each method is one statement. */
  class Database {
    var txns: seq<Txn>
    var rebates: seq<Rebate>
    var reports: seq<RefundReport>
    var journal: seq<JournalRow>

    function State(): Db
      reads this
    {
      Db(txns, rebates, reports, journal)
    }

    constructor (db: Db)
      ensures State() == db
    {
      txns, rebates, reports, journal := db.txns, db.rebates, db.reports, db.journal;
    }

    /** What other processes have written meanwhile. */
    method Adopt(db: Db)
      modifies this
      ensures State() == db
    {
      txns, rebates, reports, journal := db.txns, db.rebates, db.reports, db.journal;
    }

    method UpdateTransaction(up: TxnUpdate)
      modifies this`txns
      ensures txns == UpdateTxns(old(txns), up)
    {
      txns := UpdateTxns(txns, up);
    }

    method UpdateRebateRows(up: RebateUpdate)
      modifies this`rebates
      ensures rebates == UpdateRebates(old(rebates), up)
    {
      rebates := UpdateRebates(rebates, up);
    }

    method InsertRebateRow(t: Txn, amount: Cents, unit: RewardType)
      modifies this`rebates
      ensures State() == InsertRebate(old(State()), t, amount, unit)
    {
      rebates := rebates + [NewRebate(|rebates|, t, amount, unit)];
    }

    method InsertRefundReport(r: RefundReport)
      modifies this`reports
      ensures reports == old(reports) + [r]
    {
      reports := reports + [r];
    }

    method InsertJournal(r: Rebate, status: Status)
      modifies this`journal
      ensures journal == old(journal) + [NewJournal(|old(journal)|, r, status)]
    {
      journal := journal + [NewJournal(|journal|, r, status)];
    }

    method UpdateJournalRow(id: nat, t: Txn, r: Rebate)
      modifies this`journal
      ensures journal == UpdateJournal(old(journal), id, t, r)
    {
      journal := UpdateJournal(journal, id, t, r);
    }
  }
}
