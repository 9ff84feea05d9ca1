/** What one user's rows can see of the database, and why processing a row is confined to it. */
module Views {
  import opened Domain
  import opened Store
  import opened Eligibility
  import opened RowSteps

  /** One user's part of the tables; ids of rebates issued after the cutoff are erased. */
  datatype UserView = UserView(
    txns: seq<Txn>, rebates: seq<Rebate>, reports: seq<RefundReport>, journal: seq<JournalRow>)

  function Erase(c: RebateId, r: Rebate): Rebate {
    if r.id < c then r else r.(id := c)
  }

  /** Erasing forgets nothing but the id, and only that of a rebate issued after the cutoff. */
  lemma ErasedAlike(c: RebateId, r: Rebate, r': Rebate)
    ensures Erase(c, r) == Erase(c, r') <==> r' == r.(id := r'.id) && (r.id < c || r'.id < c ==> r'.id == r.id)
  {
  }

  function TxnsOf(u: UserId, s: seq<Txn>): seq<Txn> {
    if s == [] then [] else
    var n := |s| - 1;
    TxnsOf(u, s[..n]) + if s[n].userId == u then [s[n]] else []
  }

  function RebatesOf(u: UserId, c: RebateId, s: seq<Rebate>): seq<Rebate> {
    if s == [] then [] else
    var n := |s| - 1;
    RebatesOf(u, c, s[..n]) + if s[n].userId == u then [Erase(c, s[n])] else []
  }

  function ReportsOf(u: UserId, s: seq<RefundReport>): seq<RefundReport> {
    if s == [] then [] else
    var n := |s| - 1;
    ReportsOf(u, s[..n]) + if s[n].userId == u then [s[n]] else []
  }

  function JournalOf(u: UserId, s: seq<JournalRow>): seq<JournalRow> {
    if s == [] then [] else
    var n := |s| - 1;
    JournalOf(u, s[..n]) + if s[n].clientId == u then [s[n]] else []
  }

  function View(u: UserId, c: RebateId, db: Db): UserView {
    UserView(TxnsOf(u, db.txns), RebatesOf(u, c, db.rebates), ReportsOf(u, db.reports), JournalOf(u, db.journal))
  }

  // ---- No transaction id and no rebate id is shared between users ----

  /** The user of each transaction id in the batch, and the user and account of each rebate from before it. */
  datatype Ownership = Ownership(
    txn: TxnId -> Option<UserId>, rebate: RebateId -> UserId, account: RebateId -> AccountId)

  /**
    * A row of the batch belongs to the owner of its transaction id. A rebate that a fulfilment names existed before,
    * and is that owner's or of another account.
    */
  predicate OwnedTxn(own: Ownership, c: RebateId, t: Txn) {
    own.txn(t.txnId) == Some(t.userId)
    && (t.kind == Fulfillment && t.rebateId.Some? ==>
          t.rebateId.value < c
          && (own.rebate(t.rebateId.value) == t.userId || own.account(t.rebateId.value) != t.accountId))
  }

  /** Only the transaction ids of the batch matter. */
  predicate OwnedRebate(own: Ownership, c: RebateId, r: Rebate) {
    (own.txn(r.sourceTxnId).Some? ==> own.txn(r.sourceTxnId).value == r.userId)
    && (r.fulfilledTxnId.Some? && own.txn(r.fulfilledTxnId.value).Some? ==>
          own.txn(r.fulfilledTxnId.value).value == r.userId)
    && (r.id < c ==> own.rebate(r.id) == r.userId && own.account(r.id) == r.accountId)
  }

  ghost predicate Owned(own: Ownership, c: RebateId, db: Db) {
    Numbered(db) && c <= |db.rebates| && forall r :: r in db.rebates ==> OwnedRebate(own, c, r)
  }

  predicate RowOf(db: Db, t: Txn, u: UserId) {
    t.userId == u && t.id < |db.txns| && db.txns[t.id].userId == u
  }

  predicate NamesOwn(own: Ownership, t: Txn, r: Rebate) {
    t.kind == Fulfillment && t.rebateId == Some(r.id) && r.userId == t.userId && own.rebate(r.id) == t.userId
  }

  /** What is remembered between two steps of a row concerns the row's own user. */
  ghost predicate Remembers(own: Ownership, db: Db, t: Txn, p: Phase) {
    match p
    case Marking(_, Settle(r)) => NamesOwn(own, t, r)
    case Acting(Settle(r)) => NamesOwn(own, t, r)
    case Journaling(r) => NamesOwn(own, t, r)
    case PaymentUnusedSeen => t.kind == Fulfillment
    case Listed(ts) => forall x :: x in ts ==> RowOf(db, x, t.userId)
    case Reporting(ts) => forall x :: x in ts ==> RowOf(db, x, t.userId)
    case Flagging(ts) => ts != [] && forall x :: x in ts ==> RowOf(db, x, t.userId)
    case _ => true
  }

  // ---- Queries see only the view ----

  lemma {:induction false} RedeemedInView(s: seq<Rebate>, u: UserId, c: RebateId, o: OfferId, card: Option<CardNo>)
    ensures Redeemed(s, u, o, card) == Redeemed(RebatesOf(u, c, s), u, o, card)
  {
    if s != [] {
      var n := |s| - 1;
      RedeemedInView(s[..n], u, c, o, card);
      var v := RebatesOf(u, c, s[..n]);
      if s[n].userId == u {
        assert (v + [Erase(c, s[n])])[..|v|] == v;
      } else {
        assert v + [] == v;
      }
    }
  }

  lemma {:induction false} MembersOfView(s: seq<Rebate>, u: UserId, c: RebateId)
    ensures forall r :: r in s && r.userId == u ==> Erase(c, r) in RebatesOf(u, c, s)
    ensures forall e :: e in RebatesOf(u, c, s) ==> exists r :: r in s && r.userId == u && e == Erase(c, r)
  {
    if s != [] {
      var n := |s| - 1;
      assert s == s[..n] + [s[n]];
      MembersOfView(s[..n], u, c);
    }
  }

  lemma SourceInView(s: seq<Rebate>, u: UserId, c: RebateId, x: TxnId)
    requires forall r :: r in s && r.sourceTxnId == x ==> r.userId == u
    ensures HasSource(s, x) == HasSource(RebatesOf(u, c, s), x)
  {
    MembersOfView(s, u, c);
    if r :| r in s && r.sourceTxnId == x {
      assert Erase(c, r) in RebatesOf(u, c, s);
    }
  }

  lemma FulfilledInView(s: seq<Rebate>, u: UserId, c: RebateId, x: TxnId)
    requires forall r :: r in s && r.fulfilledTxnId == Some(x) ==> r.userId == u
    ensures HasFulfilled(s, x) == HasFulfilled(RebatesOf(u, c, s), x)
  {
    MembersOfView(s, u, c);
    if r :| r in s && r.fulfilledTxnId == Some(x) {
      assert Erase(c, r) in RebatesOf(u, c, s);
    }
  }

  lemma FindAppend(s: seq<Rebate>, r: Rebate, id: RebateId)
    ensures FindRebate(s + [r], id) == if r.id == id then Some(r) else FindRebate(s, id)
  {
    assert (s + [r])[..|s|] == s;
  }

  lemma {:induction false} FindInView(s: seq<Rebate>, u: UserId, c: RebateId, id: RebateId)
    requires id < c
    requires forall r :: r in s && r.id == id ==> r.userId == u
    ensures FindRebate(s, id) == FindRebate(RebatesOf(u, c, s), id)
  {
    if s != [] {
      var n := |s| - 1;
      assert s == s[..n] + [s[n]];
      FindInView(s[..n], u, c, id);
      var v := RebatesOf(u, c, s[..n]);
      if s[n].userId == u {
        FindAppend(v, Erase(c, s[n]), id);
      } else {
        assert v + [] == v;
      }
    }
  }

  lemma {:induction false} TrackedInView(s: seq<Txn>, u: UserId, o: OfferId)
    ensures TrackedRefunds(s, u, o) == TrackedRefunds(TxnsOf(u, s), u, o)
    ensures ReportableQualifying(s, u, o) == ReportableQualifying(TxnsOf(u, s), u, o)
  {
    if s != [] {
      var n := |s| - 1;
      TrackedInView(s[..n], u, o);
      var v := TxnsOf(u, s[..n]);
      if s[n].userId == u {
        assert (v + [s[n]])[..|v|] == v;
      } else {
        assert v + [] == v;
      }
    }
  }

  lemma {:induction false} JournalInView(s: seq<JournalRow>, u: UserId, id: RebateId)
    ensures FindJournal(s, u, id) == FindJournal(JournalOf(u, s), u, id)
  {
    if s != [] {
      var n := |s| - 1;
      JournalInView(s[..n], u, id);
      var v := JournalOf(u, s[..n]);
      if s[n].clientId == u {
        assert (v + [s[n]])[..|v|] == v;
      } else {
        assert v + [] == v;
      }
    }
  }

  // ---- Writes act on the view of their own user and leave the others alone ----

  lemma {:induction false} UpdateTxnsInView(s: seq<Txn>, u: UserId, up: TxnUpdate)
    ensures TxnsOf(u, UpdateTxns(s, up)) == UpdateTxns(TxnsOf(u, s), up)
  {
    if s != [] {
      var n := |s| - 1;
      UpdateTxnsInView(s[..n], u, up);
      assert UpdateTxns(s, up)[..n] == UpdateTxns(s[..n], up);
    }
  }

  lemma {:induction false} UpdateTxnsElsewhere(s: seq<Txn>, v: UserId, up: TxnUpdate)
    requires forall t :: t in s && t.id == up.id ==> t.userId != v
    ensures TxnsOf(v, UpdateTxns(s, up)) == TxnsOf(v, s)
  {
    if s != [] {
      var n := |s| - 1;
      assert s == s[..n] + [s[n]];
      UpdateTxnsElsewhere(s[..n], v, up);
      assert UpdateTxns(s, up)[..n] == UpdateTxns(s[..n], up);
    }
  }

  lemma {:induction false} SettleInView(s: seq<Rebate>, u: UserId, c: RebateId, up: RebateUpdate)
    requires up.Settled? && up.id < c
    ensures RebatesOf(u, c, UpdateRebates(s, up)) == UpdateRebates(RebatesOf(u, c, s), up)
  {
    if s != [] {
      var n := |s| - 1;
      SettleInView(s[..n], u, c, up);
      assert UpdateRebates(s, up)[..n] == UpdateRebates(s[..n], up);
    }
  }

  lemma {:induction false} SettleElsewhere(s: seq<Rebate>, v: UserId, c: RebateId, up: RebateUpdate)
    requires up.Settled? && forall r :: r in s && r.id == up.id ==> r.userId != v
    ensures RebatesOf(v, c, UpdateRebates(s, up)) == RebatesOf(v, c, s)
  {
    if s != [] {
      var n := |s| - 1;
      assert s == s[..n] + [s[n]];
      SettleElsewhere(s[..n], v, c, up);
      assert UpdateRebates(s, up)[..n] == UpdateRebates(s[..n], up);
    }
  }

  lemma {:induction false} JournalUpdateInView(s: seq<JournalRow>, u: UserId, id: nat, t: Txn, r: Rebate)
    requires t.userId == u && forall j :: j in s && j.id == id ==> j.clientId == u
    ensures JournalOf(u, UpdateJournal(s, id, t, r)) == UpdateJournal(JournalOf(u, s), id, t, r)
  {
    if s != [] {
      var n := |s| - 1;
      assert s == s[..n] + [s[n]];
      JournalUpdateInView(s[..n], u, id, t, r);
      assert UpdateJournal(s, id, t, r)[..n] == UpdateJournal(s[..n], id, t, r);
    }
  }

  lemma {:induction false} JournalUpdateElsewhere(s: seq<JournalRow>, v: UserId, id: nat, t: Txn, r: Rebate)
    requires t.userId != v && forall j :: j in s && j.id == id ==> j.clientId != v
    ensures JournalOf(v, UpdateJournal(s, id, t, r)) == JournalOf(v, s)
  {
    if s != [] {
      var n := |s| - 1;
      assert s == s[..n] + [s[n]];
      JournalUpdateElsewhere(s[..n], v, id, t, r);
      assert UpdateJournal(s, id, t, r)[..n] == UpdateJournal(s[..n], id, t, r);
    }
  }

  // ---- One step ----

  lemma SameChecks(env: Env, c: RebateId, a: Db, b: Db, t: Txn, checks: seq<Check>)
    requires View(t.userId, c, a) == View(t.userId, c, b)
    requires HasSource(a.rebates, t.txnId) == HasSource(b.rebates, t.txnId)
    ensures FirstFailing(checks, env, a, t) == FirstFailing(checks, env, b, t)
  {
    forall check | check in checks ensures Holds(check, env, a, t) == Holds(check, env, b, t) {
      if t.offerId in env.offers {
        var card := LimitCard(env.offers[t.offerId], t);
        RedeemedInView(a.rebates, t.userId, c, t.offerId, card);
        RedeemedInView(b.rebates, t.userId, c, t.offerId, card);
      }
    }
    FirstOfSame(checks, (x: Check) => !Holds(x, env, a, t), (x: Check) => !Holds(x, env, b, t));
  }

  lemma SameReads(own: Ownership, c: RebateId, a: Db, b: Db, t: Txn)
    requires Owned(own, c, a) && Owned(own, c, b) && OwnedTxn(own, c, t)
    requires View(t.userId, c, a) == View(t.userId, c, b)
    ensures HasSource(a.rebates, t.txnId) == HasSource(b.rebates, t.txnId)
    ensures HasFulfilled(a.rebates, t.txnId) == HasFulfilled(b.rebates, t.txnId)
    ensures Redeemed(a.rebates, t.userId, t.offerId, None) == Redeemed(b.rebates, t.userId, t.offerId, None)
  {
    var u := t.userId;
    SourceInView(a.rebates, u, c, t.txnId);
    SourceInView(b.rebates, u, c, t.txnId);
    FulfilledInView(a.rebates, u, c, t.txnId);
    FulfilledInView(b.rebates, u, c, t.txnId);
    RedeemedInView(a.rebates, u, c, t.offerId, None);
    RedeemedInView(b.rebates, u, c, t.offerId, None);
  }

  /** A fulfilment reads the same rebate of its own user, or another user's of another account. */
  lemma SameRebate(own: Ownership, c: RebateId, a: Db, b: Db, t: Txn)
    requires Owned(own, c, a) && Owned(own, c, b) && OwnedTxn(own, c, t) && t.kind == Fulfillment
    requires View(t.userId, c, a) == View(t.userId, c, b)
    ensures var r, r' := NamedRebate(a, t), NamedRebate(b, t);
            r == r' || (r.Some? && r'.Some? && r.value.accountId != t.accountId && r'.value.accountId != t.accountId)
  {
    if t.rebateId.Some? {
      var id := t.rebateId.value;
      if own.rebate(id) == t.userId {
        FindInView(a.rebates, t.userId, c, id);
        FindInView(b.rebates, t.userId, c, id);
      } else {
        FoundInPlace(a.rebates, id);
        FoundInPlace(b.rebates, id);
        assert a.rebates[id] in a.rebates && b.rebates[id] in b.rebates;
      }
    }
  }

  lemma SameBeginning(env: Env, own: Ownership, c: RebateId, a: Db, b: Db, t: Txn)
    requires Owned(own, c, a) && Owned(own, c, b) && OwnedTxn(own, c, t)
    requires View(t.userId, c, a) == View(t.userId, c, b)
    ensures Begin(env, a, t) == Begin(env, b, t)
  {
    SameReads(own, c, a, b, t);
    match t.kind
    case Qualifying => SameChecks(env, c, a, b, t, SCREENING);
    case Fulfillment =>
      FirstOfSame(FIRST_LOOK, (s: Status) => FulfilmentApplies(s, env, a, t), (s: Status) => FulfilmentApplies(s, env, b, t));
    case Refund =>
      FirstOfSame(REFUND_ORDER, (s: Status) => RefundApplies(s, env, a, t), (s: Status) => RefundApplies(s, env, b, t));
    case OtherKind =>
  }

  lemma SameConclusion(env: Env, own: Ownership, c: RebateId, a: Db, b: Db, t: Txn)
    requires Owned(own, c, a) && Owned(own, c, b) && OwnedTxn(own, c, t)
    requires View(t.userId, c, a) == View(t.userId, c, b)
    ensures Concluded(env, a, t) == Concluded(env, b, t)
  {
    SameReads(own, c, a, b, t);
    SameChecks(env, c, a, b, t, CONCLUDING);
  }

  lemma SameValidation(env: Env, own: Ownership, c: RebateId, a: Db, b: Db, t: Txn)
    requires Owned(own, c, a) && Owned(own, c, b) && OwnedTxn(own, c, t) && t.kind == Fulfillment
    requires View(t.userId, c, a) == View(t.userId, c, b)
    ensures Validated(env, a, t) == Validated(env, b, t)
  {
    SameReads(own, c, a, b, t);
    SameRebate(own, c, a, b, t);
    if NamedRebate(a, t) == NamedRebate(b, t) {
      FirstOfSame(SECOND_LOOK, (s: Status) => FulfilmentApplies(s, env, a, t), (s: Status) => FulfilmentApplies(s, env, b, t));
    } else {
      OtherAccount(SECOND_LOOK, env, a, t);
      OtherAccount(SECOND_LOOK, env, b, t);
    }
  }

  /** Another account is reported whatever else has become of the rebate, unless the client is unknown. */
  lemma OtherAccount(order: seq<Status>, env: Env, db: Db, t: Txn)
    requires order == SECOND_LOOK
    requires NamedRebate(db, t).Some? && NamedRebate(db, t).value.accountId != t.accountId
    ensures FulfilmentVerdict(order, env, db, t) ==
            Some(if t.userId in env.users then FulfilledTransHasDiffAccount else CannotFindClient)
  {
    var p := (s: Status) => FulfilmentApplies(s, env, db, t);
    assert order[0] == CannotFindClient && order[1] == RebateNotFound && order[2] == FulfilledTransHasDiffAccount;
    var k := if t.userId in env.users then 2 else 0;
    assert p(order[k]) && forall j :: 0 <= j < k ==> !p(order[j]);
    FirstOfIffForemost(order, p, order[k]);
  }

  lemma InsertInView(a: Db, t: Txn, amount: Cents, unit: RewardType, u: UserId, c: RebateId)
    requires c <= |a.rebates|
    ensures View(u, c, InsertRebate(a, t, amount, unit)) ==
            if t.userId == u
            then View(u, c, a).(rebates := RebatesOf(u, c, a.rebates) + [NewRebate(c, t, amount, unit)])
            else View(u, c, a)
  {
    var r := NewRebate(|a.rebates|, t, amount, unit);
    assert (a.rebates + [r])[..|a.rebates|] == a.rebates;
  }

  lemma ReportInView(a: Db, x: Txn, u: UserId, c: RebateId)
    ensures View(u, c, InsertReport(a, x)) ==
            if x.userId == u then View(u, c, a).(reports := ReportsOf(u, a.reports) + [NewReport(x)]) else View(u, c, a)
  {
    assert (a.reports + [NewReport(x)])[..|a.reports|] == a.reports;
  }

  lemma WriteCongruent(env: Env, own: Ownership, c: RebateId, a: Db, b: Db, t: Txn, p: Phase)
    requires Owned(own, c, a) && Owned(own, c, b) && OwnedTxn(own, c, t)
    requires Remembers(own, a, t, p) && Remembers(own, b, t, p)
    requires View(t.userId, c, a) == View(t.userId, c, b)
    requires p.Marking? || p.Acting? || p.Flagging?
    ensures Step(env, a, t, p, true).1 == Step(env, b, t, p, true).1
    ensures View(t.userId, c, Step(env, a, t, p, true).0) == View(t.userId, c, Step(env, b, t, p, true).0)
  {
    var u := t.userId;
    match p
    case Marking(s, _) =>
      UpdateTxnsInView(a.txns, u, Processed(t.id, s));
      UpdateTxnsInView(b.txns, u, Processed(t.id, s));
    case Acting(Issue(amount, unit)) =>
      InsertInView(a, t, amount, unit, u, c);
      InsertInView(b, t, amount, unit, u, c);
    case Acting(Settle(r)) =>
      SettleInView(a.rebates, u, c, Settled(r.id, t.txnId, t.amount, t.id));
      SettleInView(b.rebates, u, c, Settled(r.id, t.txnId, t.amount, t.id));
    case Acting(ReportRefunds) =>
      TrackedInView(a.txns, u, t.offerId);
      TrackedInView(b.txns, u, t.offerId);
    case Flagging(todo) =>
      UpdateTxnsInView(a.txns, u, ReportCreated(todo[0].id));
      UpdateTxnsInView(b.txns, u, ReportCreated(todo[0].id));
    case _ =>
  }

  /** Two databases that look the same to the row's user still do after the same step. */
  lemma StepCongruent(env: Env, own: Ownership, c: RebateId, a: Db, b: Db, t: Txn, p: Phase)
    requires Owned(own, c, a) && Owned(own, c, b) && OwnedTxn(own, c, t)
    requires Remembers(own, a, t, p) && Remembers(own, b, t, p)
    requires View(t.userId, c, a) == View(t.userId, c, b)
    ensures Step(env, a, t, p, true).1 == Step(env, b, t, p, true).1
    ensures View(t.userId, c, Step(env, a, t, p, true).0) == View(t.userId, c, Step(env, b, t, p, true).0)
  {
    var u := t.userId;
    match p
    case Start => SameBeginning(env, own, c, a, b, t);
    case LimitSeen => SameConclusion(env, own, c, a, b, t);
    case PaymentUnusedSeen => SameValidation(env, own, c, a, b, t);
    case Listed(_) =>
      TrackedInView(a.txns, u, t.offerId);
      TrackedInView(b.txns, u, t.offerId);
    case Journaling(r) =>
      JournalInView(a.journal, u, r.id);
      JournalInView(b.journal, u, r.id);
      var j := FindJournal(a.journal, u, r.id);
      if j.Some? {
        JournalUpdateInView(a.journal, u, j.value.id, t, r);
        JournalUpdateInView(b.journal, u, j.value.id, t, r);
      }
    case Reporting(todo) =>
      if todo != [] {
        ReportInView(a, todo[0], u, c);
        ReportInView(b, todo[0], u, c);
      }
    case Done =>
    case _ => WriteCongruent(env, own, c, a, b, t, p);
  }

  /** A step of one user's row is invisible to every other user. */
  lemma StepFrame(env: Env, own: Ownership, c: RebateId, db: Db, t: Txn, p: Phase, v: UserId)
    requires Owned(own, c, db) && OwnedTxn(own, c, t) && RowOf(db, t, t.userId) && Remembers(own, db, t, p)
    requires v != t.userId
    ensures View(v, c, Step(env, db, t, p, true).0) == View(v, c, db)
  {
    match p
    case Marking(s, _) => UpdateTxnsElsewhere(db.txns, v, Processed(t.id, s));
    case Acting(Issue(amount, unit)) => InsertInView(db, t, amount, unit, v, c);
    case Acting(Settle(r)) => SettleElsewhere(db.rebates, v, c, Settled(r.id, t.txnId, t.amount, t.id));
    case Journaling(r) =>
      var j := FindJournal(db.journal, r.userId, r.id);
      if j.Some? {
        JournalUpdateElsewhere(db.journal, v, j.value.id, t, r);
      }
    case Reporting(todo) =>
      if todo != [] {
        assert todo[0] in todo;
        ReportInView(db, todo[0], v, c);
      }
    case Flagging(todo) =>
      assert todo[0] in todo;
      UpdateTxnsElsewhere(db.txns, v, ReportCreated(todo[0].id));
    case _ =>
  }

  lemma StepKeepsRows(env: Env, db: Db, t: Txn, p: Phase)
    ensures var db' := Step(env, db, t, p, true).0;
            |db'.txns| == |db.txns|
            && (forall i :: 0 <= i < |db.txns| ==>
                  db'.txns[i] == db.txns[i].(processed := db'.txns[i].processed, status := db'.txns[i].status,
                                             reported := db'.txns[i].reported))
  {
  }

  lemma StepKeepsOwnedRebates(env: Env, own: Ownership, c: RebateId, db: Db, t: Txn, p: Phase)
    requires Owned(own, c, db) && OwnedTxn(own, c, t) && Remembers(own, db, t, p)
    ensures var db' := Step(env, db, t, p, true).0;
            |db.rebates| <= |db'.rebates|
            && (forall i :: 0 <= i < |db'.rebates| ==> db'.rebates[i].id == i && OwnedRebate(own, c, db'.rebates[i]))
            && (forall i :: 0 <= i < |db'.journal| ==> db'.journal[i].id == i)
  {
    assert forall i :: 0 <= i < |db.rebates| ==> db.rebates[i] in db.rebates;
  }

  /** A step keeps numbering, ownership and every row's user. */
  lemma StepKeepsOwned(env: Env, own: Ownership, c: RebateId, db: Db, t: Txn, p: Phase)
    requires Owned(own, c, db) && OwnedTxn(own, c, t) && RowOf(db, t, t.userId) && Remembers(own, db, t, p)
    ensures var db' := Step(env, db, t, p, true).0;
            Owned(own, c, db') && (forall x, u :: RowOf(db, x, u) ==> RowOf(db', x, u))
  {
    var db' := Step(env, db, t, p, true).0;
    StepKeepsRows(env, db, t, p);
    StepKeepsOwnedRebates(env, own, c, db, t, p);
  }

  lemma StepRemembers(env: Env, own: Ownership, c: RebateId, db: Db, t: Txn, p: Phase)
    requires Owned(own, c, db) && OwnedTxn(own, c, t) && RowOf(db, t, t.userId) && Remembers(own, db, t, p)
    ensures var (db', p') := Step(env, db, t, p, true); Remembers(own, db', t, p')
  {
    var (db', p') := Step(env, db, t, p, true);
    StepKeepsOwned(env, own, c, db, t, p);
    match p
    case PaymentUnusedSeen =>
      SecondLookTotal(env, db, t);
      var r := NamedRebate(db, t);
      if r.Some? { assert OwnedRebate(own, c, r.value); }
    case Listed(tracked) =>
      forall x | x in p'.todo ensures RowOf(db', x, t.userId) {
        assert x in tracked || x in ReportableQualifying(db.txns, t.userId, t.offerId);
      }
    case Acting(ReportRefunds) =>
      if p'.Listed? {
        forall x | x in p'.tracked ensures RowOf(db', x, t.userId) {
          assert x in db.txns;
        }
      }
    case Reporting(todo) =>
      if todo != [] { assert forall x :: x in todo[1..] ==> x in todo; }
    case Flagging(todo) => assert forall x :: x in todo[1..] ==> x in todo;
    case _ =>
  }
}
