/** Running totals per offer: incremented by what is not yet synced, which is then flagged. */
module MopSync {
  import opened Domain
  import opened Store

  /** A row of the Salesforce offers table; absent totals count as zero. */
  datatype OfferRow = OfferRow(offerId: OfferId, count: int, amount: Cents)

  datatype Books = Books(rebates: seq<Rebate>, offers: seq<OfferRow>)

  datatype Sum = Sum(count: int, amount: Cents)

  function Plus(a: Sum, b: Sum): Sum {
    Sum(a.count + b.count, a.amount + b.amount)
  }

  datatype Which = All | SyncedOnly | Unsynced

  predicate Tallied(r: Rebate, o: OfferId, which: Which) {
    r.offerId == o && r.status == FulfilledTransSuccessful
    && (which.SyncedOnly? ==> r.synced) && (which.Unsynced? ==> !r.synced)
  }

  function Paid(r: Rebate): Cents {
    if r.fulfilledAmount.Some? then r.fulfilledAmount.value else 0
  }

  function Part(r: Rebate, o: OfferId, which: Which): Sum {
    if Tallied(r, o, which) then Sum(1, Paid(r)) else Sum(0, 0)
  }

  /** Count and amount of an offer's fulfilled rebates among the first n. */
  function TallyTo(s: seq<Rebate>, n: nat, o: OfferId, which: Which): Sum
    requires n <= |s|
  {
    if n == 0 then Sum(0, 0) else Plus(TallyTo(s, n - 1, o, which), Part(s[n - 1], o, which))
  }

  function Tally(s: seq<Rebate>, o: OfferId, which: Which): Sum {
    TallyTo(s, |s|, o, which)
  }

  /** The two halves of handling one offer. Handlers of different offers interleave. */
  datatype Half = Increment(offer: OfferId) | Flag(offer: OfferId)

  function AddTo(row: OfferRow, o: OfferId, total: Sum): OfferRow {
    if row.offerId == o then OfferRow(o, row.count + total.count, row.amount + total.amount) else row
  }

  function AddToRows(rows: seq<OfferRow>, o: OfferId, total: Sum): seq<OfferRow> {
    seq(|rows|, i requires 0 <= i < |rows| => AddTo(rows[i], o, total))
  }

  /** `read` holds the rebates as they were when all counts and sums were read. */
  function Handle(b: Books, read: seq<Rebate>, h: Half): Books {
    match h
    case Increment(o) => b.(offers := AddToRows(b.offers, o, Tally(read, o, Unsynced)))
    case Flag(o) => b.(rebates := UpdateRebates(b.rebates, MopSynced(o)))
  }

  function HandleAll(b: Books, read: seq<Rebate>, halves: seq<Half>): Books {
    if halves == [] then b else
    var n := |halves| - 1;
    Handle(HandleAll(b, read, halves[..n]), read, halves[n])
  }

  /** A complete sync handles each offer once: its increment, and later its flag. */
  ghost predicate CompleteSync(criteria: set<OfferId>, halves: seq<Half>) {
    (forall i, j :: 0 <= i < j < |halves| ==> halves[i] != halves[j])
    && (forall h :: h in halves <==> h.offer in criteria)
    && (forall i, j :: 0 <= i < |halves| && 0 <= j < |halves| ==>
          halves[i].Increment? && halves[j] == Flag(halves[i].offer) ==> i < j)
  }

  /** The books after handling a set of increments and a set of flags, in no particular order. */
  function Handled(b: Books, read: seq<Rebate>, incremented: set<OfferId>, flagged: set<OfferId>): Books {
    Books(
      seq(|b.rebates|, i requires 0 <= i < |b.rebates| =>
        if b.rebates[i].offerId in flagged && b.rebates[i].status == FulfilledTransSuccessful
        then b.rebates[i].(synced := true) else b.rebates[i]),
      seq(|b.offers|, i requires 0 <= i < |b.offers| =>
        if b.offers[i].offerId in incremented
        then AddTo(b.offers[i], b.offers[i].offerId, Tally(read, b.offers[i].offerId, Unsynced)) else b.offers[i]))
  }

  function Synced(b: Books, criteria: set<OfferId>): Books {
    Handled(b, b.rebates, criteria, criteria)
  }

  function Offers(halves: seq<Half>, flags: bool): set<OfferId> {
    set h | h in halves && h.Flag? == flags :: h.offer
  }

  lemma OffersOfAppend(halves: seq<Half>, h: Half, flags: bool)
    ensures Offers(halves + [h], flags) == Offers(halves, flags) + if h.Flag? == flags then {h.offer} else {}
  {
    forall o ensures o in Offers(halves + [h], flags) <==>
                     o in Offers(halves, flags) + if h.Flag? == flags then {h.offer} else {}
    {
      if o in Offers(halves + [h], flags) {
        var x :| x in halves + [h] && x.Flag? == flags && x.offer == o;
        assert x in halves || x == h;
      }
      if h.Flag? == flags && o == h.offer { assert h in halves + [h]; }
      if x :| x in halves && x.Flag? == flags && x.offer == o { assert x in halves + [h]; }
    }
  }

  lemma HandleOne(b: Books, read: seq<Rebate>, inc: set<OfferId>, fl: set<OfferId>, h: Half)
    requires h.Increment? ==> h.offer !in inc
    ensures Handle(Handled(b, read, inc, fl), read, h) ==
            if h.Increment? then Handled(b, read, inc + {h.offer}, fl) else Handled(b, read, inc, fl + {h.offer})
  {
  }

  lemma {:induction false} HandleAllIsHandled(b: Books, read: seq<Rebate>, halves: seq<Half>)
    requires forall i, j :: 0 <= i < j < |halves| ==> halves[i] != halves[j]
    ensures HandleAll(b, read, halves) == Handled(b, read, Offers(halves, false), Offers(halves, true))
  {
    if halves == [] {
      assert Offers(halves, false) == {} && Offers(halves, true) == {};
      assert Handled(b, read, {}, {}) == b;
    } else {
      var n := |halves| - 1;
      var first, h := halves[..n], halves[n];
      assert halves == first + [h];
      HandleAllIsHandled(b, read, first);
      OffersOfAppend(first, h, false);
      OffersOfAppend(first, h, true);
      HandleOne(b, read, Offers(first, false), Offers(first, true), h);
    }
  }

  /** A complete sync ends in the same books whatever order the offers are handled in. */
  lemma SyncOrderDoesNotMatter(b: Books, criteria: set<OfferId>, halves: seq<Half>)
    requires CompleteSync(criteria, halves)
    ensures HandleAll(b, b.rebates, halves) == Synced(b, criteria)
  {
    HandleAllIsHandled(b, b.rebates, halves);
    forall o ensures (o in Offers(halves, false) <==> o in criteria) && (o in Offers(halves, true) <==> o in criteria) {
      if o in criteria { assert Increment(o) in halves && Flag(o) in halves; }
    }
    assert Offers(halves, false) == criteria && Offers(halves, true) == criteria;
  }

  lemma {:induction false} TallySplits(s: seq<Rebate>, n: nat, o: OfferId)
    requires n <= |s|
    ensures TallyTo(s, n, o, All) == Plus(TallyTo(s, n, o, SyncedOnly), TallyTo(s, n, o, Unsynced))
  {
    if n > 0 {
      TallySplits(s, n - 1, o);
    }
  }

  /** Tallies agree where every row contributes the same. */
  lemma {:induction false} SameTallies(s: seq<Rebate>, w: Which, s': seq<Rebate>, w': Which, n: nat, o: OfferId)
    requires n <= |s| && n <= |s'| && forall k :: 0 <= k < n ==> Part(s[k], o, w) == Part(s'[k], o, w')
    ensures TallyTo(s, n, o, w) == TallyTo(s', n, o, w')
  {
    if n > 0 {
      SameTallies(s, w, s', w', n - 1, o);
    }
  }

  lemma FlaggingTallies(b: Books, criteria: set<OfferId>, o: OfferId)
    ensures var b' := Synced(b, criteria);
            Tally(b'.rebates, o, All) == Tally(b.rebates, o, All)
            && Tally(b'.rebates, o, SyncedOnly) == Tally(b.rebates, o, if o in criteria then All else SyncedOnly)
  {
    var b' := Synced(b, criteria);
    SameTallies(b'.rebates, All, b.rebates, All, |b.rebates|, o);
    SameTallies(b'.rebates, SyncedOnly, b.rebates, if o in criteria then All else SyncedOnly, |b.rebates|, o);
  }

  /** What other processes do to the rebates between two syncs: some get fulfilled, some are new. */
  ghost predicate Progress(s: seq<Rebate>, s': seq<Rebate>) {
    |s| <= |s'|
    && (forall k :: 0 <= k < |s| ==>
          s'[k].offerId == s[k].offerId && s'[k].synced == s[k].synced
          && (s[k].status == FulfilledTransSuccessful ==>
                s'[k].status == FulfilledTransSuccessful && s'[k].fulfilledAmount == s[k].fulfilledAmount)
          && (s[k].synced ==> s[k].status == FulfilledTransSuccessful))
    && (forall k :: |s| <= k < |s'| ==> !s'[k].synced)
  }

  lemma {:induction false} TailAddsNothing(s: seq<Rebate>, m: nat, n: nat, o: OfferId)
    requires m <= n <= |s| && forall k :: m <= k < n ==> !s[k].synced
    ensures TallyTo(s, n, o, SyncedOnly) == TallyTo(s, m, o, SyncedOnly)
    decreases n
  {
    if m < n {
      TailAddsNothing(s, m, n - 1, o);
    }
  }

  lemma ProgressTallies(s: seq<Rebate>, s': seq<Rebate>, o: OfferId)
    requires Progress(s, s')
    ensures Tally(s', o, SyncedOnly) == Tally(s, o, SyncedOnly)
  {
    TailAddsNothing(s', |s|, |s'|, o);
    SameTallies(s, SyncedOnly, s', SyncedOnly, |s|, o);
  }

  datatype Event = Between(rebates: seq<Rebate>) | Sync(criteria: set<OfferId>, halves: seq<Half>)

  ghost predicate Legal(b: Books, e: Event) {
    match e
    case Between(s) => Progress(b.rebates, s)
    case Sync(criteria, halves) => CompleteSync(criteria, halves)
  }

  function Happen(b: Books, e: Event): Books {
    match e
    case Between(s) => b.(rebates := s)
    case Sync(_, halves) => HandleAll(b, b.rebates, halves)
  }

  function HappenAll(b: Books, events: seq<Event>): Books
    decreases |events|
  {
    if events == [] then b else HappenAll(Happen(b, events[0]), events[1..])
  }

  ghost predicate LegalAll(b: Books, events: seq<Event>)
    decreases |events|
  {
    events == [] || (Legal(b, events[0]) && LegalAll(Happen(b, events[0]), events[1..]))
  }

  function RunningTotal(b: Books, k: nat): Sum
    requires k < |b.offers|
  {
    Sum(b.offers[k].count, b.offers[k].amount)
  }

  lemma SyncConserves(b: Books, criteria: set<OfferId>, k: nat)
    requires k < |b.offers|
    ensures var b' := Synced(b, criteria); var o := b.offers[k].offerId;
            |b'.offers| == |b.offers| && b'.offers[k].offerId == o
            && Tally(b'.rebates, o, All) == Tally(b.rebates, o, All)
            && Plus(RunningTotal(b', k), Tally(b'.rebates, o, Unsynced)) ==
               Plus(RunningTotal(b, k), Tally(b.rebates, o, Unsynced))
            && (o in criteria ==> Tally(b'.rebates, o, Unsynced) == Sum(0, 0))
  {
    var b', o := Synced(b, criteria), b.offers[k].offerId;
    FlaggingTallies(b, criteria, o);
    TallySplits(b.rebates, |b.rebates|, o);
    TallySplits(b'.rebates, |b'.rebates|, o);
  }

  /**
    * Over any run of complete syncs and fulfilments: an offer row's running total plus what is fulfilled but not
    * synced equals the same at the start plus everything fulfilled since.
    */
  lemma {:induction false} TotalsAreConserved(b: Books, events: seq<Event>, k: nat)
    requires k < |b.offers| && LegalAll(b, events)
    ensures var b' := HappenAll(b, events); var o := b.offers[k].offerId;
            |b'.offers| == |b.offers| && b'.offers[k].offerId == o
            && Plus(Plus(RunningTotal(b', k), Tally(b'.rebates, o, Unsynced)), Tally(b.rebates, o, All)) ==
               Plus(Plus(RunningTotal(b, k), Tally(b.rebates, o, Unsynced)), Tally(b'.rebates, o, All))
    decreases |events|
  {
    if events != [] {
      var o, next := b.offers[k].offerId, Happen(b, events[0]);
      match events[0] {
        case Between(s) =>
          ProgressTallies(b.rebates, s, o);
          TallySplits(b.rebates, |b.rebates|, o);
          TallySplits(s, |s|, o);
        case Sync(criteria, halves) =>
          SyncOrderDoesNotMatter(b, criteria, halves);
          SyncConserves(b, criteria, k);
      }
      TotalsAreConserved(next, events[1..], k);
    }
  }

  /** After a complete sync a second one changes no total. */
  lemma SecondSyncChangesNothing(b: Books, criteria: set<OfferId>)
    ensures Synced(Synced(b, criteria), criteria) == Synced(b, criteria)
  {
    var b1 := Synced(b, criteria);
    forall k | 0 <= k < |b.offers| ensures Synced(b1, criteria).offers[k] == b1.offers[k] {
      SyncConserves(b, criteria, k);
    }
    assert Synced(b1, criteria).offers == b1.offers;
    assert Synced(b1, criteria).rebates == b1.rebates;
  }

  // ---- What the totals count ----

  /** Sum of the fulfilled amounts of the rows picked out, among the first n. */
  function SumTo(s: seq<Rebate>, n: nat, picked: Rebate -> bool): Cents
    requires n <= |s|
  {
    if n == 0 then 0 else
    SumTo(s, n - 1, picked)
    + if picked(s[n - 1]) && s[n - 1].fulfilledAmount.Some? then s[n - 1].fulfilledAmount.value else 0
  }

  function SumWhere(s: seq<Rebate>, picked: Rebate -> bool): Cents {
    SumTo(s, |s|, picked)
  }

  function TalliedTo(s: seq<Rebate>, n: nat, o: OfferId, which: Which): set<nat>
    requires n <= |s|
  {
    set i: nat | i < n && Tallied(s[i], o, which)
  }

  lemma NextPlace(before: set<nat>, now: set<nat>, n: nat, more: bool)
    requires n !in before && forall i :: i in now <==> i in before || (i == n && more)
    ensures |now| == |before| + if more then 1 else 0
  {
    assert now == if more then before + {n} else before;
  }

  lemma {:induction false} CountTo(s: seq<Rebate>, n: nat, o: OfferId, which: Which)
    requires n <= |s|
    ensures TallyTo(s, n, o, which).count == |TalliedTo(s, n, o, which)|
  {
    var now := TalliedTo(s, n, o, which);
    if n == 0 {
      assert now == {};
    } else {
      var before := TalliedTo(s, n - 1, o, which);
      CountTo(s, n - 1, o, which);
      NextPlace(before, now, n - 1, Tallied(s[n - 1], o, which));
    }
  }

  lemma {:induction false} AmountTo(s: seq<Rebate>, n: nat, o: OfferId, which: Which, picked: Rebate -> bool)
    requires n <= |s| && forall k :: 0 <= k < n ==> picked(s[k]) == Tallied(s[k], o, which)
    ensures TallyTo(s, n, o, which).amount == SumTo(s, n, picked)
  {
    if n > 0 { AmountTo(s, n - 1, o, which, picked); }
  }

  /** The tally of what is not yet synced: how many fulfilled rows of the offer are unflagged, and what was paid for them. */
  lemma UnsyncedColumns(s: seq<Rebate>, o: OfferId)
    ensures Tally(s, o, Unsynced) == Sum(
              |set i: nat | i < |s| && s[i].offerId == o && s[i].status == FulfilledTransSuccessful && !s[i].synced|,
              SumWhere(s, (r: Rebate) => r.offerId == o && r.status == FulfilledTransSuccessful && !r.synced))
  {
    CountTo(s, |s|, o, Unsynced);
    AmountTo(s, |s|, o, Unsynced, (r: Rebate) => r.offerId == o && r.status == FulfilledTransSuccessful && !r.synced);
    assert (set i: nat | i < |s| && s[i].offerId == o && s[i].status == FulfilledTransSuccessful && !s[i].synced) ==
           TalliedTo(s, |s|, o, Unsynced);
  }

  /** The tally of everything fulfilled for the offer. */
  lemma AllColumns(s: seq<Rebate>, o: OfferId)
    ensures Tally(s, o, All) == Sum(
              |set i: nat | i < |s| && s[i].offerId == o && s[i].status == FulfilledTransSuccessful|,
              SumWhere(s, (r: Rebate) => r.offerId == o && r.status == FulfilledTransSuccessful))
  {
    CountTo(s, |s|, o, All);
    AmountTo(s, |s|, o, All, (r: Rebate) => r.offerId == o && r.status == FulfilledTransSuccessful);
    assert (set i: nat | i < |s| && s[i].offerId == o && s[i].status == FulfilledTransSuccessful) ==
           TalliedTo(s, |s|, o, All);
  }

  /**
    * A complete sync adds to each row of a handled offer the number of its fulfilled rebates without a flag and the sum
    * of what was paid for them, and flags exactly the fulfilled rebates of handled offers. Nothing else changes.
    */
  lemma SyncColumns(b: Books, criteria: set<OfferId>)
    ensures var b', s := Synced(b, criteria), b.rebates;
            |b'.offers| == |b.offers| && |b'.rebates| == |s|
            && (forall k :: 0 <= k < |b.offers| ==>
                  var row := b.offers[k];
                  b'.offers[k] ==
                  if row.offerId !in criteria then row
                  else OfferRow(row.offerId,
                    row.count + |set i: nat | i < |s| && s[i].offerId == row.offerId
                                              && s[i].status == FulfilledTransSuccessful && !s[i].synced|,
                    row.amount + SumWhere(s, (r: Rebate) => r.offerId == row.offerId
                                                            && r.status == FulfilledTransSuccessful && !r.synced)))
            && (forall i :: 0 <= i < |s| ==>
                  b'.rebates[i] ==
                  if s[i].offerId in criteria && s[i].status == FulfilledTransSuccessful then s[i].(synced := true) else s[i])
  {
    forall k | 0 <= k < |b.offers| {
      UnsyncedColumns(b.rebates, b.offers[k].offerId);
    }
  }

  // ---- What the sync relies on ----

  function CountedIn(b: Books, k: nat): Sum
    requires k < |b.offers|
  {
    Plus(RunningTotal(b, k), Tally(b.rebates, b.offers[k].offerId, Unsynced))
  }

  /** Stopped between increment and flag, the sync keeps the law exactly if there was nothing to sync. */
  lemma HalfASyncConservesIff(b: Books, k: nat)
    requires k < |b.offers|
    ensures var o := b.offers[k].offerId;
            CountedIn(Handle(b, b.rebates, Increment(o)), k) == CountedIn(b, k)
            <==> Tally(b.rebates, o, Unsynced) == Sum(0, 0)
  {
  }

  /** With rebates fulfilled after the totals were read, it keeps the law exactly if they add up to nothing. */
  lemma LateSyncConservesIff(b: Books, read: seq<Rebate>, k: nat)
    requires k < |b.offers|
    ensures var o := b.offers[k].offerId;
            CountedIn(Handle(Handle(b, read, Increment(o)), read, Flag(o)), k) == CountedIn(b, k)
            <==> Tally(read, o, Unsynced) == Tally(b.rebates, o, Unsynced)
  {
    var o := b.offers[k].offerId;
    var b' := Handle(Handle(b, read, Increment(o)), read, Flag(o));
    NothingLeftUnsynced(b'.rebates, |b'.rebates|, o);
  }

  lemma {:induction false} NothingLeftUnsynced(s: seq<Rebate>, n: nat, o: OfferId)
    requires n <= |s|
    requires forall k :: 0 <= k < n && s[k].offerId == o && s[k].status == FulfilledTransSuccessful ==> s[k].synced
    ensures TallyTo(s, n, o, Unsynced) == Sum(0, 0)
  {
    if n > 0 { NothingLeftUnsynced(s, n - 1, o); }
  }

  /** The Salesforce offers table and the nightly sync. */
  class OfferRepository {
    var rows: seq<OfferRow>

    constructor (rows: seq<OfferRow>)
      ensures this.rows == rows
    {
      this.rows := rows;
    }

    method SyncTotalsToMOP(db: Database, criteria: seq<OfferId>)
      requires forall i, j :: 0 <= i < j < |criteria| ==> criteria[i] != criteria[j]
      modifies this, db`rebates
      ensures Books(db.rebates, rows) == Synced(Books(old(db.rebates), old(rows)), set o | o in criteria)
    {
      ghost var start := Books(db.rebates, rows);
      var totals: seq<Sum> := [];
      for i := 0 to |criteria|
        invariant |totals| == i
        invariant forall k :: 0 <= k < i ==> totals[k] == Tally(db.rebates, criteria[k], Unsynced)
      {
        totals := totals + [Tally(db.rebates, criteria[i], Unsynced)];
      }
      ghost var done: set<OfferId> := {};
      assert Handled(start, start.rebates, {}, {}) == start;
      for i := 0 to |criteria|
        invariant forall o :: o in done <==> o in criteria[..i]
        invariant Books(db.rebates, rows) == Handled(start, start.rebates, done, done)
      {
        var o := criteria[i];
        assert o !in criteria[..i];
        HandleOne(start, start.rebates, done, done, Increment(o));
        HandleOne(start, start.rebates, done + {o}, done, Flag(o));
        rows := AddToRows(rows, o, totals[i]);
        db.UpdateRebateRows(MopSynced(o));
        done := done + {o};
        assert criteria[..i + 1] == criteria[..i] + [o];
      }
      assert criteria[..|criteria|] == criteria;
      assert done == set o | o in criteria;
    }
  }
}
