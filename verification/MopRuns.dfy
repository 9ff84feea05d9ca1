/** Totals over the life of the whole system: days of processing and exporting, nights of syncing. */
module MopRuns {
  import opened Domain
  import opened Store
  import opened RowSteps
  import opened World
  import opened Issuance
  import opened Settlement
  import opened Exports
  import opened MopSync

  /** By day anything but a sync happens, with any failures; a night is one complete sync. */
  datatype Era = Day(actions: seq<Action>) | Night(criteria: set<OfferId>, halves: seq<Half>)

  datatype Shop = Shop(world: World, offers: seq<OfferRow>)

  function BooksOf(s: Shop): Books {
    Books(s.world.db.rebates, s.offers)
  }

  ghost function Live(hash: UserId -> int, s: Shop, e: Era): Shop {
    match e
    case Day(actions) => s.(world := Run(hash, s.world, actions))
    case Night(_, halves) =>
      var b := HandleAll(BooksOf(s), s.world.db.rebates, halves);
      Shop(WithRebates(s.world, b.rebates), b.offers)
  }

  function WithRebates(w: World, rebates: seq<Rebate>): World {
    w.(db := w.db.(rebates := rebates))
  }

  ghost function LiveAll(hash: UserId -> int, s: Shop, eras: seq<Era>): Shop
    decreases |eras|
  {
    if eras == [] then s else LiveAll(hash, Live(hash, s, eras[0]), eras[1..])
  }

  predicate AllowedByDay(d: Discipline, claims: RebateId -> UserId, a: Action) {
    !a.Sync? && Keeps(d, a) && (a.Arrive? ==> ClaimKeeps(d, claims, a.t))
  }

  ghost predicate Allowed(d: Discipline, claims: RebateId -> UserId, e: Era) {
    match e
    case Day(actions) => forall a :: a in actions ==> AllowedByDay(d, claims, a)
    case Night(criteria, halves) => CompleteSync(criteria, halves)
  }

  ghost predicate Healthy(hash: UserId -> int, d: Discipline, claims: RebateId -> UserId, w: World) {
    Base(hash, w) && Disciplined(d, w) && Claims(d, claims, w) && Settling(w) && Exported(w)
  }

  lemma NextKeepsHealthy(hash: UserId -> int, d: Discipline, claims: RebateId -> UserId, w: World, a: Action)
    requires Healthy(hash, d, claims, w) && Keeps(d, a) && (a.Arrive? ==> ClaimKeeps(d, claims, a.t))
    ensures Healthy(hash, d, claims, Next(hash, w, a))
  {
    NextKeepsBase(hash, w, a);
    NextKeepsDiscipline(hash, d, w, a);
    NextKeepsClaims(hash, d, claims, w, a);
    NextKeepsExported(hash, w, a);
    if a.Work? {
      if CanWork(w, a.i) { WorkKeepsSettling(hash, d, claims, w, a.i, a.env, a.ok); }
    } else {
      QuietKeepsSettling(hash, w, a);
    }
  }

  lemma HalfKeepsHealthy(
      hash: UserId -> int, d: Discipline, claims: RebateId -> UserId, w: World, b: Books, read: seq<Rebate>, h: Half)
    requires Healthy(hash, d, claims, w) && b.rebates == w.db.rebates
    ensures Healthy(hash, d, claims, WithRebates(w, Handle(b, read, h).rebates))
  {
    match h
    case Increment(_) => assert WithRebates(w, b.rebates) == w;
    case Flag(o) =>
      NextKeepsHealthy(hash, d, claims, w, Action.Sync(o));
      assert WithRebates(w, Handle(b, read, h).rebates) == Next(hash, w, Action.Sync(o));
  }

  lemma {:induction false} NightKeepsHealthy(
      hash: UserId -> int, d: Discipline, claims: RebateId -> UserId, w: World, b: Books, halves: seq<Half>)
    requires Healthy(hash, d, claims, w) && b.rebates == w.db.rebates
    ensures Healthy(hash, d, claims, WithRebates(w, HandleAll(b, b.rebates, halves).rebates))
  {
    if halves == [] {
      assert WithRebates(w, w.db.rebates) == w;
    } else {
      var n := |halves| - 1;
      var before := HandleAll(b, b.rebates, halves[..n]);
      NightKeepsHealthy(hash, d, claims, w, b, halves[..n]);
      HalfKeepsHealthy(hash, d, claims, WithRebates(w, before.rebates), before, b.rebates, halves[n]);
    }
  }

  // ---- What a day does to the rebates ----

  lemma StepProgresses(hash: UserId -> int, d: Discipline, w: World, a: Action)
    requires Base(hash, w) && Disciplined(d, w) && Settling(w) && Exported(w) && !a.Sync?
    ensures Progress(w.db.rebates, Next(hash, w, a).db.rebates)
  {
    var s, s' := w.db.rebates, Next(hash, w, a).db.rebates;
    assert forall k :: 0 <= k < |s| ==> s[k] in s && LifeOk(s[k]);
    forall k: nat | k < |s| && s[k].status == FulfilledTransSuccessful
      ensures k < |s'| && s'[k] == s[k].(synced := s'[k].synced)
    {
      NextKeepsFulfilled(hash, d, w, a, k);
    }
    SameColumns(hash, w, a);
  }

  lemma SameColumns(hash: UserId -> int, w: World, a: Action)
    requires Base(hash, w) && !a.Sync?
    ensures var s, s' := w.db.rebates, Next(hash, w, a).db.rebates;
            |s| <= |s'| && (forall k :: 0 <= k < |s| ==> s'[k].offerId == s[k].offerId && s'[k].synced == s[k].synced)
            && (forall k :: |s| <= k < |s'| ==> !s'[k].synced)
  {
  }

  lemma ProgressOn(a: seq<Rebate>, b: seq<Rebate>, c: seq<Rebate>)
    requires Progress(a, b) && Progress(b, c)
    ensures Progress(a, c)
  {
  }

  lemma {:induction false} DayProgresses(
      hash: UserId -> int, d: Discipline, claims: RebateId -> UserId, w: World, actions: seq<Action>)
    requires Healthy(hash, d, claims, w) && forall a :: a in actions ==> AllowedByDay(d, claims, a)
    ensures Healthy(hash, d, claims, Run(hash, w, actions))
    ensures Progress(w.db.rebates, Run(hash, w, actions).db.rebates)
    decreases |actions|
  {
    if actions == [] {
      assert forall k :: 0 <= k < |w.db.rebates| ==> w.db.rebates[k] in w.db.rebates;
    } else {
      var a, next := actions[0], Next(hash, w, actions[0]);
      assert a in actions && AllowedByDay(d, claims, a);
      NextKeepsHealthy(hash, d, claims, w, a);
      StepProgresses(hash, d, w, a);
      DayProgresses(hash, d, claims, next, actions[1..]);
      ProgressOn(w.db.rebates, next.db.rebates, Run(hash, w, actions).db.rebates);
    }
  }

  function Total(parts: seq<Sum>, n: nat): Sum
    requires n <= |parts|
  {
    if n == 0 then Sum(0, 0) else Plus(Total(parts, n - 1), parts[n - 1])
  }

  lemma {:induction false} TotalAhead(p: seq<Sum>, p': seq<Sum>, m: nat, n: nat)
    requires n <= |p| && n <= |p'| && forall k :: 0 <= k < n && k != m ==> p'[k] == p[k]
    requires m < n ==> p[m] == Sum(0, 0)
    ensures Total(p', n) == if m < n then Plus(Total(p, n), p'[m]) else Total(p, n)
  {
    if n > 0 { TotalAhead(p, p', m, n - 1); }
  }

  function Parts(s: seq<Rebate>, o: OfferId, which: Which): (parts: seq<Sum>)
    ensures |parts| == |s|
  {
    seq(|s|, i requires 0 <= i < |s| => Part(s[i], o, which))
  }

  lemma {:induction false} TallyIsTotal(s: seq<Rebate>, n: nat, o: OfferId, which: Which)
    requires n <= |s|
    ensures TallyTo(s, n, o, which) == Total(Parts(s, o, which), n)
  {
    if n > 0 { TallyIsTotal(s, n - 1, o, which); }
  }

  /** Where one row counts that did not before, the tally is ahead by that row. */
  lemma TallyAhead(s: seq<Rebate>, s': seq<Rebate>, m: nat, o: OfferId, which: Which)
    requires m < |s| <= |s'| && Part(s[m], o, which) == Sum(0, 0)
    requires forall k :: 0 <= k < |s| && k != m ==> Part(s'[k], o, which) == Part(s[k], o, which)
    ensures TallyTo(s', |s|, o, which) == Plus(TallyTo(s, |s|, o, which), Part(s'[m], o, which))
  {
    TallyIsTotal(s, |s|, o, which);
    TallyIsTotal(s', |s|, o, which);
    TotalAhead(Parts(s, o, which), Parts(s', o, which), m, |s|);
  }

  lemma {:induction false} TailIsNothing(s: seq<Rebate>, m: nat, n: nat, o: OfferId, which: Which)
    requires m <= n <= |s| && forall k :: m <= k < n ==> Part(s[k], o, which) == Sum(0, 0)
    ensures TallyTo(s, n, o, which) == TallyTo(s, m, o, which)
    decreases n
  {
    if m < n { TailIsNothing(s, m, n - 1, o, which); }
  }

  lemma SamePart(r: Rebate, r': Rebate, o: OfferId, which: Which)
    requires r' == r || (r.status != FulfilledTransSuccessful && r'.status != FulfilledTransSuccessful)
    ensures Part(r', o, which) == Part(r, o, which)
  {
  }

  lemma NoPart(r: Rebate, o: OfferId, which: Which)
    requires r.status != FulfilledTransSuccessful
    ensures Part(r, o, which) == Sum(0, 0)
  {
  }

  /** A worker's access settles a rebate by this payment. */
  predicate SettlesAt(w: World, a: Action, r: RebateId) {
    a.Work? && a.ok && CanWork(w, a.i) && w.runners[a.i].phase.Acting? && w.runners[a.i].phase.sequel.Settle?
    && w.runners[a.i].phase.sequel.rebate.id == r
  }

  /**
    * Settling a rebate by a payment raises the tallies of its offer, of everything and of what is not yet synced, by one
    * rebate and the amount of the payment, and leaves those of other offers alone.
    */
  lemma SettlingIsTallied(
      hash: UserId -> int, d: Discipline, claims: RebateId -> UserId, w: World, a: Action, id: RebateId, o: OfferId)
    requires Healthy(hash, d, claims, w) && SettlesAt(w, a, id)
    ensures var s, s', t := w.db.rebates, Next(hash, w, a).db.rebates, w.runners[a.i].queue[0];
            id < |s| && t.kind == Fulfillment
            && var more := if s[id].offerId == o then Sum(1, t.amount) else Sum(0, 0);
               Tally(s', o, All) == Plus(Tally(s, o, All), more)
               && Tally(s', o, Unsynced) == Plus(Tally(s, o, Unsynced), more)
  {
    SettlingFulfils(hash, d, claims, w, a, id);
    SettledTallies(w.db.rebates, Next(hash, w, a).db.rebates, id, w.runners[a.i].queue[0], o);
  }

  lemma SettlingFulfils(
      hash: UserId -> int, d: Discipline, claims: RebateId -> UserId, w: World, a: Action, id: RebateId)
    requires Healthy(hash, d, claims, w) && SettlesAt(w, a, id)
    ensures w.runners[a.i].queue[0].kind == Fulfillment
    ensures NewlyFulfilled(w.db.rebates, Next(hash, w, a).db.rebates, id, w.runners[a.i].queue[0])
  {
    var s, t, p := w.db.rebates, w.runners[a.i].queue[0], w.runners[a.i].phase;
    assert RunnerOk(hash, w.db, |w.runners|, a.i, w.runners[a.i]);
    assert PaysSafely(w.db, t, p);
    assert s[id] in s && LifeOk(s[id]);
    StepPayments(a.env, w.db, t, p, true);
  }

  /** One rebate is newly fulfilled, by this payment; nobody else is. */
  ghost predicate NewlyFulfilled(s: seq<Rebate>, s': seq<Rebate>, id: RebateId, t: Txn) {
    id < |s| <= |s'| && s[id].status != FulfilledTransSuccessful && !s[id].synced
    && s'[id].offerId == s[id].offerId && s'[id].status == FulfilledTransSuccessful && !s'[id].synced
    && s'[id].fulfilledAmount == Some(t.amount)
    && (forall k :: 0 <= k < |s| && k != id ==> s'[k] == s[k])
    && (forall k :: |s| <= k < |s'| ==> s'[k].status != FulfilledTransSuccessful)
  }

  lemma SettledTally(s: seq<Rebate>, s': seq<Rebate>, id: RebateId, t: Txn, o: OfferId, which: Which)
    requires NewlyFulfilled(s, s', id, t) && !which.SyncedOnly?
    ensures Tally(s', o, which) == Plus(Tally(s, o, which), if s[id].offerId == o then Sum(1, t.amount) else Sum(0, 0))
  {
    forall k | 0 <= k < |s| && k != id ensures Part(s'[k], o, which) == Part(s[k], o, which) {
      SamePart(s[k], s'[k], o, which);
    }
    forall k | |s| <= k < |s'| ensures Part(s'[k], o, which) == Sum(0, 0) {
      NoPart(s'[k], o, which);
    }
    TallyAhead(s, s', id, o, which);
    TailIsNothing(s', |s|, |s'|, o, which);
  }

  lemma SettledTallies(s: seq<Rebate>, s': seq<Rebate>, id: RebateId, t: Txn, o: OfferId)
    requires NewlyFulfilled(s, s', id, t)
    ensures var more := if s[id].offerId == o then Sum(1, t.amount) else Sum(0, 0);
            Tally(s', o, All) == Plus(Tally(s, o, All), more)
            && Tally(s', o, Unsynced) == Plus(Tally(s, o, Unsynced), more)
  {
    SettledTally(s, s', id, t, o, All);
    SettledTally(s, s', id, t, o, Unsynced);
  }

  /** Every other action by day leaves them as they are. */
  lemma OthersAreNotTallied(
      hash: UserId -> int, d: Discipline, claims: RebateId -> UserId, w: World, a: Action, o: OfferId)
    requires Healthy(hash, d, claims, w) && !a.Sync? && forall id :: !SettlesAt(w, a, id)
    ensures var s, s' := w.db.rebates, Next(hash, w, a).db.rebates;
            Tally(s', o, All) == Tally(s, o, All) && Tally(s', o, Unsynced) == Tally(s, o, Unsynced)
  {
    NoneFulfilled(hash, w, a);
    QuietTally(w.db.rebates, Next(hash, w, a).db.rebates, o, All);
    QuietTally(w.db.rebates, Next(hash, w, a).db.rebates, o, Unsynced);
  }

  /** No row becomes fulfilled, and fulfilled rows stay as they are. */
  ghost predicate NoneNewlyFulfilled(s: seq<Rebate>, s': seq<Rebate>) {
    |s| <= |s'|
    && (forall k :: 0 <= k < |s| ==>
          s'[k] == s[k] || (s[k].status != FulfilledTransSuccessful && s'[k].status != FulfilledTransSuccessful))
    && (forall k :: |s| <= k < |s'| ==> s'[k].status != FulfilledTransSuccessful)
  }

  lemma QuietTally(s: seq<Rebate>, s': seq<Rebate>, o: OfferId, which: Which)
    requires NoneNewlyFulfilled(s, s')
    ensures Tally(s', o, which) == Tally(s, o, which)
  {
    forall k | 0 <= k < |s| ensures Part(s'[k], o, which) == Part(s[k], o, which) {
      SamePart(s[k], s'[k], o, which);
    }
    forall k | |s| <= k < |s'| ensures Part(s'[k], o, which) == Sum(0, 0) {
      NoPart(s'[k], o, which);
    }
    SameTallies(s, which, s', which, |s|, o);
    TailIsNothing(s', |s|, |s'|, o, which);
  }

  lemma NoneFulfilled(hash: UserId -> int, w: World, a: Action)
    requires Base(hash, w) && !a.Sync? && forall id :: !SettlesAt(w, a, id)
    ensures NoneNewlyFulfilled(w.db.rebates, Next(hash, w, a).db.rebates)
  {
    if a.Work? && CanWork(w, a.i) {
      var p := w.runners[a.i].phase;
      if Settles(p, a.ok) { assert SettlesAt(w, a, p.sequel.rebate.id); }
      StepPayments(a.env, w.db, w.runners[a.i].queue[0], p, a.ok);
    }
  }

  /**
    * Whatever happens by day and however the offers interleave by night, an offer row's running total plus what is
    * fulfilled but not yet synced grows exactly by what is fulfilled.
    */
  lemma {:induction false} TotalsFollowFulfilments(
      hash: UserId -> int, d: Discipline, claims: RebateId -> UserId, s: Shop, eras: seq<Era>, k: nat)
    requires Healthy(hash, d, claims, s.world) && k < |s.offers| && forall e :: e in eras ==> Allowed(d, claims, e)
    ensures var b, b' := BooksOf(s), BooksOf(LiveAll(hash, s, eras)); var o := b.offers[k].offerId;
            |b'.offers| == |b.offers| && b'.offers[k].offerId == o
            && Plus(Plus(RunningTotal(b', k), Tally(b'.rebates, o, Unsynced)), Tally(b.rebates, o, All)) ==
               Plus(Plus(RunningTotal(b, k), Tally(b.rebates, o, Unsynced)), Tally(b'.rebates, o, All))
    ensures Healthy(hash, d, claims, LiveAll(hash, s, eras).world)
    decreases |eras|
  {
    if eras != [] {
      var next := Live(hash, s, eras[0]);
      assert eras[0] in eras;
      EraConserves(hash, d, claims, s, eras[0], k);
      TotalsFollowFulfilments(hash, d, claims, next, eras[1..], k);
    }
  }

  lemma EraConserves(hash: UserId -> int, d: Discipline, claims: RebateId -> UserId, s: Shop, e: Era, k: nat)
    requires Healthy(hash, d, claims, s.world) && k < |s.offers| && Allowed(d, claims, e)
    ensures var b, b' := BooksOf(s), BooksOf(Live(hash, s, e)); var o := b.offers[k].offerId;
            |b'.offers| == |b.offers| && b'.offers[k].offerId == o
            && Plus(Plus(RunningTotal(b', k), Tally(b'.rebates, o, Unsynced)), Tally(b.rebates, o, All)) ==
               Plus(Plus(RunningTotal(b, k), Tally(b.rebates, o, Unsynced)), Tally(b'.rebates, o, All))
    ensures Healthy(hash, d, claims, Live(hash, s, e).world)
  {
    var b, b' := BooksOf(s), BooksOf(Live(hash, s, e));
    match e {
      case Day(actions) =>
        DayProgresses(hash, d, claims, s.world, actions);
        OneEvent(b, Between(b'.rebates), k);
      case Night(criteria, halves) =>
        NightKeepsHealthy(hash, d, claims, s.world, b, halves);
        OneEvent(b, Event.Sync(criteria, halves), k);
    }
  }

  lemma OneEvent(b: Books, event: Event, k: nat)
    requires k < |b.offers| && Legal(b, event)
    ensures var b' := Happen(b, event); var o := b.offers[k].offerId;
            |b'.offers| == |b.offers| && b'.offers[k].offerId == o
            && Plus(Plus(RunningTotal(b', k), Tally(b'.rebates, o, Unsynced)), Tally(b.rebates, o, All)) ==
               Plus(Plus(RunningTotal(b, k), Tally(b.rebates, o, Unsynced)), Tally(b'.rebates, o, All))
  {
    var events := [event];
    assert events[1..] == [];
    TotalsAreConserved(b, events, k);
  }
}
