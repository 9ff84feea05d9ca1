/** The redemption limit over all runs: interleavings, failed updates and inserts, crashes and reruns. */
module Limits {
  import opened Domain
  import opened Store
  import opened Eligibility
  import opened RowSteps
  import opened World

  lemma {:induction false} UpdatesKeepRedeemed(s: seq<Rebate>, up: RebateUpdate, u: UserId, o: OfferId, card: Option<CardNo>)
    ensures Redeemed(UpdateRebates(s, up), u, o, card) == Redeemed(s, u, o, card)
  {
    if s != [] {
      var n := |s| - 1;
      UpdatesKeepRedeemed(s[..n], up, u, o, card);
      assert UpdateRebates(s, up)[..n] == UpdateRebates(s[..n], up);
    }
  }

  predicate KeyMatches(t: Txn, u: UserId, o: OfferId, card: Option<CardNo>) {
    t.userId == u && t.offerId == o && (card.Some? ==> t.card == card.value)
  }

  lemma StepRedeemed(env: Env, db: Db, t: Txn, p: Phase, ok: bool, u: UserId, o: OfferId, card: Option<CardNo>)
    ensures Redeemed(Step(env, db, t, p, ok).0.rebates, u, o, card) == Redeemed(db.rebates, u, o, card) +
            if ok && p.Acting? && p.sequel.Issue? && KeyMatches(t, u, o, card) then 1 else 0
  {
    match p
    case Acting(Issue(amount, unit)) =>
      var r := NewRebate(|db.rebates|, t, amount, unit);
      assert (db.rebates + [r])[..|db.rebates|] == db.rebates;
    case Acting(Settle(r)) =>
      UpdatesKeepRedeemed(db.rebates, Settled(r.id, t.txnId, t.amount, t.id), u, o, card);
    case _ =>
  }

  /** Past the limit check and on the way to a rebate. */
  predicate Cleared(p: Phase) {
    p.LimitSeen? || (p.Marking? && p.sequel.Issue?) || (p.Acting? && p.sequel.Issue?)
  }

  /** In every access the offer has this limit, per card exactly when a card is given. */
  ghost predicate SameTerms(a: Action, o: OfferId, card: Option<CardNo>, limit: int) {
    a.Work? && o in a.env.offers ==>
      a.env.offers[o].redemptionLimit == limit && (a.env.offers[o].limitType == PerCard <==> card.Some?)
  }

  /** At most `bound` rebates, and room for one more wherever a row of the same user and offer has been cleared. */
  ghost predicate WithinLimit(w: World, u: UserId, o: OfferId, card: Option<CardNo>, bound: int) {
    Redeemed(w.db.rebates, u, o, card) <= bound
    && forall i :: 0 <= i < |w.runners| && CanWork(w, i) && Cleared(w.runners[i].phase)
                   && KeyMatches(w.runners[i].queue[0], u, o, card)
                   ==> Redeemed(w.db.rebates, u, o, card) < bound
  }

  /** Passing the limit check means being under the limit. */
  lemma ScreenedIsUnderLimit(env: Env, db: Db, t: Txn)
    requires FirstFailing(SCREENING, env, db, t).None?
    ensures t.offerId in env.offers
    ensures env.offers[t.offerId].redemptionLimit == 0
            || Redeemed(db.rebates, t.userId, t.offerId, LimitCard(env.offers[t.offerId], t))
                 < env.offers[t.offerId].redemptionLimit
  {
    FirstOfMember(SCREENING, (c: Check) => !Holds(c, env, db, t));
    assert UnderLimit in SCREENING;
    assert Holds(UnderLimit, env, db, t);
  }

  lemma ClearedStep(env: Env, db: Db, t: Txn, p: Phase, ok: bool)
    requires Cleared(Step(env, db, t, p, ok).1)
    ensures Cleared(p) || (ok && p.Start? && FirstFailing(SCREENING, env, db, t).None?)
    ensures !(p.Acting? && p.sequel.Issue?)
  {
  }

  lemma WorkKeepsLimit(
      hash: UserId -> int, w: World, i: nat, env: Env, ok: bool,
      u: UserId, o: OfferId, card: Option<CardNo>, limit: int, bound: int)
    requires Base(hash, w) && CanWork(w, i)
    requires limit != 0 && limit <= bound && SameTerms(Work(i, env, ok), o, card, limit)
    requires WithinLimit(w, u, o, card, bound)
    ensures WithinLimit(Worked(w, i, env, ok), u, o, card, bound)
  {
    var Running(queue, phase) := w.runners[i];
    var w', t := Worked(w, i, env, ok), queue[0];
    assert t in queue;
    StepRedeemed(env, w.db, t, phase, ok, u, o, card);
    forall j | 0 <= j < |w'.runners| && CanWork(w', j) && Cleared(w'.runners[j].phase)
               && KeyMatches(w'.runners[j].queue[0], u, o, card)
      ensures Redeemed(w'.db.rebates, u, o, card) < bound
    {
      if j == i {
        assert w'.runners[j].queue == queue;
        ClearedStep(env, w.db, t, phase, ok);
        if !Cleared(phase) {
          ScreenedIsUnderLimit(env, w.db, t);
        }
      } else {
        assert w'.runners[j] == w.runners[j] && CanWork(w, j);
        var x := w.runners[j].queue[0];
        assert x in w.runners[j].queue;
        OneUserOneWorker(hash, w, i, j, t, x);
      }
    }
  }

  lemma NextKeepsLimit(
      hash: UserId -> int, w: World, a: Action, u: UserId, o: OfferId, card: Option<CardNo>, limit: int, bound: int)
    requires Base(hash, w) && limit != 0 && limit <= bound && SameTerms(a, o, card, limit)
    requires WithinLimit(w, u, o, card, bound)
    ensures WithinLimit(Next(hash, w, a), u, o, card, bound)
  {
    var w' := Next(hash, w, a);
    if a.Work? {
      if CanWork(w, a.i) {
        WorkKeepsLimit(hash, w, a.i, a.env, a.ok, u, o, card, limit, bound);
      }
    } else {
      RebatesOnlyUpdated(hash, w, a, u, o, card);
      forall j | 0 <= j < |w'.runners| && CanWork(w', j) && Cleared(w'.runners[j].phase)
        ensures j < |w.runners| && w'.runners[j] == w.runners[j]
      {
      }
    }
  }

  lemma RebatesOnlyUpdated(hash: UserId -> int, w: World, a: Action, u: UserId, o: OfferId, card: Option<CardNo>)
    requires !a.Work?
    ensures Redeemed(Next(hash, w, a).db.rebates, u, o, card) == Redeemed(w.db.rebates, u, o, card)
  {
    UpdatesKeepRedeemed(w.db.rebates, ExtractionBegun, u, o, card);
    UpdatesKeepRedeemed(w.db.rebates, ExtractionEnded, u, o, card);
    UpdatesKeepRedeemed(w.db.rebates, ExtractionReset, u, o, card);
    if a.Sync? { UpdatesKeepRedeemed(w.db.rebates, MopSynced(a.offer), u, o, card); }
  }

  lemma {:induction false} RunKeepsLimit(
      hash: UserId -> int, w: World, actions: seq<Action>,
      u: UserId, o: OfferId, card: Option<CardNo>, limit: int, bound: int)
    requires Base(hash, w) && WithinLimit(w, u, o, card, bound)
    requires limit != 0 && limit <= bound && forall a :: a in actions ==> SameTerms(a, o, card, limit)
    ensures WithinLimit(Run(hash, w, actions), u, o, card, bound)
    decreases |actions|
  {
    if actions != [] {
      NextKeepsBase(hash, w, actions[0]);
      NextKeepsLimit(hash, w, actions[0], u, o, card, limit, bound);
      RunKeepsLimit(hash, Next(hash, w, actions[0]), actions[1..], u, o, card, limit, bound);
    }
  }

  /**
    * The number of rebates of a user for an offer (on one card, for a per-card limit) never exceeds the larger of
    * the initial number and the limit, whatever the workers, failures, crashes and reruns.
    */
  lemma RedemptionLimitHolds(
      hash: UserId -> int, w: World, actions: seq<Action>, u: UserId, o: OfferId, card: Option<CardNo>, limit: int)
    requires Base(hash, w) && w.runners == []
    requires limit != 0 && forall a :: a in actions ==> SameTerms(a, o, card, limit)
    ensures var s, s' := w.db.rebates, Run(hash, w, actions).db.rebates;
            var before := |set i: nat | i < |s| && s[i].userId == u && s[i].offerId == o
                                        && (card.Some? ==> s[i].card == card.value)|;
            |set i: nat | i < |s'| && s'[i].userId == u && s'[i].offerId == o && (card.Some? ==> s'[i].card == card.value)|
              <= if before >= limit then before else limit
  {
    var before := Redeemed(w.db.rebates, u, o, card);
    RedeemedIsSize(w.db.rebates, u, o, card);
    RedeemedIsSize(Run(hash, w, actions).db.rebates, u, o, card);
    RunKeepsLimit(hash, w, actions, u, o, card, limit, if before >= limit then before else limit);
  }
}
