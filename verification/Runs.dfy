/** Batches are runs of the whole system in which the workers are restarted, loaded, and make successful accesses. */
module Runs {
  import opened Domain
  import opened Store
  import opened Eligibility
  import opened RowSteps
  import opened Assignment
  import opened Parallel
  import opened Batches
  import W = World

  ghost predicate Corresponds(w: W.World, b: Batch) {
    w.db == b.db && |w.runners| == |b.workers|
    && forall i :: 0 <= i < |b.workers| ==> w.runners[i] == W.Running(b.workers[i].queue, b.workers[i].phase)
  }

  /** A successful access by each worker of the schedule in turn. */
  function Accesses(env: Env, schedule: seq<nat>): seq<W.Action> {
    seq(|schedule|, k requires 0 <= k < |schedule| => W.Work(schedule[k], env, true))
  }

  lemma OneAccess(hash: UserId -> int, env: Env, w: W.World, b: Batch, i: nat)
    requires Corresponds(w, b)
    ensures Corresponds(W.Next(hash, w, W.Work(i, env, true)), Advance(env, b, i))
  {
  }

  /** Interleaving workers of a batch is running the system. */
  lemma {:induction false} RunIsInterleaving(hash: UserId -> int, env: Env, w: W.World, b: Batch, schedule: seq<nat>)
    requires Corresponds(w, b)
    ensures Corresponds(W.Run(hash, w, Accesses(env, schedule)), Interleave(env, b, schedule))
    decreases |schedule|
  {
    if schedule != [] {
      OneAccess(hash, env, w, b, schedule[0]);
      assert Accesses(env, schedule)[1..] == Accesses(env, schedule[1..]);
      RunIsInterleaving(
        hash, env, W.Next(hash, w, W.Work(schedule[0], env, true)), Advance(env, b, schedule[0]), schedule[1..]);
    }
  }

  /** The tables with no worker and no export under way. */
  function Resting(db: Db): W.World {
    W.World(db, [], W.Idle, [])
  }

  /** The first k workers have read their lists, the others have not. */
  function LoadedTo(db: Db, hash: UserId -> int, lists: seq<seq<Txn>>, k: nat): W.World
    requires |lists| > 0
  {
    W.World(AssignWorkers(db, hash, |lists|),
            seq(|lists|, i requires 0 <= i < |lists| => if i < k then W.Running(lists[i], Start) else W.Waiting), W.Idle, [])
  }

  lemma OneLoad(hash: UserId -> int, db: Db, lists: seq<seq<Txn>>, k: nat)
    requires |lists| > 0 && Loaded(db, hash, lists) && k < |lists|
    ensures W.Next(hash, LoadedTo(db, hash, lists, k), W.Load(k, lists[k])) == LoadedTo(db, hash, lists, k + 1)
  {
    assert LoadedTo(db, hash, lists, k).runners[k := W.Running(lists[k], Start)] == LoadedTo(db, hash, lists, k + 1).runners;
  }

  lemma RestartIsLoadedToNone(hash: UserId -> int, db: Db, lists: seq<seq<Txn>>)
    requires |lists| > 0
    ensures W.Next(hash, Resting(db), W.Restart(|lists|)) == LoadedTo(db, hash, lists, 0)
  {
    assert W.Next(hash, Resting(db), W.Restart(|lists|)).runners == LoadedTo(db, hash, lists, 0).runners;
  }

  lemma LoadedToAllIsStarted(hash: UserId -> int, db: Db, lists: seq<seq<Txn>>)
    requires |lists| > 0
    ensures Corresponds(LoadedTo(db, hash, lists, |lists|), Started(db, hash, lists))
  {
  }

  function Loads(lists: seq<seq<Txn>>, k: nat): seq<W.Action>
    requires k <= |lists|
  {
    seq(|lists| - k, i requires 0 <= i < |lists| - k => W.Load(k + i, lists[k + i]))
  }

  lemma {:induction false} RunLoads(hash: UserId -> int, db: Db, lists: seq<seq<Txn>>, k: nat)
    requires |lists| > 0 && Loaded(db, hash, lists) && k <= |lists|
    ensures W.Run(hash, LoadedTo(db, hash, lists, k), Loads(lists, k)) == LoadedTo(db, hash, lists, |lists|)
    decreases |lists| - k
  {
    if k < |lists| {
      OneLoad(hash, db, lists, k);
      assert Loads(lists, k)[1..] == Loads(lists, k + 1);
      RunLoads(hash, db, lists, k + 1);
    }
  }

  lemma {:induction false} RunOn(hash: UserId -> int, w: W.World, first: seq<W.Action>, later: seq<W.Action>)
    ensures W.Run(hash, w, first + later) == W.Run(hash, W.Run(hash, w, first), later)
    decreases |first|
  {
    if first == [] {
      assert first + later == later;
    } else {
      assert (first + later)[1..] == first[1..] + later;
      RunOn(hash, W.Next(hash, w, first[0]), first[1..], later);
    }
  }

  /** Restart, load all lists, then make the accesses of the schedule. */
  function BatchActions(env: Env, lists: seq<seq<Txn>>, schedule: seq<nat>): seq<W.Action> {
    [W.Restart(|lists|)] + (Loads(lists, 0) + Accesses(env, schedule))
  }

  /** So every interleaving of an assigned batch is a run of the system, and what holds over all runs holds of it. */
  lemma BatchIsRun(hash: UserId -> int, env: Env, db: Db, lists: seq<seq<Txn>>, schedule: seq<nat>)
    requires |lists| > 0 && Loaded(db, hash, lists)
    ensures Corresponds(W.Run(hash, Resting(db), BatchActions(env, lists, schedule)),
                        Interleave(env, Started(db, hash, lists), schedule))
  {
    var rest := Loads(lists, 0) + Accesses(env, schedule);
    assert BatchActions(env, lists, schedule)[1..] == rest;
    RestartIsLoadedToNone(hash, db, lists);
    RunOn(hash, LoadedTo(db, hash, lists, 0), Loads(lists, 0), Accesses(env, schedule));
    RunLoads(hash, db, lists, 0);
    LoadedToAllIsStarted(hash, db, lists);
    RunIsInterleaving(hash, env, LoadedTo(db, hash, lists, |lists|), Started(db, hash, lists), schedule);
  }

  /** A row that has arrived is on the list of exactly one worker of the next batch, that of its user. */
  lemma ArrivedIsAssigned(hash: UserId -> int, w: W.World, t: Txn, n: nat, p: int, rows: seq<Txn>)
    requires n > 0 && Numbered(w.db) && W.CanArrive(w.db, t)
    requires IsPendingList(W.Run(hash, w, [W.Arrive(t), W.Restart(n)]).db, p, rows)
    ensures var home := Processor(hash(t.userId), n);
            t.(processor := Some(home)) in rows <==> p == home
  {
    var next := W.Next(hash, w, W.Arrive(t));
    assert [W.Arrive(t), W.Restart(n)][1..] == [W.Restart(n)] && [W.Restart(n)][1..] == [];
    var placed := t.(processor := Some(Processor(hash(t.userId), n)));
    assert AssignWorkers(next.db, hash, n).txns[|w.db.txns|] == placed;
    var actions := [W.Arrive(t), W.Restart(n)];
    assert W.Run(hash, w, actions) == W.Run(hash, next, actions[1..]) == W.Next(hash, next, W.Restart(n));
    AssignmentPartitions(next.db, hash, n, placed);
  }
}
