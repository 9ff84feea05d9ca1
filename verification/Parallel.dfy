/** Workers stepping in any order over an assigned batch do what one sequential pass does. */
module Parallel {
  import opened Domain
  import opened Store
  import opened Eligibility
  import opened RowSteps
  import opened Views

  /** The rows a worker still has to do, and how far it is in the first of them. */
  datatype Worker = Worker(queue: seq<Txn>, phase: Phase)

  datatype Batch = Batch(db: Db, workers: seq<Worker>)

  /** One access by one worker; nothing happens if it has no rows left. */
  function Advance(env: Env, b: Batch, w: nat): Batch {
    if w >= |b.workers| || b.workers[w].queue == [] then b else
    var Worker(queue, phase) := b.workers[w];
    var (db', p') := Step(env, b.db, queue[0], phase, true);
    Batch(db', b.workers[w := if p' == Done then Worker(queue[1..], Start) else Worker(queue, p')])
  }

  /** Any interleaving of the workers. */
  function Interleave(env: Env, b: Batch, schedule: seq<nat>): Batch
    decreases |schedule|
  {
    if schedule == [] then b else Interleave(env, Advance(env, b, schedule[0]), schedule[1..])
  }

  predicate AllDone(b: Batch) {
    forall w :: w in b.workers ==> w.queue == []
  }

  function RowsOf(u: UserId, rows: seq<Txn>): (r: seq<Txn>)
    ensures forall t :: t in r <==> t in rows && t.userId == u
  {
    if rows == [] then [] else (if rows[0].userId == u then [rows[0]] else []) + RowsOf(u, rows[1..])
  }

  ghost predicate RowsFit(own: Ownership, c: RebateId, db: Db, rows: seq<Txn>) {
    forall t :: t in rows ==> OwnedTxn(own, c, t) && RowOf(db, t, t.userId)
  }

  /** Each worker only holds rows of users assigned to it, and no id is shared between users. */
  ghost predicate Assigned(own: Ownership, c: RebateId, home: UserId -> nat, b: Batch) {
    Owned(own, c, b.db)
    && (forall u :: home(u) < |b.workers|)
    && (forall w :: 0 <= w < |b.workers| ==>
          RowsFit(own, c, b.db, b.workers[w].queue)
          && (forall t :: t in b.workers[w].queue ==> home(t.userId) == w)
          && b.workers[w].phase != Done
          && (b.workers[w].queue != [] ==> Remembers(own, b.db, b.workers[w].queue[0], b.workers[w].phase)))
  }

  // ---- Whole rows ----

  lemma {:induction false} FinishKeepsOwned(env: Env, own: Ownership, c: RebateId, db: Db, t: Txn, p: Phase)
    requires Owned(own, c, db) && OwnedTxn(own, c, t) && RowOf(db, t, t.userId) && Remembers(own, db, t, p)
    ensures var db' := FinishRow(env, db, t, p);
            Owned(own, c, db') && (forall x, u :: RowOf(db, x, u) ==> RowOf(db', x, u))
    decreases Stage(p), Size(p)
  {
    if p != Done {
      StepProgress(env, db, t, p, true);
      StepKeepsOwned(env, own, c, db, t, p);
      StepRemembers(env, own, c, db, t, p);
      var (db', p') := Step(env, db, t, p, true);
      FinishKeepsOwned(env, own, c, db', t, p');
    }
  }

  lemma {:induction false} FinishCongruent(env: Env, own: Ownership, c: RebateId, a: Db, b: Db, t: Txn, p: Phase)
    requires Owned(own, c, a) && Owned(own, c, b) && OwnedTxn(own, c, t)
    requires RowOf(a, t, t.userId) && RowOf(b, t, t.userId) && Remembers(own, a, t, p) && Remembers(own, b, t, p)
    requires View(t.userId, c, a) == View(t.userId, c, b)
    ensures View(t.userId, c, FinishRow(env, a, t, p)) == View(t.userId, c, FinishRow(env, b, t, p))
    decreases Stage(p), Size(p)
  {
    if p != Done {
      StepProgress(env, a, t, p, true);
      StepCongruent(env, own, c, a, b, t, p);
      StepKeepsOwned(env, own, c, a, t, p);
      StepKeepsOwned(env, own, c, b, t, p);
      StepRemembers(env, own, c, a, t, p);
      StepRemembers(env, own, c, b, t, p);
      FinishCongruent(env, own, c, Step(env, a, t, p, true).0, Step(env, b, t, p, true).0, t, Step(env, a, t, p, true).1);
    }
  }

  lemma {:induction false} FinishFrame(env: Env, own: Ownership, c: RebateId, db: Db, t: Txn, p: Phase, v: UserId)
    requires Owned(own, c, db) && OwnedTxn(own, c, t) && RowOf(db, t, t.userId) && Remembers(own, db, t, p)
    requires v != t.userId
    ensures View(v, c, FinishRow(env, db, t, p)) == View(v, c, db)
    decreases Stage(p), Size(p)
  {
    if p != Done {
      StepProgress(env, db, t, p, true);
      StepFrame(env, own, c, db, t, p, v);
      StepKeepsOwned(env, own, c, db, t, p);
      StepRemembers(env, own, c, db, t, p);
      var (db', p') := Step(env, db, t, p, true);
      FinishFrame(env, own, c, db', t, p', v);
    }
  }

  lemma {:induction false} RunRowsCongruent(env: Env, own: Ownership, c: RebateId, a: Db, b: Db, rows: seq<Txn>, u: UserId)
    requires Owned(own, c, a) && Owned(own, c, b) && RowsFit(own, c, a, rows) && RowsFit(own, c, b, rows)
    requires forall t :: t in rows ==> t.userId == u
    requires View(u, c, a) == View(u, c, b)
    ensures View(u, c, RunRows(env, a, rows)) == View(u, c, RunRows(env, b, rows))
    decreases |rows|
  {
    if rows != [] {
      var t := rows[0];
      FinishCongruent(env, own, c, a, b, t, Start);
      FinishKeepsOwned(env, own, c, a, t, Start);
      FinishKeepsOwned(env, own, c, b, t, Start);
      RunRowsCongruent(env, own, c, RunRow(env, a, t), RunRow(env, b, t), rows[1..], u);
    }
  }

  /** A sequential pass shows each user the outcome of that user's own rows. */
  lemma {:induction false} SequentialView(env: Env, own: Ownership, c: RebateId, db: Db, order: seq<Txn>, u: UserId)
    requires Owned(own, c, db) && RowsFit(own, c, db, order)
    ensures View(u, c, RunRows(env, db, order)) == View(u, c, RunRows(env, db, RowsOf(u, order)))
    decreases |order|
  {
    if order != [] {
      var t, rest := order[0], order[1..];
      var next := RunRow(env, db, t);
      FinishKeepsOwned(env, own, c, db, t, Start);
      SequentialView(env, own, c, next, rest, u);
      var mine := RowsOf(u, rest);
      if t.userId == u {
        assert RowsOf(u, order) == [t] + mine;
        assert ([t] + mine)[1..] == mine;
      } else {
        assert RowsOf(u, order) == [] + mine == mine;
        FinishFrame(env, own, c, db, t, Start, u);
        RunRowsCongruent(env, own, c, next, db, mine, u);
      }
    }
  }

  // ---- What is still going to happen to one user ----

  /** The database once the rest of the user's rows at this worker have run, alone, from here. */
  function Remaining(env: Env, db: Db, w: Worker, u: UserId): Db {
    if w.queue != [] && w.queue[0].userId == u
    then RunRows(env, FinishRow(env, db, w.queue[0], w.phase), RowsOf(u, w.queue[1..]))
    else RunRows(env, db, RowsOf(u, w.queue))
  }

  lemma RemainingAtStart(env: Env, db: Db, queue: seq<Txn>, u: UserId)
    ensures Remaining(env, db, Worker(queue, Start), u) == RunRows(env, db, RowsOf(u, queue))
  {
    if queue != [] && queue[0].userId == u {
      var rest := RowsOf(u, queue[1..]);
      assert RowsOf(u, queue) == [queue[0]] + rest;
      assert ([queue[0]] + rest)[1..] == rest;
    }
  }

  lemma RemainingCongruent(env: Env, own: Ownership, c: RebateId, a: Db, b: Db, w: Worker, u: UserId)
    requires Owned(own, c, a) && Owned(own, c, b) && RowsFit(own, c, a, w.queue) && RowsFit(own, c, b, w.queue)
    requires w.queue != [] ==> Remembers(own, a, w.queue[0], w.phase) && Remembers(own, b, w.queue[0], w.phase)
    requires View(u, c, a) == View(u, c, b)
    ensures View(u, c, Remaining(env, a, w, u)) == View(u, c, Remaining(env, b, w, u))
  {
    if w.queue != [] && w.queue[0].userId == u {
      var t := w.queue[0];
      FinishCongruent(env, own, c, a, b, t, w.phase);
      FinishKeepsOwned(env, own, c, a, t, w.phase);
      FinishKeepsOwned(env, own, c, b, t, w.phase);
      RunRowsCongruent(env, own, c, FinishRow(env, a, t, w.phase), FinishRow(env, b, t, w.phase), RowsOf(u, w.queue[1..]), u);
    } else {
      RunRowsCongruent(env, own, c, a, b, RowsOf(u, w.queue), u);
    }
  }

  lemma RemembersOnlyRows(own: Ownership, a: Db, b: Db, t: Txn, p: Phase)
    requires Remembers(own, a, t, p) && forall x, u :: RowOf(a, x, u) ==> RowOf(b, x, u)
    ensures Remembers(own, b, t, p)
  {
  }

  lemma AdvanceKeepsAssigned(env: Env, own: Ownership, c: RebateId, home: UserId -> nat, b: Batch, w: nat)
    requires Assigned(own, c, home, b)
    ensures Assigned(own, c, home, Advance(env, b, w))
  {
    if w < |b.workers| && b.workers[w].queue != [] {
      var Worker(queue, phase) := b.workers[w];
      var t := queue[0];
      assert t in queue;
      StepKeepsOwned(env, own, c, b.db, t, phase);
      StepRemembers(env, own, c, b.db, t, phase);
      var b' := Advance(env, b, w);
      forall i | 0 <= i < |b'.workers|
        ensures RowsFit(own, c, b'.db, b'.workers[i].queue)
        ensures forall x :: x in b'.workers[i].queue ==> home(x.userId) == i
        ensures b'.workers[i].phase != Done
        ensures b'.workers[i].queue != [] ==> Remembers(own, b'.db, b'.workers[i].queue[0], b'.workers[i].phase)
      {
        assert forall x :: x in b'.workers[i].queue ==> x in b.workers[i].queue;
        if i != w && b.workers[i].queue != [] {
          RemembersOnlyRows(own, b.db, b'.db, b.workers[i].queue[0], b.workers[i].phase);
        }
      }
    }
  }

  lemma OwnStepKeepsFuture(env: Env, db: Db, queue: seq<Txn>, phase: Phase, u: UserId)
    requires queue != [] && queue[0].userId == u && phase != Done
    ensures var (db', p') := Step(env, db, queue[0], phase, true);
            var w' := if p' == Done then Worker(queue[1..], Start) else Worker(queue, p');
            Remaining(env, db', w', u) == Remaining(env, db, Worker(queue, phase), u)
  {
    var (db', p') := Step(env, db, queue[0], phase, true);
    assert FinishRow(env, db, queue[0], phase) == FinishRow(env, db', queue[0], p');
    if p' == Done {
      RemainingAtStart(env, db', queue[1..], u);
    }
  }

  /** Whoever steps, what is going to happen to a user's part of the database does not change. */
  lemma AdvanceKeepsFuture(env: Env, own: Ownership, c: RebateId, home: UserId -> nat, b: Batch, w: nat, u: UserId)
    requires Assigned(own, c, home, b)
    ensures var b' := Advance(env, b, w);
            View(u, c, Remaining(env, b'.db, b'.workers[home(u)], u)) ==
            View(u, c, Remaining(env, b.db, b.workers[home(u)], u))
  {
    if w < |b.workers| && b.workers[w].queue != [] {
      var Worker(queue, phase) := b.workers[w];
      var t, b' := queue[0], Advance(env, b, w);
      assert t in queue;
      if t.userId == u {
        OwnStepKeepsFuture(env, b.db, queue, phase, u);
      } else {
        RemainingAtStart(env, b'.db, queue[1..], u);
        StepFrame(env, own, c, b.db, t, phase, u);
        assert RowsOf(u, queue) == [] + RowsOf(u, queue[1..]) == RowsOf(u, queue[1..]);
        var h := b.workers[home(u)];
        StepKeepsOwned(env, own, c, b.db, t, phase);
        if h.queue != [] { RemembersOnlyRows(own, b.db, b'.db, h.queue[0], h.phase); }
        RemainingCongruent(env, own, c, b.db, b'.db, h, u);
      }
    }
  }

  lemma {:induction false} InterleavedView(
      env: Env, own: Ownership, c: RebateId, home: UserId -> nat, b: Batch, schedule: seq<nat>, u: UserId)
    requires Assigned(own, c, home, b)
    ensures var b' := Interleave(env, b, schedule);
            Assigned(own, c, home, b')
            && View(u, c, Remaining(env, b'.db, b'.workers[home(u)], u)) ==
               View(u, c, Remaining(env, b.db, b.workers[home(u)], u))
    decreases |schedule|
  {
    if schedule != [] {
      AdvanceKeepsAssigned(env, own, c, home, b, schedule[0]);
      AdvanceKeepsFuture(env, own, c, home, b, schedule[0], u);
      InterleavedView(env, own, c, home, Advance(env, b, schedule[0]), schedule[1..], u);
    }
  }

  // ---- A batch can always be finished ----

  lemma {:induction false} InterleaveOn(env: Env, b: Batch, first: seq<nat>, later: seq<nat>)
    ensures Interleave(env, b, first + later) == Interleave(env, Interleave(env, b, first), later)
    decreases |first|
  {
    if first == [] {
      assert first + later == later;
    } else {
      assert (first + later)[1..] == first[1..] + later;
      InterleaveOn(env, Advance(env, b, first[0]), first[1..], later);
    }
  }

  lemma {:induction false} WorkerCanFinish(env: Env, b: Batch, w: nat) returns (schedule: seq<nat>)
    requires w < |b.workers|
    ensures var b' := Interleave(env, b, schedule);
            |b'.workers| == |b.workers| && b'.workers[w].queue == []
            && forall v :: 0 <= v < |b.workers| && v != w ==> b'.workers[v] == b.workers[v]
    decreases |b.workers[w].queue|, Stage(b.workers[w].phase), Size(b.workers[w].phase)
  {
    if b.workers[w].queue == [] {
      schedule := [];
    } else {
      var Worker(queue, phase) := b.workers[w];
      if phase != Done { StepProgress(env, b.db, queue[0], phase, true); }
      var rest := WorkerCanFinish(env, Advance(env, b, w), w);
      schedule := [w] + rest;
      InterleaveOn(env, b, [w], rest);
      assert Interleave(env, b, [w]) == Advance(env, b, w);
    }
  }

  /** From anywhere in a batch some interleaving finishes it. */
  lemma {:induction false} BatchCanFinish(env: Env, b: Batch, n: nat) returns (schedule: seq<nat>)
    requires n <= |b.workers|
    ensures var b' := Interleave(env, b, schedule);
            |b'.workers| == |b.workers| && (forall v :: 0 <= v < n ==> b'.workers[v].queue == [])
            && (n == |b.workers| ==> AllDone(b'))
    decreases n
  {
    if n == 0 {
      schedule := [];
    } else {
      var first := BatchCanFinish(env, b, n - 1);
      var last := WorkerCanFinish(env, Interleave(env, b, first), n - 1);
      InterleaveOn(env, b, first, last);
      schedule := first + last;
    }
  }

  // ---- What every access uses up ----

  function RowsLeft(workers: seq<Worker>): nat {
    if workers == [] then 0 else RowsLeft(workers[..|workers| - 1]) + |workers[|workers| - 1].queue|
  }

  function StagesLeft(workers: seq<Worker>): nat {
    if workers == [] then 0 else StagesLeft(workers[..|workers| - 1]) + Stage(workers[|workers| - 1].phase)
  }

  function ReportsLeft(workers: seq<Worker>): nat {
    if workers == [] then 0 else ReportsLeft(workers[..|workers| - 1]) + Size(workers[|workers| - 1].phase)
  }

  lemma {:induction false} LeftAfterUpdate(s: seq<Worker>, w: nat, x: Worker)
    requires w < |s|
    ensures RowsLeft(s[w := x]) == RowsLeft(s) - |s[w].queue| + |x.queue|
    ensures StagesLeft(s[w := x]) == StagesLeft(s) - Stage(s[w].phase) + Stage(x.phase)
    ensures ReportsLeft(s[w := x]) == ReportsLeft(s) - Size(s[w].phase) + Size(x.phase)
  {
    var n := |s| - 1;
    if w == n {
      assert s[w := x][..n] == s[..n];
    } else {
      LeftAfterUpdate(s[..n], w, x);
      assert s[w := x][..n] == s[..n][w := x];
    }
  }

  /** Less is left to do: fewer rows, or earlier stages of as many, or less to report in the same stages. */
  predicate LessLeft(s: seq<Worker>, s': seq<Worker>) {
    RowsLeft(s) < RowsLeft(s')
    || (RowsLeft(s) == RowsLeft(s') && StagesLeft(s) < StagesLeft(s'))
    || (RowsLeft(s) == RowsLeft(s') && StagesLeft(s) == StagesLeft(s') && ReportsLeft(s) < ReportsLeft(s'))
  }

  lemma AdvanceLeavesLess(env: Env, b: Batch, w: nat)
    requires w < |b.workers| && b.workers[w].queue != []
    ensures LessLeft(Advance(env, b, w).workers, b.workers)
  {
    var Worker(queue, phase) := b.workers[w];
    var p' := Step(env, b.db, queue[0], phase, true).1;
    if phase != Done { StepProgress(env, b.db, queue[0], phase, true); }
    LeftAfterUpdate(b.workers, w, if p' == Done then Worker(queue[1..], Start) else Worker(queue, p'));
  }

  /** Somebody who has rows left makes an access. */
  predicate SomebodyWorks(b: Batch, schedule: seq<nat>) {
    exists w :: w in schedule && w < |b.workers| && b.workers[w].queue != []
  }

  lemma {:induction false} WorkLeavesLess(env: Env, b: Batch, schedule: seq<nat>)
    ensures var end := Interleave(env, b, schedule).workers;
            (end == b.workers || LessLeft(end, b.workers)) && (SomebodyWorks(b, schedule) ==> LessLeft(end, b.workers))
    decreases |schedule|
  {
    if schedule != [] {
      var w, rest := schedule[0], schedule[1..];
      WorkLeavesLess(env, Advance(env, b, w), rest);
      if w < |b.workers| && b.workers[w].queue != [] {
        AdvanceLeavesLess(env, b, w);
      } else {
        assert schedule == [w] + rest;
      }
    }
  }

  lemma {:induction false} NothingToDo(env: Env, b: Batch, schedule: seq<nat>)
    requires AllDone(b)
    ensures Interleave(env, b, schedule) == b
    decreases |schedule|
  {
    if schedule != [] {
      assert schedule[0] < |b.workers| ==> b.workers[schedule[0]] in b.workers;
      NothingToDo(env, b, schedule[1..]);
    }
  }
}
