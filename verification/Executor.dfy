/** The workers of one run (reviewBatches, internal/coordinator/coordinator.go):
    one per batch that needs a session, all started at once, and a semaphore that
    lets at most `limit` of them review at a time. A worker writes only its own
    slot. A schedule is the sequence of workers the runtime lets step. */
module Executor {
  import opened Domain

  // Idle workers were never started: their batch is replayed or over the budget.
  datatype Phase = Idle | Waiting | Reviewing | Delivered | Finished

  datatype Pool<+R> = Pool(phases: seq<Phase>, slots: seq<Option<R>>)

  // What is fixed before any worker starts.
  datatype Jobs<+R> = Jobs(run: seq<bool>, slots: seq<Option<R>>, replies: seq<R>, limit: nat)

  predicate WellFormed<R>(jobs: Jobs<R>) {
    |jobs.run| == |jobs.slots| == |jobs.replies|
  }

  function Opened<R>(jobs: Jobs<R>): Pool<R> {
    Pool(seq(|jobs.run|, i requires 0 <= i < |jobs.run| => if jobs.run[i] then Waiting else Idle), jobs.slots)
  }

  predicate HoldsSlot(p: Phase) {
    p == Reviewing || p == Delivered
  }

  /** How many workers hold the semaphore. */
  function Holders(phases: seq<Phase>): (n: nat)
    ensures n <= |phases|
  {
    if |phases| == 0 then 0
    else Holders(phases[..|phases| - 1]) + if HoldsSlot(phases[|phases| - 1]) then 1 else 0
  }

  predicate CanMove<R>(p: Pool<R>, limit: nat, i: nat) {
    && i < |p.phases|
    && match p.phases[i]
       case Waiting => Holders(p.phases) < limit
       case Reviewing | Delivered => true
       case Idle | Finished => false
  }

  // Acquire the semaphore, write the reply into the own slot, release.
  function Move<R>(p: Pool<R>, jobs: Jobs<R>, i: nat): Pool<R>
    requires CanMove(p, jobs.limit, i) && i < |jobs.replies| && i < |p.slots|
  {
    match p.phases[i]
    case Waiting => p.(phases := p.phases[i := Reviewing])
    case Reviewing => Pool(p.phases[i := Delivered], p.slots[i := Some(jobs.replies[i])])
    case Delivered => p.(phases := p.phases[i := Finished])
  }

  predicate AllDone(phases: seq<Phase>) {
    forall i :: 0 <= i < |phases| ==> phases[i] == Idle || phases[i] == Finished
  }

  /** What running the batches one by one leaves in the slots. */
  function OneByOne<R>(jobs: Jobs<R>): seq<Option<R>>
    requires WellFormed(jobs)
  {
    seq(|jobs.run|, i requires 0 <= i < |jobs.run| => if jobs.run[i] then Some(jobs.replies[i]) else jobs.slots[i])
  }

  // ----- Schedules -----

  ghost predicate Consistent<R>(p: Pool<R>, jobs: Jobs<R>) {
    && WellFormed(jobs) && |p.phases| == |p.slots| == |jobs.run|
    && Holders(p.phases) <= jobs.limit
    && forall i :: 0 <= i < |jobs.run| ==>
         && (p.phases[i] == Idle <==> !jobs.run[i])
         && p.slots[i] == if p.phases[i] in {Delivered, Finished} then Some(jobs.replies[i]) else jobs.slots[i]
  }

  /** Where a schedule leads, or nothing when some worker in it could not step. */
  function Reached<R>(jobs: Jobs<R>, schedule: seq<nat>): Option<Pool<R>> {
    if |schedule| == 0 then Some(Opened(jobs))
    else
      var before, i := Reached(jobs, schedule[..|schedule| - 1]), schedule[|schedule| - 1];
      if before.None? || !CanMove(before.value, jobs.limit, i) || i >= |jobs.replies| || i >= |before.value.slots|
      then None
      else Some(Move(before.value, jobs, i))
  }

  lemma {:induction false} NoneHold(phases: seq<Phase>)
    requires forall i :: 0 <= i < |phases| ==> !HoldsSlot(phases[i])
    ensures Holders(phases) == 0
  {
    if |phases| > 0 { NoneHold(phases[..|phases| - 1]); }
  }

  lemma OpenedIsConsistent<R>(jobs: Jobs<R>)
    requires WellFormed(jobs)
    ensures Consistent(Opened(jobs), jobs)
  {
    NoneHold(Opened(jobs).phases);
  }

  lemma {:induction false} HoldersUpdate(phases: seq<Phase>, i: nat, p: Phase)
    requires i < |phases|
    ensures Holders(phases[i := p]) ==
      Holders(phases) - (if HoldsSlot(phases[i]) then 1 else 0) + (if HoldsSlot(p) then 1 else 0)
  {
    var last := |phases| - 1;
    if i < last {
      HoldersUpdate(phases[..last], i, p);
      assert phases[i := p][..last] == phases[..last][i := p];
    } else {
      assert phases[i := p][..last] == phases[..last];
    }
  }

  lemma MoveKeeps<R>(p: Pool<R>, jobs: Jobs<R>, i: nat)
    requires Consistent(p, jobs) && CanMove(p, jobs.limit, i)
    ensures Consistent(Move(p, jobs, i), jobs)
    ensures Work(Move(p, jobs, i).phases) == Work(p.phases) - 1
  {
    var q := Move(p, jobs, i);
    HoldersUpdate(p.phases, i, q.phases[i]);
    WorkUpdate(p.phases, i, q.phases[i]);
  }

  // ----- How much is left to do -----

  function Weight(p: Phase): nat {
    match p
    case Waiting => 3
    case Reviewing => 2
    case Delivered => 1
    case Idle | Finished => 0
  }

  function Work(phases: seq<Phase>): nat {
    if |phases| == 0 then 0 else Work(phases[..|phases| - 1]) + Weight(phases[|phases| - 1])
  }

  function Runnable(run: seq<bool>): (n: nat)
    ensures n <= |run|
  {
    if |run| == 0 then 0 else Runnable(run[..|run| - 1]) + if run[|run| - 1] then 1 else 0
  }

  lemma {:induction false} WorkUpdate(phases: seq<Phase>, i: nat, p: Phase)
    requires i < |phases|
    ensures Work(phases[i := p]) == Work(phases) - Weight(phases[i]) + Weight(p)
  {
    var last := |phases| - 1;
    if i < last {
      WorkUpdate(phases[..last], i, p);
      assert phases[i := p][..last] == phases[..last][i := p];
    } else {
      assert phases[i := p][..last] == phases[..last];
    }
  }

  lemma {:induction false} WorkAtStart(run: seq<bool>, phases: seq<Phase>)
    requires |run| == |phases|
    requires forall i :: 0 <= i < |run| ==> phases[i] == if run[i] then Waiting else Idle
    ensures Work(phases) == 3 * Runnable(run)
  {
    if |run| > 0 { WorkAtStart(run[..|run| - 1], phases[..|phases| - 1]); }
  }

  lemma {:induction false} NoWorkIsDone(phases: seq<Phase>)
    ensures Work(phases) == 0 <==> AllDone(phases)
  {
    if |phases| > 0 {
      var front := phases[..|phases| - 1];
      NoWorkIsDone(front);
      assert forall i :: 0 <= i < |front| ==> front[i] == phases[i];
    }
  }

  /** At every moment of every schedule no more than `limit` workers hold the
      semaphore, and the work done and the work left add up to three steps for
      every started worker. */
  lemma {:induction false} EverySchedule<R>(jobs: Jobs<R>, schedule: seq<nat>)
    requires WellFormed(jobs) && Reached(jobs, schedule).Some?
    ensures var p := Reached(jobs, schedule).value;
      && Consistent(p, jobs) && Holders(p.phases) <= jobs.limit
      && |schedule| + Work(p.phases) == 3 * Runnable(jobs.run)
  {
    hide Consistent, Move, CanMove, Holders, Work;
    if |schedule| == 0 {
      OpenedIsConsistent(jobs);
      WorkAtStart(jobs.run, Opened(jobs).phases);
      ConsistentLimit(Opened(jobs), jobs);
    } else {
      var front, i := schedule[..|schedule| - 1], schedule[|schedule| - 1];
      EverySchedule(jobs, front);
      var before := Reached(jobs, front).value;
      MoveKeeps(before, jobs, i);
      ConsistentLimit(Move(before, jobs, i), jobs);
    }
  }

  lemma ConsistentLimit<R>(p: Pool<R>, jobs: Jobs<R>)
    requires Consistent(p, jobs)
    ensures Holders(p.phases) <= jobs.limit
  {
  }

  lemma {:induction false} SomeoneHolds(phases: seq<Phase>)
    requires Holders(phases) > 0
    ensures exists i :: 0 <= i < |phases| && HoldsSlot(phases[i])
  {
    var last := |phases| - 1;
    if HoldsSlot(phases[last]) {
    } else {
      SomeoneHolds(phases[..last]);
      var i :| 0 <= i < last && HoldsSlot(phases[..last][i]);
      assert HoldsSlot(phases[i]);
    }
  }

  /** No schedule gets stuck: until every worker has finished, one of them can step. */
  lemma Progress<R>(p: Pool<R>, jobs: Jobs<R>)
    requires Consistent(p, jobs) && jobs.limit >= 1 && !AllDone(p.phases)
    ensures exists i: nat :: CanMove(p, jobs.limit, i)
  {
    var j :| 0 <= j < |p.phases| && p.phases[j] != Idle && p.phases[j] != Finished;
    if Holders(p.phases) == 0 {
      assert CanMove(p, jobs.limit, j);
    } else {
      SomeoneHolds(p.phases);
      var i :| 0 <= i < |p.phases| && HoldsSlot(p.phases[i]);
      assert CanMove(p, jobs.limit, i);
    }
  }

  // Nobody can step any more.
  predicate Exhausted<R>(p: Pool<R>, limit: nat) {
    forall i: nat :: i < |p.phases| ==> !CanMove(p, limit, i)
  }

  /** A schedule that cannot be continued has finished every worker, has taken
      exactly three steps for each, and has left what one by one would leave. */
  lemma MaximalSchedule<R>(jobs: Jobs<R>, schedule: seq<nat>)
    requires WellFormed(jobs) && jobs.limit >= 1
    requires Reached(jobs, schedule).Some? && Exhausted(Reached(jobs, schedule).value, jobs.limit)
    ensures |schedule| == 3 * Runnable(jobs.run)
    ensures Reached(jobs, schedule).value.slots == OneByOne(jobs)
  {
    hide Reached, Holders, Work;
    EverySchedule(jobs, schedule);
    var p := Reached(jobs, schedule).value;
    if !AllDone(p.phases) { Progress(p, jobs); }
    NoWorkIsDone(p.phases);
  }

  /** Any two schedules that run to the end leave the same slots. */
  lemma SchedulesAgree<R>(jobs: Jobs<R>, left: seq<nat>, right: seq<nat>)
    requires WellFormed(jobs) && jobs.limit >= 1
    requires Reached(jobs, left).Some? && Exhausted(Reached(jobs, left).value, jobs.limit)
    requires Reached(jobs, right).Some? && Exhausted(Reached(jobs, right).value, jobs.limit)
    ensures Reached(jobs, left).value.slots == Reached(jobs, right).value.slots && |left| == |right|
  {
    hide Reached, Exhausted;
    MaximalSchedule(jobs, left);
    MaximalSchedule(jobs, right);
  }

  /** The workers under an arbitrary scheduler. */
  method ReviewConcurrently<R>(jobs: Jobs<R>) returns (slots: seq<Option<R>>)
    requires WellFormed(jobs) && jobs.limit >= 1
    ensures slots == OneByOne(jobs)
  {
    var p := Opened(jobs);
    OpenedIsConsistent(jobs);
    while !AllDone(p.phases)
      invariant Consistent(p, jobs)
      decreases Work(p.phases)
    {
      Progress(p, jobs);
      var i: nat :| i < |p.phases| && CanMove(p, jobs.limit, i);
      MoveKeeps(p, jobs, i);
      p := Move(p, jobs, i);
    }
    slots := p.slots;
  }
}
