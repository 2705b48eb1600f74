/**
 The decommit queue: `src/hostbuf-decommit.c`.  Host buffers hand ranges to one worker,
 which gives them back to the system in order; the bytes under way are bounded, and each
 buffer counts its unfinished jobs.  One step is one critical section, or the system call
 between two of them.
 */
module Decommit {
  const QUEUE_LIMIT: nat := 402653184

  datatype Job = Job(buffer: nat, start: nat, size: nat, release: bool)

  datatype Taken = Nothing | Holding(job: Job, acted: bool)

  /** `done` and `history` list what the worker did and what was ever queued, in order. */
  datatype Queue = Queue(jobs: seq<Job>, taken: Taken, queued: int, pending: map<nat, int>,
                         done: seq<Job>, history: seq<Job>)

  function Bytes(jobs: seq<Job>): nat {
    if jobs == [] then 0 else (if jobs[0].release then 0 else jobs[0].size) + Bytes(jobs[1..])
  }

  function CountFor(jobs: seq<Job>, b: nat): nat {
    if jobs == [] then 0 else (if jobs[0].buffer == b then 1 else 0) + CountFor(jobs[1..], b)
  }

  /** Jobs the worker has not finished. */
  function Unfinished(q: Queue): seq<Job> {
    (if q.taken.Holding? then [q.taken.job] else []) + q.jobs
  }

  function Pending(q: Queue, b: nat): int {
    if b in q.pending then q.pending[b] else 0
  }

  // ---------------------------------------------------------------- steps

  datatype Step = Enqueue(job: Job) | Take | Act | Finish

  predicate Enabled(q: Queue, step: Step) {
    match step
    case Enqueue(job) => job.release || q.queued + job.size <= QUEUE_LIMIT
    case Take => q.taken == Nothing && q.jobs != []
    case Act => q.taken.Holding? && !q.taken.acted
    case Finish => q.taken.Holding? && q.taken.acted
  }

  function After(q: Queue, step: Step): Queue
    requires Enabled(q, step)
  {
    match step
    case Enqueue(job) =>
      q.(jobs := q.jobs + [job], queued := if job.release then q.queued else q.queued + job.size,
         pending := q.pending[job.buffer := Pending(q, job.buffer) + 1], history := q.history + [job])
    case Take => q.(jobs := q.jobs[1..], taken := Holding(q.jobs[0], false))
    case Act => q.(taken := Holding(q.taken.job, true), done := q.done + [q.taken.job])
    case Finish =>
      var job := q.taken.job;
      q.(taken := Nothing, queued := if job.release then q.queued else q.queued - job.size,
         pending := q.pending[job.buffer := Pending(q, job.buffer) - 1])
  }

  /** What the worker does next. */
  function NextTurn(q: Queue): Step {
    if q.taken.Holding? then (if q.taken.acted then Finish else Act) else Take
  }

  // ---------------------------------------------------------------- the invariant

  function Ahead(q: Queue): seq<Job> {
    (if q.taken.Holding? && !q.taken.acted then [q.taken.job] else []) + q.jobs
  }

  /** What is queued is bounded and counted, and what was queued is done in order. */
  ghost predicate Inv(q: Queue) {
    && q.queued == Bytes(Unfinished(q)) <= QUEUE_LIMIT
    && (forall b: nat :: Pending(q, b) == CountFor(Unfinished(q), b))
    && q.history == q.done + Ahead(q)
    && (q.taken.Holding? && q.taken.acted ==> q.done != [] && q.done[|q.done| - 1] == q.taken.job)
  }

  lemma {:induction false} BytesSplit(a: seq<Job>, b: seq<Job>)
    ensures Bytes(a + b) == Bytes(a) + Bytes(b)
  {
    if a == [] { assert a + b == b; } else {
      assert (a + b)[1..] == a[1..] + b;
      BytesSplit(a[1..], b);
    }
  }

  lemma {:induction false} CountSplit(a: seq<Job>, b: seq<Job>, buffer: nat)
    ensures CountFor(a + b, buffer) == CountFor(a, buffer) + CountFor(b, buffer)
  {
    if a == [] { assert a + b == b; } else {
      assert (a + b)[1..] == a[1..] + b;
      CountSplit(a[1..], b, buffer);
    }
  }

  lemma {:induction false} CountNone(jobs: seq<Job>, b: nat)
    ensures CountFor(jobs, b) == 0 <==> forall i | 0 <= i < |jobs| :: jobs[i].buffer != b
  {
    if jobs != [] {
      CountNone(jobs[1..], b);
      assert forall i | 0 < i < |jobs| :: jobs[i] == jobs[1..][i - 1];
    }
  }

  lemma {:induction false} OneJob(job: Job, b: nat)
    ensures Bytes([job]) == if job.release then 0 else job.size
    ensures CountFor([job], b) == if job.buffer == b then 1 else 0
  {
  }

  lemma {:induction false} EnqueueInv(q: Queue, job: Job)
    requires Inv(q) && Enabled(q, Enqueue(job))
    ensures Inv(After(q, Enqueue(job)))
  {
    hide Bytes, CountFor;
    var q' := After(q, Enqueue(job));
    assert Unfinished(q') == Unfinished(q) + [job] && Ahead(q') == Ahead(q) + [job];
    assert q'.history == q.done + Ahead(q');
    BytesSplit(Unfinished(q), [job]);
    OneJob(job, job.buffer);
    forall b: nat ensures Pending(q', b) == CountFor(Unfinished(q'), b) {
      CountSplit(Unfinished(q), [job], b);
      OneJob(job, b);
      assert Pending(q, b) == CountFor(Unfinished(q), b);
    }
  }

  lemma {:induction false} FinishInv(q: Queue)
    requires Inv(q) && Enabled(q, Finish)
    ensures Inv(After(q, Finish))
  {
    hide Bytes, CountFor;
    var q' := After(q, Finish);
    var job := q.taken.job;
    assert Unfinished(q) == [job] + Unfinished(q') && Ahead(q') == Ahead(q);
    BytesSplit([job], Unfinished(q'));
    OneJob(job, job.buffer);
    forall b: nat ensures Pending(q', b) == CountFor(Unfinished(q'), b) {
      CountSplit([job], Unfinished(q'), b);
      OneJob(job, b);
      assert Pending(q, b) == CountFor(Unfinished(q), b);
    }
  }

  lemma {:induction false} TakeInv(q: Queue)
    requires Inv(q) && Enabled(q, Take)
    ensures Inv(After(q, Take))
  {
    hide Bytes, CountFor;
    var q' := After(q, Take);
    assert q.jobs == [q.jobs[0]] + q.jobs[1..];
    assert Unfinished(q') == Unfinished(q) && Ahead(q') == Ahead(q);
    forall b: nat ensures Pending(q', b) == CountFor(Unfinished(q'), b) {
      assert Pending(q, b) == CountFor(Unfinished(q), b);
    }
  }

  lemma {:induction false} ActInv(q: Queue)
    requires Inv(q) && Enabled(q, Act)
    ensures Inv(After(q, Act))
  {
    hide Bytes, CountFor;
    var q' := After(q, Act);
    assert Unfinished(q') == Unfinished(q) && Ahead(q) == [q.taken.job] + Ahead(q');
    assert q.done + Ahead(q) == q'.done + Ahead(q');
    forall b: nat ensures Pending(q', b) == CountFor(Unfinished(q'), b) {
      assert Pending(q, b) == CountFor(Unfinished(q), b);
    }
  }

  lemma {:induction false} StepInv(q: Queue, step: Step)
    requires Inv(q) && Enabled(q, step)
    ensures Inv(After(q, step))
  {
    hide Inv, Enabled, After;
    match step
    case Enqueue(job) => EnqueueInv(q, job);
    case Take => TakeInv(q);
    case Act => ActInv(q);
    case Finish => FinishInv(q);
  }

  // ---------------------------------------------------------------- runs

  ghost predicate Initial(q: Queue) {
    q == Queue([], Nothing, 0, map[], [], [])
  }

  ghost predicate IsRun(qs: seq<Queue>, steps: seq<Step>) {
    && |qs| == |steps| + 1 && Initial(qs[0])
    && forall i | 0 <= i < |steps| :: Enabled(qs[i], steps[i]) && qs[i + 1] == After(qs[i], steps[i])
  }

  /** In every interleaving, the bytes under way stay within the limit and each buffer's count is right. */
  lemma {:induction false} RunInv(qs: seq<Queue>, steps: seq<Step>, i: nat)
    requires IsRun(qs, steps) && i < |qs|
    ensures Inv(qs[i])
  {
    if i > 0 {
      RunInv(qs, steps, i - 1);
      assert Enabled(qs[i - 1], steps[i - 1]) && qs[i - 1 + 1] == After(qs[i - 1], steps[i - 1]);
      StepInv(qs[i - 1], steps[i - 1]);
    }
  }

  /** When a job is done, all that were queued before it have been done, in their order. */
  lemma {:induction false} DoneInOrder(qs: seq<Queue>, steps: seq<Step>, i: nat)
    requires IsRun(qs, steps) && i < |qs|
    ensures |qs[i].done| <= |qs[i].history| && qs[i].done == qs[i].history[..|qs[i].done|]
  {
    RunInv(qs, steps, i);
  }

  lemma {:induction false} HistoryGrows(qs: seq<Queue>, steps: seq<Step>, i: nat, j: nat)
    requires IsRun(qs, steps) && i <= j < |qs|
    ensures |qs[i].history| <= |qs[j].history| && qs[i].history == qs[j].history[..|qs[i].history|]
    decreases j
  {
    if i < j {
      HistoryGrows(qs, steps, i, j - 1);
      assert Enabled(qs[j - 1], steps[j - 1]) && qs[j - 1 + 1] == After(qs[j - 1], steps[j - 1]);
    }
  }

  /**
   Address space is given up only after every decommit queued before it: the worker is at
   the release that step `e` queued only when the job that an earlier step `d` queued is done.
   */
  lemma {:induction false} ReleaseAfterDecommits(qs: seq<Queue>, steps: seq<Step>, d: nat, e: nat, i: nat)
    requires IsRun(qs, steps) && d < e < i < |steps| && steps[d].Enqueue? && steps[e].Enqueue? && steps[e].job.release
    requires steps[i] == Act && |qs[i].done| == |qs[e].history|
    ensures qs[i].taken.job == steps[e].job
    ensures |qs[d].history| < |qs[i].done| && qs[i].done[|qs[d].history|] == steps[d].job
  {
    RunInv(qs, steps, i);
    HistoryGrows(qs, steps, d + 1, e);
    HistoryGrows(qs, steps, e + 1, i);
    assert Enabled(qs[d], steps[d]) && qs[d + 1] == After(qs[d], steps[d]);
    assert Enabled(qs[e], steps[e]) && qs[e + 1] == After(qs[e], steps[e]);
    assert Enabled(qs[i], steps[i]);
    var n, k := |qs[e].history|, |qs[d].history|;
    assert qs[i].history[n] == steps[e].job && qs[i].history[n] == Ahead(qs[i])[0];
    assert qs[d + 1].history[k] == steps[d].job;
    assert qs[e].history[k] == steps[d].job;
    assert qs[e + 1].history[k] == steps[d].job;
    assert qs[i].history[k] == steps[d].job;
  }

  /** A buffer whose count is zero has nothing under way: everything it queued is done. */
  lemma {:induction false} ZeroIsComplete(q: Queue, b: nat)
    requires Inv(q) && Pending(q, b) == 0
    ensures forall k | 0 <= k < |q.history| && q.history[k].buffer == b :: k < |q.done| && q.done[k] == q.history[k]
  {
    CountNone(Unfinished(q), b);
    forall k | |q.done| <= k < |q.history|
      ensures q.history[k].buffer != b
    {
      assert Ahead(q)[k - |q.done|] == q.history[k];
      assert q.history[k] in Unfinished(q);
    }
  }

  lemma {:induction false} QueuedMeansWork(q: Queue)
    requires Inv(q)
    ensures q.queued != 0 ==> Unfinished(q) != []
  {
  }

  /** No deadlock: a producer whose job is no bigger than the limit gets its turn, given the worker's. */
  lemma {:induction false} SpaceComes(qs: seq<Queue>, steps: seq<Step>, i: nat, job: Job) returns (step: Step)
    requires IsRun(qs, steps) && i < |qs| && job.size <= QUEUE_LIMIT
    ensures Enabled(qs[i], step) && (step.Enqueue? ==> step.job == job)
  {
    RunInv(qs, steps, i);
    var q := qs[i];
    step := if q.taken.Holding? || q.jobs != [] then NextTurn(q) else Enqueue(job);
  }

  // ---------------------------------------------------------------- the queue in place

  /** The globals of the queue and the counts of the buffers. */
  class DecommitQueue {
    var jobs: seq<Job>
    var taken: Taken
    var queued: int
    var pending: map<nat, int>
    ghost var done: seq<Job>
    ghost var history: seq<Job>

    /** Jobs can always be allocated. */
    const willing: bool

    ghost function Value(): Queue
      reads this
    {
      Queue(jobs, taken, queued, pending, done, history)
    }

    ghost predicate Valid()
      reads this
    {
      Inv(Value())
    }

    constructor ()
      ensures Valid() && Initial(Value())
    {
      willing := *;
      jobs, taken, queued, pending := [], Nothing, 0, map[];
      done, history := [], [];
    }

    /** One turn of the worker: the next critical section or system call of its loop. */
    method WorkerTurn()
      requires Valid() && Unfinished(Value()) != []
      modifies this
      ensures Valid() && history == old(history)
      ensures Enabled(old(Value()), NextTurn(old(Value()))) && Value() == After(old(Value()), NextTurn(old(Value())))
    {
      ghost var was := Value();
      if !taken.Holding? { assert Unfinished(was) == jobs; }
      StepInv(was, NextTurn(was));
      if taken.Holding? {
        var job := taken.job;
        if !taken.acted {
          taken := Holding(job, true);
          done := done + [job];
        } else {
          taken := Nothing;
          if !job.release {
            queued := queued - job.size;
          }
          pending := pending[job.buffer := (if job.buffer in pending then pending[job.buffer] else 0) - 1];
        }
      } else {
        taken := Holding(jobs[0], false);
        jobs := jobs[1..];
      }
      assert Value() == After(was, NextTurn(was));
    }

    /** The worker takes as many turns as it likes while the producer is outside the mutex. */
    method Progress()
      requires Valid()
      modifies this
      ensures Valid() && history == old(history)
    {
      var turns: nat := *;
      while turns > 0 && (taken.Holding? || jobs != [])
        invariant Valid() && history == old(history)
      {
        WorkerTurn();
        turns := turns - 1;
      }
    }

    /** Turns the worker has to take before nothing is under way. */
    ghost function Turns(): nat
      reads this
    {
      3 * |jobs| + (if taken.Holding? then (if taken.acted then 1 else 2) else 0)
    }

    /** `hostbuf_decommit_async`: the job is queued once there is space; allocation of it may fail. */
    method EnqueueAsync(job: Job) returns (ok: bool)
      requires Valid() && (job.release || job.size <= QUEUE_LIMIT)
      modifies this
      ensures Valid() && history == if ok then old(history) + [job] else old(history)
      ensures !ok ==> Value() == old(Value())
      ensures willing ==> ok
    {
      hide Inv;
      ok := *;
      if willing { ok := true; }
      if !ok { return; }
      Progress();
      while !job.release && queued + job.size > QUEUE_LIMIT
        invariant Valid() && history == old(history)
        decreases Turns()
      {
        QueuedMeansWork(Value());
        WorkerTurn();
      }
      EnqueueInv(Value(), job);
      pending := pending[job.buffer := (if job.buffer in pending then pending[job.buffer] else 0) + 1];
      jobs := jobs + [job];
      if !job.release {
        queued := queued + job.size;
      }
      history := history + [job];
    }

    /** `hostbuf_decommit_wait`: until the buffer's count is zero; then all its jobs are done. */
    method Wait(b: nat)
      requires Valid()
      modifies this
      ensures Valid() && history == old(history)
      ensures forall k | 0 <= k < |history| && history[k].buffer == b :: k < |done| && done[k] == history[k]
    {
      while (if b in pending then pending[b] else 0) != 0
        invariant Valid() && history == old(history)
        decreases Turns()
      {
        CountNone(Unfinished(Value()), b);
        WorkerTurn();
      }
      ZeroIsComplete(Value(), b);
    }
  }
}
