/**
 The prewarm pool: `src/hostbuf-prewarm.c`.  A generation counter starts six workers on one
 range; each touches its share of the pages outside the mutex and then signs off.  One step
 is one critical section, or one access to the pool's fields or the memory without it.
 */
module Prewarm {
  const THREADS: nat := 6

  datatype Pool = Pool(ptr: nat, generation: nat, remaining: nat, pageCount: nat, pageSpan: nat, pageSize: nat)

  /** Waiting for the next generation; let in; or touching pages `i ..`. */
  datatype Worker = Waiting(generation: nat) | Entered(generation: nat, ptr: nat)
    | Touching(generation: nat, ptr: nat, i: nat, end: nat)

  /** `touched` counts the touches of each page of the current generation. */
  datatype System = System(pool: Pool, workers: seq<Worker>, touched: seq<nat>)

  // ---------------------------------------------------------------- shares

  function PageCount(size: nat, pageSize: nat): nat
    requires pageSize > 0
  {
    (size + pageSize - 1) / pageSize
  }

  /** It is the least number of pages with room for `size` bytes. */
  lemma {:induction false} PagesCover(size: nat, pageSize: nat)
    requires pageSize > 0
    ensures size <= PageCount(size, pageSize) * pageSize < size + pageSize
  {
    var n, x := PageCount(size, pageSize), size + pageSize - 1;
    assert x == n * pageSize + x % pageSize;
  }

  lemma {:induction false} TimesMono(a: nat, b: nat, c: nat)
    requires a <= b
    ensures a * c <= b * c
  {
  }

  function Span(pageCount: nat): nat {
    (pageCount + THREADS - 1) / THREADS
  }

  function First(w: nat, span: nat): nat {
    w * span
  }

  function End(w: nat, span: nat, count: nat): nat {
    if w * span + span <= count then w * span + span else count
  }

  predicate Owns(w: nat, count: nat, p: nat) {
    First(w, Span(count)) <= p < End(w, Span(count), count)
  }

  /** Every page belongs to exactly one worker. */
  lemma {:induction false} SharesTile(count: nat, p: nat) returns (w: nat)
    requires p < count
    ensures w < THREADS && Owns(w, count, p)
    ensures forall v: nat | v < THREADS && Owns(v, count, p) :: v == w
  {
    var span := Span(count);
    assert span > 0 && THREADS * span >= count;
    w := if p < span then 0 else if p < 2 * span then 1 else if p < 3 * span then 2
         else if p < 4 * span then 3 else if p < 5 * span then 4 else 5;
    forall v: nat | v < THREADS && Owns(v, count, p)
      ensures v == w
    {
      assert v == 0 || v == 1 || v == 2 || v == 3 || v == 4 || v == 5;
    }
  }

  /** The work is shared: no worker has more pages than an even share, rounded up. */
  lemma {:induction false} SharesEven(count: nat, w: nat)
    requires w < THREADS
    ensures var first, end := First(w, Span(count)), End(w, Span(count), count);
            first < end ==> THREADS * (end - first) < count + THREADS
  {
  }

  /** A touch stays inside the range that was asked for. */
  lemma {:induction false} TouchInside(size: nat, pageSize: nat, p: nat)
    requires pageSize > 0 && p < PageCount(size, pageSize)
    ensures p * pageSize < size
  {
    hide PageCount;
    var n := PageCount(size, pageSize);
    PagesCover(size, pageSize);
    assert (n - 1 - p) * pageSize >= 0;
    assert p * pageSize == n * pageSize - pageSize - (n - 1 - p) * pageSize;
  }

  // ---------------------------------------------------------------- steps

  datatype Step =
    | Launch(ptr: nat, size: nat, pageSize: nat)
    | Enter(w: nat)
    | Plan(w: nat)
    | Touch(w: nat)
    | Leave(w: nat)

  function Launched(pool: Pool, ptr: nat, size: nat, pageSize: nat): Pool
    requires pageSize > 0
  {
    var count := PageCount(size, pageSize);
    Pool(ptr, pool.generation + 1, THREADS, count, Span(count), pageSize)
  }

  predicate Enabled(s: System, step: Step) {
    match step
    case Launch(_, size, pageSize) => s.pool.remaining == 0 && size > 0 && pageSize > 0
    case Enter(w) => w < |s.workers| && s.workers[w].Waiting? && s.workers[w].generation != s.pool.generation
    case Plan(w) => w < |s.workers| && s.workers[w].Entered?
    case Touch(w) =>
      w < |s.workers| && s.workers[w].Touching? && s.workers[w].i < s.workers[w].end && s.workers[w].i < |s.touched|
    case Leave(w) =>
      w < |s.workers| && s.workers[w].Touching? && s.workers[w].i >= s.workers[w].end && s.pool.remaining > 0
  }

  function After(s: System, step: Step): System
    requires Enabled(s, step)
  {
    match step
    case Launch(ptr, size, pageSize) =>
      System(Launched(s.pool, ptr, size, pageSize), s.workers, seq(PageCount(size, pageSize), _ => 0))
    case Enter(w) => s.(workers := s.workers[w := Entered(s.pool.generation, s.pool.ptr)])
    case Plan(w) =>
      var k := s.workers[w];
      s.(workers := s.workers[w := Touching(k.generation, k.ptr, First(w, s.pool.pageSpan),
                                            End(w, s.pool.pageSpan, s.pool.pageCount))])
    case Touch(w) =>
      var k := s.workers[w];
      s.(workers := s.workers[w := k.(i := k.i + 1)], touched := s.touched[k.i := s.touched[k.i] + 1])
    case Leave(w) =>
      s.(workers := s.workers[w := Waiting(s.workers[w].generation)],
         pool := s.pool.(remaining := s.pool.remaining - 1))
  }

  // ---------------------------------------------------------------- the invariant

  predicate Done(worker: Worker, generation: nat) {
    worker == Waiting(generation)
  }

  function Working(workers: seq<Worker>, generation: nat): nat {
    if workers == [] then 0
    else Working(workers[..|workers| - 1], generation) + (if Done(workers[|workers| - 1], generation) then 0 else 1)
  }

  predicate WorkerOk(worker: Worker, w: nat, pool: Pool) {
    match worker
    case Waiting(g) => g == pool.generation || g + 1 == pool.generation
    case Entered(g, ptr) => g == pool.generation && ptr == pool.ptr
    case Touching(g, ptr, i, end) =>
      && g == pool.generation && ptr == pool.ptr && end == End(w, pool.pageSpan, pool.pageCount)
      && First(w, pool.pageSpan) <= i && (i <= end || i == First(w, pool.pageSpan))
  }

  /** The first page of its share a worker has not touched in this generation. */
  function Reached(worker: Worker, w: nat, pool: Pool): nat {
    match worker
    case Waiting(g) =>
      if g == pool.generation then End(w, pool.pageSpan, pool.pageCount) else First(w, pool.pageSpan)
    case Entered(_, _) => First(w, pool.pageSpan)
    case Touching(_, _, i, _) => i
  }

  ghost predicate TouchedOk(touched: seq<nat>, workers: seq<Worker>, pool: Pool) {
    forall p, w: nat | 0 <= p < |touched| && w < |workers| && Owns(w, pool.pageCount, p) ::
      touched[p] == if p < Reached(workers[w], w, pool) then 1 else 0
  }

  ghost predicate Inv(s: System) {
    && |s.workers| == THREADS && |s.touched| == s.pool.pageCount && s.pool.pageSpan == Span(s.pool.pageCount)
    && s.pool.remaining == Working(s.workers, s.pool.generation)
    && (forall w | 0 <= w < THREADS :: WorkerOk(s.workers[w], w, s.pool))
    && TouchedOk(s.touched, s.workers, s.pool)
  }

  lemma {:induction false} WorkingUpdate(workers: seq<Worker>, w: nat, now: Worker, g: nat)
    requires w < |workers|
    ensures Working(workers[w := now], g) ==
              Working(workers, g) - (if Done(workers[w], g) then 0 else 1) + (if Done(now, g) then 0 else 1)
    decreases |workers|
  {
    var n := |workers| - 1;
    if w < n {
      assert workers[w := now][..n] == workers[..n][w := now];
      WorkingUpdate(workers[..n], w, now, g);
    } else {
      assert workers[w := now][..n] == workers[..n];
    }
  }

  lemma {:induction false} WorkingNone(workers: seq<Worker>, g: nat)
    ensures Working(workers, g) == 0 <==> forall w | 0 <= w < |workers| :: Done(workers[w], g)
    decreases |workers|
  {
    if workers != [] {
      var n := |workers| - 1;
      WorkingNone(workers[..n], g);
      assert forall w | 0 <= w < n :: workers[..n][w] == workers[w];
    }
  }

  lemma {:induction false} WorkingAll(workers: seq<Worker>, g: nat)
    requires forall w | 0 <= w < |workers| :: !Done(workers[w], g)
    ensures Working(workers, g) == |workers|
    decreases |workers|
  {
    if workers != [] { WorkingAll(workers[..|workers| - 1], g); }
  }

  lemma {:induction false} LaunchInv(s: System, ptr: nat, size: nat, pageSize: nat)
    requires Inv(s) && Enabled(s, Launch(ptr, size, pageSize))
    ensures Inv(After(s, Launch(ptr, size, pageSize)))
  {
    var s' := After(s, Launch(ptr, size, pageSize));
    WorkingNone(s.workers, s.pool.generation);
    WorkingAll(s.workers, s'.pool.generation);
    forall w: nat | w < THREADS
      ensures WorkerOk(s'.workers[w], w, s'.pool) && Reached(s'.workers[w], w, s'.pool) == First(w, s'.pool.pageSpan)
    {
      assert Done(s.workers[w], s.pool.generation);
    }
  }

  lemma {:induction false} MoveOk(s: System, step: Step, w: nat)
    requires Inv(s) && Enabled(s, step) && !step.Launch? && step.w == w
    ensures var s' := After(s, step);
            && WorkerOk(s'.workers[w], w, s'.pool)
            && forall p: nat | Owns(w, s.pool.pageCount, p) && !(step.Touch? && p == s.workers[w].i) ::
                 p < Reached(s.workers[w], w, s.pool) <==> p < Reached(s'.workers[w], w, s'.pool)
  {
    assert WorkerOk(s.workers[w], w, s.pool);
  }

  lemma {:induction false} MoveTouched(s: System, step: Step, w: nat)
    requires Inv(s) && Enabled(s, step) && !step.Launch? && !step.Touch? && step.w == w
    ensures var s' := After(s, step); TouchedOk(s'.touched, s'.workers, s'.pool)
  {
    hide WorkerOk, Reached, Owns;
    MoveOk(s, step, w);
    var s' := After(s, step);
    forall p, v: nat | 0 <= p < |s.touched| && v < THREADS && Owns(v, s.pool.pageCount, p)
      ensures s'.touched[p] == if p < Reached(s'.workers[v], v, s'.pool) then 1 else 0
    {
      if v != w { ReachedKept(s.workers[v], v, s.pool, s'.pool); }
    }
  }

  lemma {:induction false} ReachedKept(worker: Worker, w: nat, pool: Pool, pool': Pool)
    requires pool' == pool.(remaining := pool'.remaining)
    ensures Reached(worker, w, pool') == Reached(worker, w, pool)
    ensures WorkerOk(worker, w, pool') == WorkerOk(worker, w, pool)
  {
  }

  /** A worker touches its own pages only, and each for the first time. */
  lemma {:induction false} TouchOwn(s: System, w: nat)
    requires Inv(s) && Enabled(s, Touch(w))
    ensures Owns(w, s.pool.pageCount, s.workers[w].i) && s.touched[s.workers[w].i] == 0
    ensures s.workers[w].ptr == s.pool.ptr
  {
    var i := s.workers[w].i;
    assert WorkerOk(s.workers[w], w, s.pool);
    assert Owns(w, s.pool.pageCount, i);
    assert i >= Reached(s.workers[w], w, s.pool);
  }

  lemma {:induction false} TouchTouched(s: System, w: nat)
    requires Inv(s) && Enabled(s, Touch(w))
    ensures var s' := After(s, Touch(w)); TouchedOk(s'.touched, s'.workers, s'.pool)
  {
    hide WorkerOk, Owns;
    TouchOwn(s, w);
    MoveOk(s, Touch(w), w);
    var i := s.workers[w].i;
    var owner := SharesTile(s.pool.pageCount, i);
    var s' := After(s, Touch(w));
    forall p, v: nat | 0 <= p < |s.touched| && v < THREADS && Owns(v, s.pool.pageCount, p)
      ensures s'.touched[p] == if p < Reached(s'.workers[v], v, s'.pool) then 1 else 0
    {
      if p == i { assert v == owner == w; }
    }
  }

  lemma {:induction false} MoveInv(s: System, step: Step, w: nat)
    requires Inv(s) && Enabled(s, step) && !step.Launch? && step.w == w
    ensures Inv(After(s, step))
  {
    hide WorkerOk, Reached, Owns, TouchedOk;
    var s' := After(s, step);
    if step.Touch? { TouchTouched(s, w); } else { MoveTouched(s, step, w); }
    MoveOk(s, step, w);
    WorkingUpdate(s.workers, w, s'.workers[w], s.pool.generation);
    MoveWorking(s, step, w);
    forall v | 0 <= v < THREADS
      ensures WorkerOk(s'.workers[v], v, s'.pool)
    {
      if v != w { ReachedKept(s.workers[v], v, s.pool, s'.pool); }
    }
  }

  lemma {:induction false} MoveWorking(s: System, step: Step, w: nat)
    requires Inv(s) && Enabled(s, step) && !step.Launch? && step.w == w
    ensures !Done(s.workers[w], s.pool.generation)
    ensures Done(After(s, step).workers[w], s.pool.generation) <==> step.Leave?
  {
    assert WorkerOk(s.workers[w], w, s.pool);
  }

  lemma {:induction false} StepInv(s: System, step: Step)
    requires Inv(s) && Enabled(s, step)
    ensures Inv(After(s, step))
  {
    hide Inv, Enabled, After;
    match step
    case Launch(ptr, size, pageSize) => LaunchInv(s, ptr, size, pageSize);
    case Enter(w) => MoveInv(s, step, w);
    case Plan(w) => MoveInv(s, step, w);
    case Touch(w) => MoveInv(s, step, w);
    case Leave(w) => MoveInv(s, step, w);
  }

  // ---------------------------------------------------------------- runs

  ghost predicate Initial(s: System) {
    && s.pool.generation == 0 && s.pool.remaining == 0 && s.pool.pageCount == 0 && s.pool.pageSpan == 0 &&
       s.touched == []
    && |s.workers| == THREADS && forall w | 0 <= w < THREADS :: s.workers[w] == Waiting(0)
  }

  ghost predicate IsRun(ss: seq<System>, steps: seq<Step>) {
    && |ss| == |steps| + 1 && Initial(ss[0])
    && forall i | 0 <= i < |steps| :: Enabled(ss[i], steps[i]) && ss[i + 1] == After(ss[i], steps[i])
  }

  lemma {:induction false} RunInv(ss: seq<System>, steps: seq<Step>, i: nat)
    requires IsRun(ss, steps) && i < |ss|
    ensures Inv(ss[i])
  {
    hide Enabled, After;
    if i == 0 {
      WorkingNone(ss[0].workers, 0);
    } else {
      RunInv(ss, steps, i - 1);
      assert Enabled(ss[i - 1], steps[i - 1]) && ss[i - 1 + 1] == After(ss[i - 1], steps[i - 1]);
      StepInv(ss[i - 1], steps[i - 1]);
    }
  }

  /**
   When `hostbuf_prewarm_join` lets its caller go, every page of the generation has been
   touched exactly once, and no worker is at work; before that, none was touched twice.
   */
  lemma {:induction false} JoinedComplete(ss: seq<System>, steps: seq<Step>, i: nat, p: nat)
    requires IsRun(ss, steps) && i < |ss| && p < |ss[i].touched|
    ensures |ss[i].touched| == ss[i].pool.pageCount && ss[i].touched[p] <= 1
    ensures ss[i].pool.remaining == 0 ==> ss[i].touched[p] == 1
    ensures ss[i].pool.remaining == 0 ==> forall w | 0 <= w < |ss[i].workers| ::
              ss[i].workers[w] == Waiting(ss[i].pool.generation)
  {
    RunInv(ss, steps, i);
    var s := ss[i];
    var w := SharesTile(s.pool.pageCount, p);
    assert Owns(w, s.pool.pageCount, p);
    WorkingNone(s.workers, s.pool.generation);
    if s.pool.remaining == 0 {
      assert Done(s.workers[w], s.pool.generation);
    }
  }

  /** A launch, and since then no other. */
  ghost predicate LaunchedAt(steps: seq<Step>, i: nat, j: nat, ptr: nat, size: nat, pageSize: nat) {
    && i < j <= |steps| && steps[i] == Launch(ptr, size, pageSize)
    && forall k | i < k < j :: !steps[k].Launch?
  }

  lemma {:induction false} LaunchStands(ss: seq<System>, steps: seq<Step>, i: nat, j: nat, ptr: nat, size: nat,
                                        pageSize: nat)
    requires IsRun(ss, steps) && LaunchedAt(steps, i, j, ptr, size, pageSize) && pageSize > 0
    ensures var s := ss[j];
            && s.pool.ptr == ptr && s.pool.pageSize == pageSize
            && s.pool.pageCount == PageCount(size, pageSize) == |s.touched|
    decreases j
  {
    if i + 1 < j {
      LaunchStands(ss, steps, i, j - 1, ptr, size, pageSize);
      assert !steps[j - 1].Launch?;
    }
    assert Enabled(ss[j - 1], steps[j - 1]) && ss[j - 1 + 1] == After(ss[j - 1], steps[j - 1]);
  }

  /**
   The whole range: after a launch of `size` bytes, once nothing remains, the page of each of
   these bytes was touched exactly once.
   */
  lemma {:induction false} JoinedRange(ss: seq<System>, steps: seq<Step>, i: nat, j: nat, ptr: nat, size: nat,
                                       pageSize: nat, b: nat)
    requires IsRun(ss, steps) && LaunchedAt(steps, i, j, ptr, size, pageSize) && b < size
    requires ss[j].pool.remaining == 0
    ensures pageSize > 0 && b / pageSize < |ss[j].touched| && ss[j].touched[b / pageSize] == 1
  {
    assert Enabled(ss[i], steps[i]);
    LaunchStands(ss, steps, i, j, ptr, size, pageSize);
    InPages(size, pageSize, b);
    JoinedComplete(ss, steps, j, b / pageSize);
  }

  lemma {:induction false} InPages(size: nat, pageSize: nat, b: nat)
    requires pageSize > 0 && b < size
    ensures 0 <= b / pageSize < PageCount(size, pageSize)
  {
    hide PageCount;
    var n, q := PageCount(size, pageSize), b / pageSize;
    PagesCover(size, pageSize);
    assert b == q * pageSize + b % pageSize;
    if q >= n { TimesMono(n, q, pageSize); }
  }

  /** A touch is of a page of the worker's own share, inside the range of the current launch. */
  lemma {:induction false} TouchesOwnPage(ss: seq<System>, steps: seq<Step>, i: nat, w: nat)
    requires IsRun(ss, steps) && i < |steps| && steps[i] == Touch(w)
    ensures var k := ss[i].workers[w];
            && k.i < ss[i].pool.pageCount && Owns(w, ss[i].pool.pageCount, k.i) && k.ptr == ss[i].pool.ptr
            && k.generation == ss[i].pool.generation && ss[i].touched[k.i] == 0
  {
    RunInv(ss, steps, i);
    assert Enabled(ss[i], steps[i]);
    TouchOwn(ss[i], w);
    assert WorkerOk(ss[i].workers[w], w, ss[i].pool);
  }

  /** No worker skips or repeats a generation. */
  lemma {:induction false} EveryGeneration(ss: seq<System>, steps: seq<Step>, i: nat, w: nat)
    requires IsRun(ss, steps) && i < |steps| && steps[i] == Enter(w)
    ensures ss[i + 1].workers[w].generation == ss[i].workers[w].generation + 1
  {
    RunInv(ss, steps, i);
    assert Enabled(ss[i], steps[i]) && ss[i + 1] == After(ss[i], steps[i]);
    assert WorkerOk(ss[i].workers[w], w, ss[i].pool);
  }

  /** While a worker may be reading the pool's fields without the mutex, they do not change. */
  lemma {:induction false} FieldsStable(ss: seq<System>, steps: seq<Step>, i: nat, w: nat)
    requires IsRun(ss, steps) && i < |steps| && w < THREADS && |ss[i].workers| == THREADS
    requires !ss[i].workers[w].Waiting?
    ensures ss[i + 1].pool == ss[i].pool.(remaining := ss[i + 1].pool.remaining)
  {
    RunInv(ss, steps, i);
    assert Enabled(ss[i], steps[i]) && ss[i + 1] == After(ss[i], steps[i]);
    WorkingNone(ss[i].workers, ss[i].pool.generation);
    assert !Done(ss[i].workers[w], ss[i].pool.generation);
  }

  /** No deadlock: as long as a caller has to wait, some worker can go on. */
  lemma {:induction false} WorkGoesOn(ss: seq<System>, steps: seq<Step>, i: nat) returns (step: Step)
    requires IsRun(ss, steps) && i < |ss| && ss[i].pool.remaining > 0
    ensures Enabled(ss[i], step)
  {
    RunInv(ss, steps, i);
    var s := ss[i];
    WorkingNone(s.workers, s.pool.generation);
    var w: nat :| w < |s.workers| && !Done(s.workers[w], s.pool.generation);
    assert WorkerOk(s.workers[w], w, s.pool);
    step := match s.workers[w]
      case Waiting(_) => Enter(w)
      case Entered(_, _) => Plan(w)
      case Touching(_, _, k, end) => if k < end then Touch(w) else Leave(w);
  }

  // ---------------------------------------------------------------- the pool in place

  /** `a` is the first byte of a page of `w`'s share below page `i`. */
  ghost predicate TouchedBelow(w: nat, count: nat, i: nat, ptr: nat, page: nat, a: nat) {
    exists p: nat :: Owns(w, count, p) && p < i && a == ptr + p * page
  }

  lemma {:induction false} OwnsIndex(w: nat, count: nat, i: nat)
    requires First(w, Span(count)) <= i < End(w, Span(count), count)
    ensures Owns(w, count, i) && i < count
  {
  }

  lemma {:induction false} TouchedNone(w: nat, count: nat, ptr: nat, page: nat)
    ensures forall a: nat :: !TouchedBelow(w, count, First(w, Span(count)), ptr, page, a)
  {
  }

  lemma {:induction false} TouchedNext(w: nat, count: nat, i: nat, ptr: nat, page: nat)
    requires Owns(w, count, i)
    ensures forall a: nat :: TouchedBelow(w, count, i + 1, ptr, page, a) <==>
                               TouchedBelow(w, count, i, ptr, page, a) || a == ptr + i * page
  {
    forall a: nat
      ensures TouchedBelow(w, count, i + 1, ptr, page, a) <==>
                TouchedBelow(w, count, i, ptr, page, a) || a == ptr + i * page
    {
      if TouchedBelow(w, count, i + 1, ptr, page, a) {
        var p: nat :| Owns(w, count, p) && p < i + 1 && a == ptr + p * page;
        assert p == i || TouchedBelow(w, count, i, ptr, page, a);
      }
    }
  }

  lemma {:induction false} TouchedAll(w: nat, count: nat, i: nat, ptr: nat, page: nat)
    requires i >= End(w, Span(count), count)
    ensures forall a: nat :: TouchedBelow(w, count, i, ptr, page, a) <==>
              exists p: nat :: Owns(w, count, p) && a == ptr + p * page
  {
    forall a: nat | exists p: nat :: Owns(w, count, p) && a == ptr + p * page
      ensures TouchedBelow(w, count, i, ptr, page, a)
    {
      var p: nat :| Owns(w, count, p) && a == ptr + p * page;
      assert p < i;
    }
  }

  /** `g_prewarm_pool`: what is done to it, always under the mutex. */
  class PrewarmPool {
    var ptr: nat
    var generation: nat
    var remaining: nat
    var pageCount: nat
    var pageSpan: nat
    var pageSize: nat

    ghost function Value(): Pool
      reads this
    {
      Pool(ptr, generation, remaining, pageCount, pageSpan, pageSize)
    }

    constructor ()
      ensures Value() == Pool(0, 0, 0, 0, 0, 0)
    {
      ptr, generation, remaining, pageCount, pageSpan, pageSize := 0, 0, 0, 0, 0, 0;
    }

    /** `hostbuf_prewarm_start`, once no worker is at work: a launch of the machine, which keeps its invariant. */
    method Start(start: nat, size: nat, page: nat, ghost s: System)
      requires Inv(s) && s.pool == Value() && Enabled(s, Launch(start, size, page))
      modifies this
      ensures Value() == After(s, Launch(start, size, page)).pool && Inv(After(s, Launch(start, size, page)))
    {
      LaunchInv(s, start, size, page);
      ptr, pageSize := start, page;
      pageCount := (size + page - 1) / page;
      pageSpan := (pageCount + THREADS - 1) / THREADS;
      remaining := THREADS;
      generation := generation + 1;
    }

    /** A worker's round outside the mutex: it clears one byte in each page of its share. */
    method TouchShare(w: nat, memory: array<int>)
      requires pageSpan == Span(pageCount) && pageSize > 0
      requires forall p: nat | p < pageCount :: ptr + p * pageSize < memory.Length
      modifies memory
      ensures forall a | 0 <= a < memory.Length :: memory[a] ==
                if exists p: nat :: Owns(w, pageCount, p) && a == ptr + p * pageSize then 0 else old(memory[a])
    {
      hide TouchedBelow, Owns;
      TouchedNone(w, pageCount, ptr, pageSize);
      var i := w * pageSpan;
      var end := if w * pageSpan + pageSpan <= pageCount then w * pageSpan + pageSpan else pageCount;
      while i < end
        invariant First(w, Span(pageCount)) <= i
        invariant forall a | 0 <= a < memory.Length :: memory[a] ==
                    if TouchedBelow(w, pageCount, i, ptr, pageSize, a) then 0 else old(memory[a])
      {
        OwnsIndex(w, pageCount, i);
        TouchedNext(w, pageCount, i, ptr, pageSize);
        memory[ptr + i * pageSize] := 0;
        i := i + 1;
      }
      TouchedAll(w, pageCount, i, ptr, pageSize);
    }
  }
}
