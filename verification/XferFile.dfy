/**
 The parallel file read: `src/xfer-file.c`.  A caller cuts its range into chunks and queues
 them in a bounded ring; a pool of workers reads them in any order; the caller returns when
 its own count of unfinished chunks is zero.  One step is one critical section, or one read.
 */
module XferFile {
  import opened Basics

  type Byte = bv8

  const CHUNK: nat := 2097152
  const QUEUE_CAP: nat := 256
  const THREADS: nat := 8

  /** `request` stands for the wait record it points to. */
  datatype Task = Task(request: nat, offset: nat, pos: nat, size: nat)

  // ---------------------------------------------------------------- the ring

  function Place(head: nat, i: nat): (k: nat)
    ensures k < QUEUE_CAP
  {
    (head + i) % QUEUE_CAP
  }

  /** What a ring holds, oldest first. */
  ghost function RingTasks(a: seq<Task>, head: nat, count: nat): (r: seq<Task>)
    requires |a| == QUEUE_CAP && head < QUEUE_CAP && count <= QUEUE_CAP
    ensures |r| == count && forall i | 0 <= i < count :: r[i] == a[Place(head, i)]
  {
    seq(count, i requires 0 <= i < count => a[Place(head, i)])
  }

  class Ring {
    const tasks: array<Task>
    var head: nat
    var tail: nat
    var count: nat

    ghost predicate Valid()
      reads this, tasks
    {
      && tasks.Length == QUEUE_CAP && head < QUEUE_CAP && tail < QUEUE_CAP && count <= QUEUE_CAP
      && tail == Place(head, count)
    }

    ghost function Contents(): seq<Task>
      reads this, tasks
      requires Valid()
    {
      RingTasks(tasks[..], head, count)
    }

    constructor ()
      ensures Valid() && Contents() == [] && fresh(tasks)
    {
      tasks := new Task[QUEUE_CAP](_ => Task(0, 0, 0, 0));
      head, tail, count := 0, 0, 0;
    }

    /** The producer's critical section, once there is space. */
    method Push(task: Task)
      requires Valid() && count < QUEUE_CAP
      modifies this`tail, this`count, tasks
      ensures Valid() && Contents() == old(Contents()) + [task]
    {
      hide Place;
      ghost var was := tasks[..];
      RingAfter(head, count);
      tasks[tail] := task;
      tail := (tail + 1) % QUEUE_CAP;
      count := count + 1;
      forall i | 0 <= i < count
        ensures Contents()[i] == (RingTasks(was, head, count - 1) + [task])[i]
      {
        if i < count - 1 { RingPlaces(head, i, count - 1); }
      }
    }

    /** `xfer_file_task_pop`, once there is a task. */
    method Pop() returns (task: Task)
      requires Valid() && count > 0
      modifies this`head, this`count
      ensures Valid() && [task] + Contents() == old(Contents())
    {
      hide Place;
      RingFirst(head);
      RingNext(head, count - 1);
      task := tasks[head];
      head := (head + 1) % QUEUE_CAP;
      count := count - 1;
      ghost var was := old(Contents());
      forall i | 0 <= i < count
        ensures Contents()[i] == was[i + 1]
      {
        RingNext(old(head), i);
      }
    }
  }

  /** Two tasks less than a ring apart are in different places. */
  lemma {:induction false} RingPlaces(head: nat, i: nat, j: nat)
    requires head < QUEUE_CAP && i < j < QUEUE_CAP
    ensures Place(head, i) != Place(head, j)
  {
  }

  lemma {:induction false} RingFirst(head: nat)
    requires head < QUEUE_CAP
    ensures Place(head, 0) == head
  {
  }

  lemma {:induction false} RingAfter(head: nat, i: nat)
    ensures (Place(head, i) + 1) % QUEUE_CAP == Place(head, i + 1)
  {
  }

  lemma {:induction false} RingNext(head: nat, i: nat)
    requires head < QUEUE_CAP && i < QUEUE_CAP
    ensures Place((head + 1) % QUEUE_CAP, i) == Place(head, i + 1)
  {
  }

  // ---------------------------------------------------------------- chunks

  function Chunks(size: nat): nat {
    (size + CHUNK - 1) / CHUNK
  }

  /** What is queued for chunk `c`, as the producer's loop makes it. */
  function TaskOf(request: nat, offset: nat, size: nat, c: nat): Task
    requires c < Chunks(size)
  {
    Task(request, offset + c * CHUNK, c * CHUNK, Min(CHUNK, size - c * CHUNK))
  }

  predicate InTask(t: Task, p: nat) {
    t.pos <= p < t.pos + t.size
  }

  /** The chunks tile the range: each byte lies in exactly one, and none reaches beyond. */
  lemma {:induction false} ChunksTile(request: nat, offset: nat, size: nat, p: nat)
    ensures p < size ==> p / CHUNK < Chunks(size) && InTask(TaskOf(request, offset, size, p / CHUNK), p)
    ensures forall c | 0 <= c < Chunks(size) && InTask(TaskOf(request, offset, size, c), p) ::
              p < size && c == p / CHUNK
    ensures forall c | 0 <= c < Chunks(size) :: TaskOf(request, offset, size, c).size > 0
  {
  }

  /** How far one chunk has come: with whom it is, and how its read went. */
  datatype Chunk = Waiting | Queued | Taken(w: nat) | ReadBy(w: nat, ok: bool) | Finished(ok: bool)

  datatype Worker = Idle | Busy(task: Task) | Reporting(task: Task, ok: bool)

  /** One call of `xfer_file_read`: its wait record, its destination, and what happened so far. */
  datatype Request = Request(
    file: nat -> Byte, offset: nat, size: nat, dest: seq<Byte>,
    chunks: seq<Chunk>, submitted: nat, pending: int, failed: bool,
    visits: seq<nat>, result: Option<bool>)

  datatype System = System(queue: seq<Task>, requests: seq<Request>, workers: seq<Worker>)

  function Unfinished(chunks: seq<Chunk>): nat {
    if chunks == [] then 0 else Unfinished(chunks[..|chunks| - 1]) + (if chunks[|chunks| - 1].Finished? then 0 else 1)
  }

  lemma {:induction false} UnfinishedUpdate(chunks: seq<Chunk>, c: nat, now: Chunk)
    requires c < |chunks|
    ensures Unfinished(chunks[c := now]) ==
              Unfinished(chunks) - (if chunks[c].Finished? then 0 else 1) + (if now.Finished? then 0 else 1)
    decreases |chunks|
  {
    var n := |chunks| - 1;
    if c < n {
      assert chunks[c := now][..n] == chunks[..n][c := now];
      UnfinishedUpdate(chunks[..n], c, now);
    } else {
      assert chunks[c := now][..n] == chunks[..n];
    }
  }

  lemma {:induction false} UnfinishedNone(chunks: seq<Chunk>)
    ensures Unfinished(chunks) == 0 <==> forall c | 0 <= c < |chunks| :: chunks[c].Finished?
    decreases |chunks|
  {
    if chunks != [] {
      var n := |chunks| - 1;
      UnfinishedNone(chunks[..n]);
      assert forall c | 0 <= c < n :: chunks[..n][c] == chunks[c];
    }
  }

  lemma {:induction false} UnfinishedAll(chunks: seq<Chunk>)
    requires forall c | 0 <= c < |chunks| :: !chunks[c].Finished?
    ensures Unfinished(chunks) == |chunks|
    decreases |chunks|
  {
    if chunks != [] { UnfinishedAll(chunks[..|chunks| - 1]); }
  }

  // ---------------------------------------------------------------- steps

  datatype Step =
    | Begin(file: nat -> Byte, offset: nat, dest: seq<Byte>)
    | Submit(r: nat)
    | Pop(w: nat)
    | Read(w: nat, bytes: seq<Byte>, ok: bool)
    | Report(w: nat)
    | Return(r: nat)

  function ChunkOf(t: Task): nat {
    t.pos / CHUNK
  }

  /** `t` is chunk `ChunkOf(t)` of its request. */
  predicate IsTask(requests: seq<Request>, t: Task) {
    && t.request < |requests|
    && var q := requests[t.request];
       |q.chunks| == Chunks(q.size) && ChunkOf(t) < |q.chunks| && t == TaskOf(t.request, q.offset, q.size, ChunkOf(t))
  }

  predicate ChunkIs(requests: seq<Request>, t: Task, chunk: Chunk) {
    IsTask(requests, t) && requests[t.request].chunks[ChunkOf(t)] == chunk
  }

  /** `bytes` are the file's, if the read went well. */
  ghost predicate BytesOk(q: Request, t: Task, bytes: seq<Byte>, ok: bool) {
    |bytes| == t.size && (ok ==> forall k | 0 <= k < t.size :: bytes[k] == q.file(t.offset + k))
  }

  ghost predicate Enabled(s: System, step: Step) {
    match step
    case Begin(_, _, _) => true
    case Submit(r) =>
      && r < |s.requests| && |s.queue| < QUEUE_CAP
      && s.requests[r].submitted < |s.requests[r].chunks| == Chunks(s.requests[r].size)
    case Pop(w) => w < |s.workers| && s.workers[w] == Idle && |s.queue| > 0 && IsTask(s.requests, s.queue[0])
    case Read(w, bytes, ok) =>
      && w < |s.workers| && s.workers[w].Busy? && IsTask(s.requests, s.workers[w].task)
      && var t := s.workers[w].task;
         && t.pos + t.size <= |s.requests[t.request].dest| && ChunkOf(t) < |s.requests[t.request].visits|
         && BytesOk(s.requests[t.request], t, bytes, ok)
    case Report(w) => w < |s.workers| && s.workers[w].Reporting? && IsTask(s.requests, s.workers[w].task)
    case Return(r) =>
      && r < |s.requests| && s.requests[r].result == None
      && s.requests[r].submitted == |s.requests[r].chunks| && s.requests[r].pending == 0
  }

  function Fresh(file: nat -> Byte, offset: nat, dest: seq<Byte>): Request {
    var n := Chunks(|dest|);
    Request(file, offset, |dest|, dest, seq(n, _ => Waiting), 0, n, false, seq(n, _ => 0), None)
  }

  function Submitted(q: Request): Request
    requires q.submitted < |q.chunks|
  {
    q.(chunks := q.chunks[q.submitted := Queued], submitted := q.submitted + 1)
  }

  function TakenBy(q: Request, t: Task, w: nat): Request
    requires ChunkOf(t) < |q.chunks|
  {
    q.(chunks := q.chunks[ChunkOf(t) := Taken(w)])
  }

  function WithBytes(q: Request, t: Task, w: nat, bytes: seq<Byte>, ok: bool): Request
    requires ChunkOf(t) < |q.chunks| && ChunkOf(t) < |q.visits| && t.pos + t.size <= |q.dest|
  {
    q.(dest := q.dest[..t.pos] + bytes + q.dest[t.pos + t.size..],
       chunks := q.chunks[ChunkOf(t) := ReadBy(w, ok)],
       visits := q.visits[ChunkOf(t) := q.visits[ChunkOf(t)] + 1])
  }

  function Reported(q: Request, t: Task, ok: bool): Request
    requires ChunkOf(t) < |q.chunks|
  {
    q.(failed := !ok || q.failed, pending := q.pending - 1, chunks := q.chunks[ChunkOf(t) := Finished(ok)])
  }

  ghost function After(s: System, step: Step): System
    requires Enabled(s, step)
  {
    match step
    case Begin(file, offset, dest) => s.(requests := s.requests + [Fresh(file, offset, dest)])
    case Submit(r) =>
      var q := s.requests[r];
      s.(queue := s.queue + [TaskOf(r, q.offset, q.size, q.submitted)], requests := s.requests[r := Submitted(q)])
    case Pop(w) =>
      var t := s.queue[0];
      System(s.queue[1..], s.requests[t.request := TakenBy(s.requests[t.request], t, w)], s.workers[w := Busy(t)])
    case Read(w, bytes, ok) =>
      var t := s.workers[w].task;
      s.(requests := s.requests[t.request := WithBytes(s.requests[t.request], t, w, bytes, ok)],
         workers := s.workers[w := Reporting(t, ok)])
    case Report(w) =>
      var t := s.workers[w].task;
      s.(requests := s.requests[t.request := Reported(s.requests[t.request], t, s.workers[w].ok)],
         workers := s.workers[w := Idle])
    case Return(r) => s.(requests := s.requests[r := s.requests[r].(result := Some(!s.requests[r].failed))])
  }

  // ---------------------------------------------------------------- the invariant

  predicate WasRead(c: Chunk) {
    c.ReadBy? || c.Finished?
  }

  ghost predicate ChunkDest(q: Request, c: nat)
    requires c < Chunks(q.size) && |q.dest| == q.size
  {
    forall p | c * CHUNK <= p < Min(q.size, (c + 1) * CHUNK) :: q.dest[p] == q.file(q.offset + p)
  }

  /** A chunk is read once, and what was read well is in its place. */
  ghost predicate ChunksOk(q: Request) {
    && |q.dest| == q.size && |q.chunks| == |q.visits| == Chunks(q.size) && q.submitted <= |q.chunks|
    && (forall c | 0 <= c < |q.chunks| :: q.chunks[c].Waiting? <==> c >= q.submitted)
    && (forall c | 0 <= c < |q.chunks| :: q.visits[c] == if WasRead(q.chunks[c]) then 1 else 0)
    && forall c | 0 <= c < |q.chunks| && WasRead(q.chunks[c]) && q.chunks[c].ok :: ChunkDest(q, c)
  }

  /** The wait record: what is pending is what is not finished; the verdict is that of all chunks. */
  ghost predicate RecordOk(q: Request) {
    && q.pending == Unfinished(q.chunks)
    && (q.failed <==> exists c :: 0 <= c < |q.chunks| && q.chunks[c] == Finished(false))
    && (q.result.Some? ==> q.pending == 0 && q.result == Some(!q.failed))
  }

  ghost predicate RequestOk(q: Request) {
    ChunksOk(q) && RecordOk(q)
  }

  ghost predicate QueueOk(queue: seq<Task>, requests: seq<Request>) {
    && |queue| <= QUEUE_CAP
    && (forall i | 0 <= i < |queue| :: ChunkIs(requests, queue[i], Queued))
    && forall i, j | 0 <= i < j < |queue| :: queue[i] != queue[j]
  }

  predicate WorkerOk(worker: Worker, w: nat, requests: seq<Request>) {
    match worker
    case Idle => true
    case Busy(t) => ChunkIs(requests, t, Taken(w))
    case Reporting(t, ok) => ChunkIs(requests, t, ReadBy(w, ok))
  }

  /** An unfinished chunk is somewhere: with its caller, in the queue, or with one worker. */
  ghost predicate ChunkHeld(q: Request, r: nat, c: nat, queue: seq<Task>, workers: seq<Worker>)
    requires c < |q.chunks| == Chunks(q.size)
  {
    var t := TaskOf(r, q.offset, q.size, c);
    match q.chunks[c]
    case Queued => t in queue
    case Taken(w) => w < |workers| && workers[w] == Busy(t)
    case ReadBy(w, ok) => w < |workers| && workers[w] == Reporting(t, ok)
    case _ => true
  }

  ghost predicate AllHeld(q: Request, r: nat, queue: seq<Task>, workers: seq<Worker>) {
    |q.chunks| == Chunks(q.size) && forall c | 0 <= c < |q.chunks| :: ChunkHeld(q, r, c, queue, workers)
  }

  ghost predicate Inv(s: System) {
    && (forall r | 0 <= r < |s.requests| :: RequestOk(s.requests[r]))
    && QueueOk(s.queue, s.requests)
    && (forall w | 0 <= w < |s.workers| :: WorkerOk(s.workers[w], w, s.requests))
    && forall r | 0 <= r < |s.requests| :: AllHeld(s.requests[r], r, s.queue, s.workers)
  }

  // ---------------------------------------------------------------- one request

  lemma {:induction false} FreshOk(file: nat -> Byte, offset: nat, dest: seq<Byte>)
    ensures RequestOk(Fresh(file, offset, dest))
  {
    UnfinishedAll(Fresh(file, offset, dest).chunks);
  }

  lemma {:induction false} SubmittedOk(q: Request)
    requires RequestOk(q) && q.submitted < |q.chunks|
    ensures RequestOk(Submitted(q))
  {
    UnfinishedUpdate(q.chunks, q.submitted, Queued);
    VerdictKept(q, Submitted(q), q.submitted);
    DestKept(q, Submitted(q));
  }

  /** A verdict depends on finished chunks only. */
  lemma {:induction false} VerdictKept(q: Request, q': Request, c: nat)
    requires c < |q.chunks| == |q'.chunks| && q'.chunks == q.chunks[c := q'.chunks[c]] && !q.chunks[c].Finished? &&
             !q'.chunks[c].Finished?
    requires q.failed <==> exists c :: 0 <= c < |q.chunks| && q.chunks[c] == Finished(false)
    requires q'.failed == q.failed
    ensures q'.failed <==> exists c :: 0 <= c < |q'.chunks| && q'.chunks[c] == Finished(false)
  {
    if q'.failed {
      var k :| 0 <= k < |q.chunks| && q.chunks[k] == Finished(false);
      assert q'.chunks[k] == Finished(false);
    }
  }

  lemma {:induction false} DestKept(q: Request, q': Request)
    requires q' == q.(chunks := q'.chunks, submitted := q'.submitted, failed := q'.failed, pending := q'.pending)
    requires |q.dest| == q.size
    ensures forall c | 0 <= c < Chunks(q.size) && ChunkDest(q, c) :: ChunkDest(q', c)
  {
  }

  lemma {:induction false} TakenOk(q: Request, t: Task, w: nat)
    requires RequestOk(q) && ChunkOf(t) < |q.chunks| && q.chunks[ChunkOf(t)] == Queued
    ensures RequestOk(TakenBy(q, t, w))
  {
    UnfinishedUpdate(q.chunks, ChunkOf(t), Taken(w));
    VerdictKept(q, TakenBy(q, t, w), ChunkOf(t));
    DestKept(q, TakenBy(q, t, w));
  }

  lemma {:induction false} ReportedOk(q: Request, t: Task, w: nat, ok: bool)
    requires RequestOk(q) && ChunkOf(t) < |q.chunks| && q.chunks[ChunkOf(t)] == ReadBy(w, ok)
    ensures RequestOk(Reported(q, t, ok))
  {
    var c := ChunkOf(t);
    var q' := Reported(q, t, ok);
    UnfinishedUpdate(q.chunks, c, Finished(ok));
    UnfinishedNone(q.chunks);
    DestKept(q, q');
    assert q'.chunks[c] == Finished(ok);
    if q.failed {
      var k :| 0 <= k < |q.chunks| && q.chunks[k] == Finished(false);
      assert q'.chunks[k] == Finished(false);
    }
  }

  /** Writing one chunk's bytes leaves the other chunks' bytes. */
  lemma {:induction false} WithBytesDest(q: Request, t: Task, r: nat, w: nat, bytes: seq<Byte>, ok: bool)
    requires |q.dest| == q.size && |q.chunks| == |q.visits| == Chunks(q.size) && ChunkOf(t) < Chunks(q.size)
    requires t == TaskOf(r, q.offset, q.size, ChunkOf(t)) && BytesOk(q, t, bytes, ok)
    ensures var q' := WithBytes(q, t, w, bytes, ok);
            && |q'.dest| == q.size
            && (ok ==> ChunkDest(q', ChunkOf(t)))
            && forall c | 0 <= c < Chunks(q.size) && c != ChunkOf(t) && ChunkDest(q, c) :: ChunkDest(q', c)
  {
    var q' := WithBytes(q, t, w, bytes, ok);
    assert forall p | t.pos <= p < t.pos + t.size :: q'.dest[p] == bytes[p - t.pos];
    assert forall p | 0 <= p < q.size && !InTask(t, p) :: q'.dest[p] == q.dest[p];
    if ok {
      forall p | t.pos <= p < t.pos + t.size
        ensures q'.dest[p] == q.file(q.offset + p)
      {
        assert bytes[p - t.pos] == q.file(t.offset + (p - t.pos));
      }
    }
  }

  lemma {:induction false} WithBytesOk(q: Request, t: Task, r: nat, w: nat, bytes: seq<Byte>, ok: bool)
    requires RequestOk(q) && ChunkOf(t) < |q.chunks| && q.chunks[ChunkOf(t)] == Taken(w)
    requires t == TaskOf(r, q.offset, q.size, ChunkOf(t)) && BytesOk(q, t, bytes, ok)
    ensures RequestOk(WithBytes(q, t, w, bytes, ok))
  {
    var q' := WithBytes(q, t, w, bytes, ok);
    UnfinishedUpdate(q.chunks, ChunkOf(t), ReadBy(w, ok));
    WithBytesDest(q, t, r, w, bytes, ok);
    VerdictKept(q, q', ChunkOf(t));
  }

  // ---------------------------------------------------------------- one step

  /** Chunk `c` of request `r` moved on, its task with it; nothing else changed. */
  ghost predicate Moves(s: System, s': System, r: nat, c: nat, w: nat) {
    && r < |s.requests| && c < |s.requests[r].chunks|
    && var q := s.requests[r];
       && |s'.requests| == |s.requests|
       && var q' := s'.requests[r];
          && s'.requests == s.requests[r := q']
          && q'.offset == q.offset && q'.size == q.size && |q.chunks| == |q'.chunks| == Chunks(q.size)
          && q'.chunks == q.chunks[c := q'.chunks[c]]
          && var t := TaskOf(r, q.offset, q.size, c);
             && (if q.chunks[c].Waiting? then q'.chunks[c].Queued? && s'.workers == s.workers
                 else WorkerMoves(s.workers, s'.workers, w, t, q.chunks[c], q'.chunks[c]))
             && (t in s'.queue <==> q'.chunks[c] == Queued)
             && forall x | x != t :: x in s'.queue <==> x in s.queue
  }

  predicate WorkerMoves(workers: seq<Worker>, workers': seq<Worker>, w: nat, t: Task, was: Chunk, now: Chunk) {
    && |workers'| == |workers| && w < |workers| && workers' == workers[w := workers'[w]]
    && WorkerAt(workers[w], w, t, was) && WorkerAt(workers'[w], w, t, now)
  }

  /** Worker `w` has `t` exactly when the chunk says so, and nothing else. */
  predicate WorkerAt(worker: Worker, w: nat, t: Task, chunk: Chunk) {
    match chunk
    case Taken(v) => v == w && worker == Busy(t)
    case ReadBy(v, ok) => v == w && worker == Reporting(t, ok)
    case _ => worker == Idle
  }

  /** A task is that of its own chunk only. */
  lemma {:induction false} OtherTask(s: System, s': System, r: nat, c: nat, w: nat, t: Task, chunk: Chunk)
    requires Moves(s, s', r, c, w) && ChunkIs(s.requests, t, chunk)
    requires t != TaskOf(r, s.requests[r].offset, s.requests[r].size, c)
    ensures ChunkIs(s'.requests, t, chunk)
  {
  }

  lemma {:induction false} MovedQueue(s: System, s': System, r: nat, c: nat, w: nat)
    requires Moves(s, s', r, c, w) && QueueOk(s.queue, s.requests)
    requires |s'.queue| <= QUEUE_CAP && forall i, j | 0 <= i < j < |s'.queue| :: s'.queue[i] != s'.queue[j]
    ensures QueueOk(s'.queue, s'.requests)
  {
    var t := TaskOf(r, s.requests[r].offset, s.requests[r].size, c);
    forall i | 0 <= i < |s'.queue|
      ensures ChunkIs(s'.requests, s'.queue[i], Queued)
    {
      var x := s'.queue[i];
      assert x in s'.queue;
      if x == t {
        assert ChunkOf(t) == c;
      } else {
        assert x in s.queue;
        OtherTask(s, s', r, c, w, x, Queued);
      }
    }
  }

  lemma {:induction false} MovedWorkers(s: System, s': System, r: nat, c: nat, w: nat)
    requires Moves(s, s', r, c, w)
    requires forall v | 0 <= v < |s.workers| :: WorkerOk(s.workers[v], v, s.requests)
    ensures forall v | 0 <= v < |s'.workers| :: WorkerOk(s'.workers[v], v, s'.requests)
  {
    var t := TaskOf(r, s.requests[r].offset, s.requests[r].size, c);
    assert ChunkOf(t) == c;
    forall v | 0 <= v < |s'.workers|
      ensures WorkerOk(s'.workers[v], v, s'.requests)
    {
      if v != w {
        assert WorkerOk(s.workers[v], v, s.requests);
        if !s.workers[v].Idle? {
          var x := s.workers[v].task;
          OtherTask(s, s', r, c, w, x, s.requests[x.request].chunks[ChunkOf(x)]);
        }
      }
    }
  }

  lemma {:induction false} TasksDiffer(q: Request, r: nat, c: nat, q': Request, r': nat, c': nat)
    requires c < Chunks(q.size) && c' < Chunks(q'.size) && (r != r' || c != c')
    ensures TaskOf(r, q.offset, q.size, c) != TaskOf(r', q'.offset, q'.size, c')
  {
  }

  lemma {:induction false} MovedHeld(s: System, s': System, r: nat, c: nat, w: nat)
    requires Moves(s, s', r, c, w)
    requires forall k | 0 <= k < |s.requests| :: AllHeld(s.requests[k], k, s.queue, s.workers)
    ensures forall k | 0 <= k < |s'.requests| :: AllHeld(s'.requests[k], k, s'.queue, s'.workers)
  {
    forall k, d | 0 <= k < |s'.requests| && 0 <= d < |s'.requests[k].chunks|
      ensures |s'.requests[k].chunks| == Chunks(s'.requests[k].size)
      ensures ChunkHeld(s'.requests[k], k, d, s'.queue, s'.workers)
    {
      assert AllHeld(s.requests[k], k, s.queue, s.workers);
      assert ChunkHeld(s.requests[k], k, d, s.queue, s.workers);
      if k != r || d != c {
        TasksDiffer(s.requests[k], k, d, s.requests[r], r, c);
      }
    }
    forall k | 0 <= k < |s'.requests|
      ensures AllHeld(s'.requests[k], k, s'.queue, s'.workers)
    {
      assert AllHeld(s.requests[k], k, s.queue, s.workers);
    }
  }

  lemma {:induction false} MovedInv(s: System, s': System, r: nat, c: nat, w: nat)
    requires Inv(s) && Moves(s, s', r, c, w) && RequestOk(s'.requests[r])
    requires |s'.queue| <= QUEUE_CAP && forall i, j | 0 <= i < j < |s'.queue| :: s'.queue[i] != s'.queue[j]
    ensures Inv(s')
  {
    hide RequestOk, AllHeld, ChunkIs, WorkerOk;
    MovedQueue(s, s', r, c, w);
    MovedWorkers(s, s', r, c, w);
    MovedHeld(s, s', r, c, w);
  }

  lemma {:induction false} SubmitInv(s: System, r: nat)
    requires Inv(s) && Enabled(s, Submit(r))
    ensures Inv(After(s, Submit(r)))
  {
    hide ChunkHeld, Unfinished, WorkerOk;
    var s' := After(s, Submit(r));
    var q := s.requests[r];
    assert RequestOk(q);
    SubmittedOk(q);
    var t := TaskOf(r, q.offset, q.size, q.submitted);
    assert ChunkOf(t) == q.submitted;
    forall i | 0 <= i < |s.queue| ensures s.queue[i] != t {
      assert ChunkIs(s.requests, s.queue[i], Queued);
    }
    MovedInv(s, s', r, q.submitted, 0);
  }

  lemma {:induction false} PopInv(s: System, w: nat)
    requires Inv(s) && Enabled(s, Pop(w))
    ensures Inv(After(s, Pop(w)))
  {
    hide ChunkHeld, Unfinished, WorkerOk, AllHeld;
    var s' := After(s, Pop(w));
    var t := s.queue[0];
    assert ChunkIs(s.requests, t, Queued) && RequestOk(s.requests[t.request]);
    TakenOk(s.requests[t.request], t, w);
    assert s.queue == [t] + s'.queue;
    MovedInv(s, s', t.request, ChunkOf(t), w);
  }

  lemma {:induction false} ReadInv(s: System, w: nat, bytes: seq<Byte>, ok: bool)
    requires Inv(s) && Enabled(s, Read(w, bytes, ok))
    ensures Inv(After(s, Read(w, bytes, ok)))
  {
    hide ChunkHeld, Unfinished, AllHeld, BytesOk;
    var s' := After(s, Read(w, bytes, ok));
    var t := s.workers[w].task;
    assert WorkerOk(s.workers[w], w, s.requests) && RequestOk(s.requests[t.request]);
    WithBytesOk(s.requests[t.request], t, t.request, w, bytes, ok);
    NotQueued(s, t);
    MovedInv(s, s', t.request, ChunkOf(t), w);
  }

  lemma {:induction false} NotQueued(s: System, t: Task)
    requires QueueOk(s.queue, s.requests) && IsTask(s.requests, t) && s.requests[t.request].chunks[ChunkOf(t)] != Queued
    ensures t !in s.queue
  {
    forall i | 0 <= i < |s.queue|
      ensures s.queue[i] != t
    {
      assert ChunkIs(s.requests, s.queue[i], Queued);
    }
  }

  lemma {:induction false} ReportInv(s: System, w: nat)
    requires Inv(s) && Enabled(s, Report(w))
    ensures Inv(After(s, Report(w)))
  {
    hide ChunkHeld, Unfinished, AllHeld;
    var s' := After(s, Report(w));
    var t := s.workers[w].task;
    assert WorkerOk(s.workers[w], w, s.requests) && RequestOk(s.requests[t.request]);
    ReportedOk(s.requests[t.request], t, w, s.workers[w].ok);
    NotQueued(s, t);
    MovedInv(s, s', t.request, ChunkOf(t), w);
  }

  lemma {:induction false} BeginInv(s: System, file: nat -> Byte, offset: nat, dest: seq<Byte>)
    requires Inv(s)
    ensures Inv(After(s, Begin(file, offset, dest)))
  {
    hide RequestOk;
    var s' := After(s, Begin(file, offset, dest));
    FreshOk(file, offset, dest);
    forall i | 0 <= i < |s'.queue| ensures ChunkIs(s'.requests, s'.queue[i], Queued) {
      assert ChunkIs(s.requests, s.queue[i], Queued);
    }
    forall w | 0 <= w < |s'.workers| ensures WorkerOk(s'.workers[w], w, s'.requests) {
      assert WorkerOk(s.workers[w], w, s.requests);
    }
    forall k | 0 <= k < |s'.requests| ensures AllHeld(s'.requests[k], k, s'.queue, s'.workers) {
      if k < |s.requests| { assert AllHeld(s.requests[k], k, s.queue, s.workers); }
    }
  }

  lemma {:induction false} ReturnInv(s: System, r: nat)
    requires Inv(s) && Enabled(s, Return(r))
    ensures Inv(After(s, Return(r)))
  {
    var s' := After(s, Return(r));
    assert RequestOk(s.requests[r]);
    ReturnedOk(s.requests[r], s'.requests[r]);
    hide RequestOk;
    forall i | 0 <= i < |s'.queue| ensures ChunkIs(s'.requests, s'.queue[i], Queued) {
      assert ChunkIs(s.requests, s.queue[i], Queued);
    }
    forall w | 0 <= w < |s'.workers| ensures WorkerOk(s'.workers[w], w, s'.requests) {
      assert WorkerOk(s.workers[w], w, s.requests);
    }
    forall k | 0 <= k < |s'.requests| ensures AllHeld(s'.requests[k], k, s'.queue, s'.workers) {
      assert AllHeld(s.requests[k], k, s.queue, s.workers);
      HeldKept(s.requests[k], s'.requests[k], k, s.queue, s.workers);
    }
  }

  lemma {:induction false} ReturnedOk(q: Request, q': Request)
    requires RequestOk(q) && q.pending == 0 && q' == q.(result := Some(!q.failed))
    ensures RequestOk(q')
  {
    DestKept(q, q.(chunks := q.chunks));
    forall c | 0 <= c < |q.chunks| && ChunkDest(q, c) ensures ChunkDest(q', c) {}
  }

  lemma {:induction false} HeldKept(q: Request, q': Request, r: nat, queue: seq<Task>, workers: seq<Worker>)
    requires AllHeld(q, r, queue, workers) && q'.chunks == q.chunks && q'.offset == q.offset && q'.size == q.size
    ensures AllHeld(q', r, queue, workers)
  {
    forall c | 0 <= c < |q.chunks| ensures ChunkHeld(q', r, c, queue, workers) {
      assert ChunkHeld(q, r, c, queue, workers);
    }
  }

  lemma {:induction false} StepInv(s: System, step: Step)
    requires Inv(s) && Enabled(s, step)
    ensures Inv(After(s, step))
  {
    hide Inv, After, Enabled;
    match step
    case Begin(file, offset, dest) => BeginInv(s, file, offset, dest);
    case Submit(r) => SubmitInv(s, r);
    case Pop(w) => PopInv(s, w);
    case Read(w, bytes, ok) => ReadInv(s, w, bytes, ok);
    case Report(w) => ReportInv(s, w);
    case Return(r) => ReturnInv(s, r);
  }

  // ---------------------------------------------------------------- runs

  ghost predicate Initial(s: System) {
    s.queue == [] && s.requests == [] && |s.workers| == THREADS && forall w | 0 <= w < THREADS :: s.workers[w] == Idle
  }

  ghost predicate IsRun(ss: seq<System>, steps: seq<Step>) {
    && |ss| == |steps| + 1 && Initial(ss[0])
    && forall i | 0 <= i < |steps| :: Enabled(ss[i], steps[i]) && ss[i + 1] == After(ss[i], steps[i])
  }

  lemma {:induction false} RunInv(ss: seq<System>, steps: seq<Step>, i: nat)
    requires IsRun(ss, steps) && i < |ss|
    ensures Inv(ss[i]) && |ss[i].workers| == THREADS
  {
    hide Inv, Enabled;
    if i == 0 {
      InitialInv(ss[0]);
    } else {
      RunInv(ss, steps, i - 1);
      assert Enabled(ss[i - 1], steps[i - 1]) && ss[i - 1 + 1] == After(ss[i - 1], steps[i - 1]);
      StepInv(ss[i - 1], steps[i - 1]);
      WorkersStay(ss[i - 1], steps[i - 1]);
    }
  }

  lemma {:induction false} InitialInv(s: System)
    requires Initial(s)
    ensures Inv(s)
  {
  }

  lemma {:induction false} WorkersStay(s: System, step: Step)
    requires Enabled(s, step)
    ensures |After(s, step).workers| == |s.workers|
  {
  }

  /**
   A returned call is one sequential read, whatever the interleaving of callers and workers:
   it says true exactly when every chunk was read well, and then the destination holds the
   file's bytes; each byte of the range lies in one chunk, which was read once.
   */
  lemma {:induction false} ReturnedIsSequential(ss: seq<System>, steps: seq<Step>, i: nat, r: nat)
    requires IsRun(ss, steps) && i < |ss| && r < |ss[i].requests| && ss[i].requests[r].result.Some?
    ensures var q := ss[i].requests[r];
            && |q.dest| == q.size && |q.chunks| == |q.visits| == Chunks(q.size)
            && (q.result.value <==> forall c | 0 <= c < |q.chunks| :: q.chunks[c] == Finished(true))
            && (q.result.value ==> forall p | 0 <= p < q.size :: q.dest[p] == q.file(q.offset + p))
            && forall p: nat | p < q.size :: p / CHUNK < |q.visits| && q.visits[p / CHUNK] == 1
  {
    RunInv(ss, steps, i);
    var q := ss[i].requests[r];
    assert RequestOk(q);
    UnfinishedNone(q.chunks);
    if q.result.value {
      forall c | 0 <= c < |q.chunks| ensures q.chunks[c] == Finished(true) && ChunkDest(q, c) {
        assert q.chunks[c].Finished?;
      }
    }
    forall p: nat | p < q.size
      ensures p / CHUNK < |q.visits| && q.visits[p / CHUNK] == 1
      ensures q.result.value ==> q.dest[p] == q.file(q.offset + p)
    {
      ChunksTile(r, q.offset, q.size, p);
      if q.result.value { assert ChunkDest(q, p / CHUNK); }
    }
  }

  /** No worker holds or can get a task of a call that has returned. */
  lemma {:induction false} ReturnedIsLeftAlone(ss: seq<System>, steps: seq<Step>, i: nat, r: nat)
    requires IsRun(ss, steps) && i < |ss| && r < |ss[i].requests| && ss[i].requests[r].result.Some?
    ensures forall k | 0 <= k < |ss[i].queue| :: ss[i].queue[k].request != r
    ensures forall w | 0 <= w < |ss[i].workers| :: ss[i].workers[w].Idle? || ss[i].workers[w].task.request != r
  {
    RunInv(ss, steps, i);
    var s := ss[i];
    assert RequestOk(s.requests[r]);
    UnfinishedNone(s.requests[r].chunks);
    forall k | 0 <= k < |s.queue| ensures s.queue[k].request != r {
      assert ChunkIs(s.requests, s.queue[k], Queued);
    }
    forall w | 0 <= w < THREADS && !s.workers[w].Idle? ensures s.workers[w].task.request != r {
      assert WorkerOk(s.workers[w], w, s.requests);
    }
  }

  /** After its return, nothing touches a call's record or its destination. */
  lemma {:induction false} ReturnedIsFrozen(ss: seq<System>, steps: seq<Step>, i: nat, j: nat, r: nat)
    requires IsRun(ss, steps) && i <= j < |ss| && r < |ss[i].requests| && ss[i].requests[r].result.Some?
    ensures r < |ss[j].requests| && ss[j].requests[r] == ss[i].requests[r]
    decreases j
  {
    hide Inv;
    if i < j {
      ReturnedIsFrozen(ss, steps, i, j - 1, r);
      ReturnedIsLeftAlone(ss, steps, j - 1, r);
      RunInv(ss, steps, j - 1);
      AllSubmitted(ss[j - 1], r);
      assert Enabled(ss[j - 1], steps[j - 1]) && ss[j - 1 + 1] == After(ss[j - 1], steps[j - 1]);
      WorkersStay(ss[j - 1], steps[j - 1]);
    }
  }

  lemma {:induction false} AllSubmitted(s: System, r: nat)
    requires Inv(s) && r < |s.requests| && s.requests[r].result.Some?
    ensures s.requests[r].submitted == |s.requests[r].chunks|
  {
    var q := s.requests[r];
    assert RequestOk(q);
    UnfinishedNone(q.chunks);
    if |q.chunks| > 0 { assert q.chunks[|q.chunks| - 1].Finished?; }
  }

  /** The worker can go on. */
  lemma {:induction false} WorkerGoesOn(s: System, w: nat) returns (step: Step)
    requires Inv(s) && w < |s.workers| && !s.workers[w].Idle?
    ensures Enabled(s, step) && !step.Begin?
  {
    hide AllHeld, QueueOk, RecordOk;
    var t := s.workers[w].task;
    assert WorkerOk(s.workers[w], w, s.requests) && RequestOk(s.requests[t.request]);
    if s.workers[w].Busy? {
      var q := s.requests[t.request];
      var bytes := seq(t.size, k requires 0 <= k < t.size => q.file(t.offset + k));
      step := Read(w, bytes, true);
    } else {
      step := Report(w);
    }
  }

  /** No deadlock: as long as some call has not returned, something can happen. */
  lemma {:induction false} NoDeadlock(ss: seq<System>, steps: seq<Step>, i: nat, r: nat) returns (step: Step)
    requires IsRun(ss, steps) && i < |ss| && r < |ss[i].requests| && ss[i].requests[r].result == None
    ensures Enabled(ss[i], step) && !step.Begin?
  {
    hide ChunkIs, ChunkDest;
    RunInv(ss, steps, i);
    var s := ss[i];
    var q := s.requests[r];
    assert RequestOk(q) && AllHeld(q, r, s.queue, s.workers);
    UnfinishedNone(q.chunks);
    if w :| 0 <= w < THREADS && !s.workers[w].Idle? {
      step := WorkerGoesOn(s, w);
    } else if |s.queue| > 0 {
      QueueHead(s);
      step := Pop(0);
    } else if q.submitted < |q.chunks| {
      step := Submit(r);
    } else {
      forall c | 0 <= c < |q.chunks| ensures q.chunks[c].Finished? {
        assert ChunkHeld(q, r, c, s.queue, s.workers);
        assert q.chunks[c].Waiting? <==> c >= q.submitted;
      }
      step := Return(r);
    }
  }

  lemma {:induction false} QueueHead(s: System)
    requires QueueOk(s.queue, s.requests) && |s.queue| > 0
    ensures IsTask(s.requests, s.queue[0])
  {
    assert ChunkIs(s.requests, s.queue[0], Queued);
  }
}
