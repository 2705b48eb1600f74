/**
 Host buffers: `src/hostbuf.c`.  A buffer is a reserved address range of which a prefix is
 committed, and a prefix of that is in use.  It grows in steps that also warm up pages ahead
 of their use, and shrinks by queueing decommits.
 */
module HostBuffers {
  import opened Basics
  import opened Decommit

  function AlignUp(n: nat, a: nat): (r: nat)
    requires a > 0
  {
    (n + a - 1) / a * a
  }

  lemma {:induction false} AlignUpFacts(n: nat, a: nat)
    requires a > 0
    ensures n <= AlignUp(n, a) < n + a && AlignUp(n, a) % a == 0
  {
    var q := (n + a - 1) / a;
    assert n + a - 1 == q * a + (n + a - 1) % a;
    MultipleMod(q, a);
  }

  lemma {:induction false} MultipleMod(q: nat, a: nat)
    requires a > 0
    ensures (q * a) % a == 0
  {
    var x := q * a;
    DivisionIs(x, a, q, x / a, x % a);
  }

  /** Quotient and remainder are unique. */
  lemma {:induction false} DivisionIs(x: nat, a: nat, q: nat, d: nat, r: nat)
    requires x == q * a == d * a + r && r < a
    ensures q == d && r == 0
  {
    assert q > d ==> q * a >= (d + 1) * a by { if q > d { TimesMono(d + 1, q, a); } }
    assert q < d ==> d * a >= (q + 1) * a by { if q < d { TimesMono(q + 1, d, a); } }
  }

  lemma {:induction false} TimesMono(k: nat, q: nat, a: nat)
    requires k <= q
    ensures k * a <= q * a
  {
  }

  /** A multiple of `a` that is at least `n` is at least `n` rounded up. */
  lemma {:induction false} AlignUpLeast(n: nat, a: nat, m: nat)
    requires a > 0 && m % a == 0 && n <= m
    ensures AlignUp(n, a) <= m
  {
    var q, k := (n + a - 1) / a, m / a;
    DivisionLeast(n, a, k, q, (n + a - 1) % a);
  }

  lemma {:induction false} DivisionLeast(n: nat, a: nat, k: nat, q: nat, r: nat)
    requires n + a == q * a + r + 1 && n <= k * a
    ensures q * a <= k * a
  {
    if k < q { TimesMono(k + 1, q, a); } else { TimesMono(q, k, a); }
  }

  // ---------------------------------------------------------------- truncation in chunks

  /** The decommits that cut `done .. end` of a buffer into pieces the queue can take. */
  function Chunks(b: nat, base: nat, done: nat, end: nat): seq<Job>
    decreases end - done
  {
    if done >= end then []
    else [Job(b, base + done, Min(QUEUE_LIMIT, end - done), false)] +
         Chunks(b, base, done + Min(QUEUE_LIMIT, end - done), end)
  }

  predicate Covers(job: Job, x: nat) {
    job.start <= x < job.start + job.size
  }

  ghost predicate InSome(jobs: seq<Job>, x: nat) {
    exists i :: 0 <= i < |jobs| && Covers(jobs[i], x)
  }

  ghost predicate Disjoint(jobs: seq<Job>) {
    forall i, j, x: nat | 0 <= i < j < |jobs| && Covers(jobs[i], x) :: !Covers(jobs[j], x)
  }

  /** The chunks tile the range exactly: each byte of it in one chunk, no other in any, none too big. */
  lemma {:induction false} ChunksTile(b: nat, base: nat, done: nat, end: nat)
    ensures var cs := Chunks(b, base, done, end);
            && (forall i | 0 <= i < |cs| :: 0 < cs[i].size <= QUEUE_LIMIT && !cs[i].release && cs[i].buffer == b)
            && (forall x: nat :: InSome(cs, x) <==> base + done <= x < base + end)
            && Disjoint(cs)
    decreases end - done
  {
    if done < end {
      var n := Min(QUEUE_LIMIT, end - done);
      ChunksTile(b, base, done + n, end);
      var first, rest := Job(b, base + done, n, false), Chunks(b, base, done + n, end);
      var cs := Chunks(b, base, done, end);
      assert cs == [first] + rest;
      forall x: nat
        ensures InSome(cs, x) <==> Covers(first, x) || InSome(rest, x)
      {
        if Covers(first, x) { assert Covers(cs[0], x); }
        if InSome(rest, x) {
          var i :| 0 <= i < |rest| && Covers(rest[i], x);
          assert Covers(cs[i + 1], x);
        }
      }
      forall i, j, x: nat | 0 <= i < j < |cs| && Covers(cs[i], x)
        ensures !Covers(cs[j], x)
      {
        assert cs[j] == rest[j - 1];
        if i == 0 {
          assert Covers(rest[j - 1], x) ==> InSome(rest, x);
        } else {
          assert cs[i] == rest[i - 1];
        }
      }
    }
  }

  lemma {:induction false} ChunksNone(b: nat, base: nat, end: nat)
    ensures Chunks(b, base, end, end) == []
  {
  }

  lemma {:induction false} AlignUpZero(a: nat)
    requires a > 0
    ensures AlignUp(0, a) == 0
  {
  }

  lemma {:induction false} ChunksSnoc(b: nat, base: nat, start: nat, done: nat, end: nat, was: seq<Job>)
    requires start <= done < end && Chunks(b, base, start, end) == was + Chunks(b, base, done, end)
    ensures var n := Min(QUEUE_LIMIT, end - done);
            Chunks(b, base, start, end) == (was + [Job(b, base + done, n, false)]) + Chunks(b, base, done + n, end)
  {
  }

  datatype Span = Span(start: nat, end: nat)

  predicate Between(x: nat, start: nat, end: nat) {
    start <= x < end
  }

  /** The offsets from `start` up to `end`. */
  ghost function Offsets(start: nat, end: nat): iset<nat> {
    iset x: nat | Between(x, start, end)
  }

  lemma {:induction false} OffsetsAre(start: nat, end: nat)
    ensures forall x: nat :: x in Offsets(start, end) <==> start <= x < end
  {
  }

  lemma {:induction false} OffsetsSplit(a: nat, b: nat, c: nat)
    requires a <= b <= c
    ensures Offsets(a, c) == Offsets(a, b) + Offsets(b, c) && Offsets(a, b) !! Offsets(b, c)
    ensures Offsets(a, c) - Offsets(b, c) == Offsets(a, b)
  {
  }

  lemma {:induction false} OffsetsNone(a: nat)
    ensures Offsets(a, a) == iset{}
  {
  }

  lemma {:induction false} OffsetsEmpty(a: nat, b: nat)
    ensures b <= a ==> Offsets(a, b) == iset{}
  {
  }

  predicate WholeChunks(x: int) {
    x % QUEUE_LIMIT == 0
  }

  lemma {:induction false} WholeNone()
    ensures WholeChunks(0)
  {
  }

  lemma {:induction false} WholeMore(x: int)
    ensures WholeChunks(x) ==> WholeChunks(x + QUEUE_LIMIT)
  {
  }

  /** Sizes are 64 bits wide: one more than the largest. */
  const WORD: nat := 0x1_0000_0000_0000_0000

  class HostBuffer {
    const id: nat
    const pageSize: nat
    const reserved: nat
    const prewarm: nat
    const queue: DecommitQueue

    var base: nat
    var size: nat
    var committed: nat
    var lastChunk: nat

    /** What the prewarm pool may still be clearing in the background. */
    ghost var background: Span

    /** The bytes that were warmed up since they were committed, and the pool is done with them. */
    ghost var warmed: iset<nat>

    /** The bytes that stay committed once all queued decommits are done. */
    ghost var present: iset<nat>

    /** The driver: addresses at which a registered range starts. */
    var registered: set<nat>

    /** System, prewarm pool and driver grant whatever they can. */
    const willing: bool

    ghost predicate Shape()
      reads this
    {
      && pageSize > 0 && reserved % pageSize == 0
      && size <= committed <= reserved && committed % pageSize == 0
      && (base == 0 ==> committed == 0) && lastChunk < WORD
    }

    ghost predicate Valid()
      reads this, queue
    {
      && queue.Valid() && Shape()
      && present == Offsets(0, committed)
      && (background.start >= background.end || (size <= background.start && background.end <= committed))
    }

    /** None of this buffer's decommits is under way. */
    ghost predicate Settled()
      reads this, queue
    {
      forall k | 0 <= k < |queue.history| && queue.history[k].buffer == id ::
        k < |queue.done| && queue.done[k] == queue.history[k]
    }

    /** `hostbuf_allocate`. */
    constructor (id: nat, pageSize: nat, granularity: nat, prewarm: nat, reservedSize: nat, queue: DecommitQueue)
      requires queue.Valid() && pageSize > 0 && granularity > 0 && granularity % pageSize == 0
      ensures Valid() && base == 0 && size == 0 && lastChunk == 0 && this.queue == queue
      ensures registered == {} && reservedSize + prewarm <= reserved < reservedSize + prewarm + granularity
    {
      AlignUpFacts(reservedSize + prewarm, granularity);
      AlignedTwice((reservedSize + prewarm + granularity - 1) / granularity, granularity, pageSize);
      this.id, this.pageSize, this.prewarm, this.queue := id, pageSize, prewarm, queue;
      reserved := AlignUp(reservedSize + prewarm, granularity);
      willing := *;
      base, size, committed, lastChunk := 0, 0, 0, 0;
      background, present, warmed, registered := Span(0, 0), iset{}, iset{}, {};
    }

    // -------------------------------------------------------------- the system

    /** Commit a range of the reservation, which nothing is still giving back. */
    method Commit(start: nat, len: nat) returns (ok: bool)
      requires Settled() && base != 0 && start + len <= reserved
      modifies this`present, this`warmed
      ensures present == if ok then old(present) + Offsets(start, start + len) else old(present)
      ensures warmed == if ok then old(warmed) - Offsets(start, start + len) else old(warmed)
      ensures willing ==> ok
    {
      ok := *;
      if willing { ok := true; }
      if ok {
        present, warmed := present + Offsets(start, start + len), warmed - Offsets(start, start + len);
      }
    }

    method DecommitNow(start: nat, len: nat)
      modifies this`present
      ensures present == old(present) - Offsets(start, start + len)
    {
      present := present - Offsets(start, start + len);
    }

    /** `hostbuf_prewarm_join`. */
    method Join()
      modifies this`background, this`warmed
      ensures background == Span(0, 0)
      ensures warmed == old(warmed) + Offsets(old(background).start, old(background).end)
    {
      warmed := warmed + Offsets(background.start, background.end);
      background := Span(0, 0);
    }

    /** `hostbuf_prewarm_start`: zeros go to committed pages at `start` and above, which nobody uses yet. */
    method Launch(start: nat, end: nat) returns (ok: bool)
      requires size <= start < end && Offsets(start, end) <= present
      modifies this`background
      ensures background == if ok then Span(start, end) else old(background)
      ensures willing ==> ok
    {
      ok := *;
      if willing { ok := true; }
      if ok { background := Span(start, end); }
    }

    /** `cuMemHostRegister`. */
    method RegisterAt(address: nat) returns (ok: bool)
      modifies this`registered
      ensures registered == if ok then old(registered) + {address} else old(registered)
      ensures willing ==> ok
    {
      ok := *;
      if willing { ok := true; }
      if ok { registered := registered + {address}; }
    }

    /** `cuMemHostUnregister` takes the start of a registered range; it may fail of itself, too. */
    method UnregisterAt(address: nat) returns (ok: bool, ghost fault: bool)
      modifies this`registered
      ensures ok <==> address in old(registered) && !fault
      ensures registered == if ok then old(registered) - {address} else old(registered)
      ensures willing ==> !fault
    {
      ok := *;
      if willing { ok := true; }
      fault := !ok;
      if address !in registered { ok := false; }
      if ok { registered := registered - {address}; }
    }

    /** `hostbuf_register`. */
    method Register(offset: nat, len: nat) returns (ok: bool)
      requires Valid()
      modifies this`registered
      ensures Valid() && (offset + len > size ==> !ok) && (offset + len <= size && len == 0 ==> ok)
      ensures registered == if ok && len > 0 then old(registered) + {base + offset} else old(registered)
      ensures willing ==> (ok <==> offset + len <= size)
    {
      if offset + len > size { return false; }
      ok := true;
      if len > 0 {
        ok := RegisterAt(base + offset);
      }
    }

    /** `hostbuf_unregister`. */
    method Unregister(offset: nat) returns (ok: bool, ghost fault: bool)
      requires Valid()
      modifies this`registered
      ensures Valid() && (ok <==> offset < size && base + offset in old(registered) && !fault)
      ensures registered == if ok then old(registered) - {base + offset} else old(registered)
      ensures willing ==> !fault
    {
      ok, fault := false, false;
      if offset < size {
        ok, fault := UnregisterAt(base + offset);
      }
    }

    // -------------------------------------------------------------- growing

    /** Is the wanted prefix far enough ahead to be worth a launch? */
    predicate Worthwhile(newSize: nat)
      requires pageSize > 0
      reads this
    {
      AlignUp(newSize + prewarm, pageSize) >= committed + prewarm / 4
    }

    /** Warm up what is handed out and newly committed, and wait for it. */
    method WarmNow(newSize: nat) returns (ok: bool)
      requires size <= committed < newSize && Offsets(committed, newSize) <= present && background == Span(0, 0)
      modifies this`background, this`warmed
      ensures background == Span(0, 0) && (willing ==> ok)
      ensures ok ==> Offsets(committed, newSize) <= warmed
    {
      hide Offsets;
      ok := Launch(committed, newSize);
      Join();
    }

    /** Register what is handed out, and start on `start .. end`; when that fails, unregister it again. */
    method RegisterAndLaunch(start: nat, end: nat, doRegister: bool) returns (ok: bool, ghost fault: bool)
      requires size <= start && (start < end ==> Offsets(start, end) <= present) && background == Span(0, 0)
      modifies this`background, this`registered
      ensures ok && doRegister ==> registered == old(registered) + {base + size}
      ensures ok && !doRegister ==> registered == old(registered)
      ensures background == if ok && start < end then Span(start, end) else Span(0, 0)
      ensures !ok && !fault ==> registered == old(registered) || registered == old(registered) - {base + size}
      ensures willing ==> ok
    {
      hide Offsets;
      ok, fault := true, false;
      if doRegister {
        ok := RegisterAt(base + size);
      }
      if ok && start < end {
        ok := Launch(start, end);
        if !ok && doRegister {
          var _, f := UnregisterAt(base + size);
          fault := f;
        }
      }
    }

    /** Commit up to `target`, warm up what is handed out now, and start on the rest. */
    method GrowTo(newSize: nat, target: nat, doRegister: bool) returns (ok: bool, ghost fault: bool)
      requires Valid() && Settled() && base != 0 && size < newSize <= target && committed <= target <= reserved
      requires target % pageSize == 0
      modifies this`size, this`committed, this`background, this`present, this`warmed, this`registered
      ensures ok && doRegister ==> registered == old(registered) + {base + old(size)}
      ensures ok && !doRegister ==> registered == old(registered)
      ensures Valid() && (ok ==> size == newSize && committed == target)
      ensures !ok ==> size == old(size) && committed == old(committed)
      ensures ok ==> Offsets(old(committed), newSize) <= warmed
      ensures ok ==>
                var start := if old(committed) > newSize then old(committed) else newSize;
                background == if start < target then Span(start, target) else Span(0, 0)
      ensures !ok && !fault ==> registered == old(registered) || registered == old(registered) - {base + size}
      ensures willing ==> ok
    {
      hide Inv, Offsets;
      var tail := target - committed;
      var prewarmStart := if committed > newSize then committed else newSize;
      OffsetsSplit(0, committed, target);
      OffsetsSplit(committed, prewarmStart, target);
      fault := false;
      OffsetsEmpty(committed, newSize);
      Join();
      if tail > 0 {
        ok := Commit(committed, tail);
        if !ok { return; }
      }
      ok := true;
      if newSize > committed {
        ok := WarmNow(newSize);
      }
      if ok {
        ok, fault := RegisterAndLaunch(prewarmStart, target, doRegister);
      }
      if !ok {
        if tail > 0 {
          DecommitNow(committed, tail);
        }
        return;
      }
      committed := target;
      size := newSize;
    }

    /**
     `hostbuf_grow`.  Zeros are only ever written above what was in use, and when it returns,
     only above what is in use now.
     */
    method Grow(newSize: nat, doRegister: bool) returns (ok: bool, ghost fault: bool)
      requires Valid() && Settled()
      modifies this`base, this`size, this`committed, this`background, this`present, this`warmed, this`registered
      ensures Valid()
      ensures ok && !(doRegister && newSize > old(size)) ==> registered == old(registered)
      ensures ok && doRegister && newSize > old(size) ==> registered == old(registered) + {base + old(size)}
      ensures newSize > old(size) && base == 0 ==> !ok
      ensures ok ==> size == (if newSize <= old(size) then old(size) else newSize)
      ensures !ok ==> size == old(size) && committed == old(committed)
      ensures newSize > old(size) ==>
                var target := AlignUp(newSize + prewarm, pageSize);
                var wanted := if target < old(committed) + prewarm / 4 then old(committed) else target;
                && (wanted > reserved ==> !ok) && (ok ==> committed == wanted)
                && (willing ==> base != 0 && (ok <==> wanted <= reserved))
      ensures ok && newSize > old(size) ==> Offsets(old(committed), newSize) <= warmed
      ensures ok && newSize > old(size) ==>
                var start := if old(committed) > newSize then old(committed) else newSize;
                background == if start < committed then Span(start, committed) else Span(0, 0)
      ensures !ok && !fault ==> registered == old(registered) || registered == old(registered) - {base + size}
      ensures old(base) != 0 ==> base == old(base)
      ensures newSize <= old(size) ==> ok
    {
      hide Inv, AlignUp, Offsets;
      fault := false;
      if newSize <= size {
        return true, fault;
      }
      var target := AlignUp(newSize + prewarm, pageSize);
      AlignUpFacts(newSize + prewarm, pageSize);
      if target < committed + prewarm / 4 {
        target := committed;
      }
      if base == 0 {
        base := *;
        if willing && base == 0 { base := pageSize; }
        if base == 0 {
          return false, fault;
        }
      }
      if target > reserved {
        return false, fault;
      }
      ok, fault := GrowTo(newSize, target, doRegister);
    }

    /** Take the last chunk back; unsigned arithmetic wraps around when it is larger than the buffer. */
    method DropLastChunk(doUnregister: bool) returns (ok: bool, wrapped: bool, ghost fault: bool)
      requires Valid() && lastChunk > 0
      modifies this`size, this`registered
      ensures var start := old(size) + (if lastChunk <= old(size) then 0 else WORD) - lastChunk;
              var found := !doUnregister || ((base + start) % WORD in old(registered) && !fault);
              && size == (if found then start else old(size)) && (ok <==> found && lastChunk <= old(size))
              && (wrapped <==> found && lastChunk > old(size))
      ensures !wrapped ==> Valid()
      ensures !doUnregister ==> registered == old(registered)
      ensures willing ==> !fault
    {
      hide Inv, Offsets;
      fault, wrapped := false, false;
      var start := if lastChunk <= size then size - lastChunk else size + WORD - lastChunk;
      if doUnregister {
        ok, fault := UnregisterAt((base + start) % WORD);
        if !ok { return; }
      }
      wrapped := lastChunk > size;
      size := start;
      ok := !wrapped;
    }

    /**
     `hostbuf_extend`.  `offset` is where the new chunk starts; the change of size is
     reported also on failure.  A last chunk larger than the buffer makes a reallocation
     wrap around: the size becomes a number near 2^64, and the model ends there.
     */
    method Extend(len: nat, reallocate: bool, doRegister: bool)
      returns (ok: bool, offset: nat, delta: int, wrapped: bool, ghost fault: bool)
      requires Valid() && len < WORD
      modifies this`base, this`size, this`committed, this`background, this`present, this`warmed, this`registered,
          this`lastChunk, queue
      ensures wrapped <==>
                (reallocate && old(lastChunk) > old(size)
                 && (doRegister ==>
                       (old(base) + old(size) + WORD - old(lastChunk)) % WORD in old(registered) && !fault))
      ensures wrapped ==> !ok && size == old(size) + WORD - old(lastChunk)
      ensures !wrapped ==> Valid() && delta == size - old(size)
      ensures ok ==> size == offset + len && lastChunk == len
      ensures ok ==> offset == old(size) - (if reallocate then old(lastChunk) else 0)
      ensures ok && len > 0 && doRegister ==> base + offset in registered
      ensures ok && !doRegister ==> registered == old(registered)
      ensures !ok ==> lastChunk == old(lastChunk)
      ensures !ok && !wrapped ==> size == old(size) || (reallocate && size == old(size) - old(lastChunk))
      ensures !ok && !wrapped && size != old(size) ==> (lastChunk <= size <==> 2 * lastChunk <= old(size))
      ensures ok ==> background.start >= background.end || background.start >= size
      ensures willing && (reallocate ==> old(lastChunk) <= old(size)) &&
              (reallocate && old(lastChunk) > 0 && doRegister ==>
                 (old(base) + old(size) - old(lastChunk)) % WORD in old(registered)) ==>
                var kept := old(size) - (if reallocate then old(lastChunk) else 0);
                && (ok <==> len == 0 || !old(Worthwhile(kept + len)) ||
                            AlignUp(kept + len + prewarm, pageSize) <= reserved)
                && (len > 0 ==> base != 0)
      ensures willing ==> !fault
    {
      hide Inv, AlignUp, Offsets;
      queue.Wait(id);
      var oldSize := size;
      delta, offset, wrapped, fault := 0, 0, false, false;
      if reallocate && lastChunk > 0 {
        ok, wrapped, fault := DropLastChunk(doRegister);
        if !ok { return; }
      }
      offset := size;
      ghost var rollback;
      ok, rollback := Grow(offset + len, doRegister);
      if ok {
        lastChunk := size - offset;
      }
      delta := size - oldSize;
    }

    // -------------------------------------------------------------- shrinking

    /** Queue the decommits of `start .. committed`, piece by piece. */
    method DecommitTail(start: nat) returns (ok: bool, ghost done: nat, ghost queued: seq<Job>)
      requires queue.Valid() && start <= committed
      modifies this`present, queue
      ensures queue.Valid() && start <= done <= committed && (ok <==> done == committed)
      ensures !ok ==> WholeChunks(done - start)
      ensures present == old(present) - Offsets(start, done)
      ensures queue.history == old(queue.history) + queued
      ensures Chunks(id, base, start, committed) == queued + Chunks(id, base, done, committed)
      ensures ok ==> queued == Chunks(id, base, start, committed)
      ensures queue.willing ==> ok
    {
      hide Inv, Offsets, Chunks, WholeChunks;
      var next := start;
      queued := [];
      ok := true;
      OffsetsNone(start);
      WholeNone();
      while next < committed
        invariant start <= next <= committed && queue.Valid() && ok
        invariant next == committed || WholeChunks(next - start)
        invariant queue.history == old(queue.history) + queued
        invariant Chunks(id, base, start, committed) == queued + Chunks(id, base, next, committed)
        invariant present == old(present) - Offsets(start, next)
      {
        var chunk := Min(QUEUE_LIMIT, committed - next);
        var job := Job(id, base + next, chunk, false);
        ok := queue.EnqueueAsync(job);
        if !ok { return ok, next, queued; }
        WholeMore(next - start);
        ChunksSnoc(id, base, start, next, committed, queued);
        OffsetsSplit(start, next, next + chunk);
        queued := queued + [job];
        present := present - Offsets(next, next + chunk);
        next := next + chunk;
      }
      done := next;
      ChunksNone(id, base, committed);
    }

    /**
     `hostbuf_truncate_impl`.  What is given back lies above the new size, in chunks that
     tile it; an emptied buffer gives up its address space behind them.  Only the range
     registered at the new size is unregistered.  `fault` and `refused` say that the driver
     failed of itself, and that a job could not be allocated.  A job refused behind others
     leaves the buffer claiming bytes that go: whole chunks, up to `done`.
     */
    method Truncate(newSize: nat, doUnregister: bool)
      returns (ok: bool, ghost done: nat, ghost fault: bool, ghost refused: bool)
      requires Valid()
      modifies this`base, this`size, this`committed, this`background, this`present, this`warmed, this`registered, queue
      ensures queue.Valid() && Shape() && (newSize >= old(size) ==> base == old(base))
      ensures ok <==>
                (newSize < old(size) && (doUnregister ==> old(base) + newSize in old(registered) && !fault) && !refused)
      ensures ok ==> Valid() && size == newSize && committed == AlignUp(newSize, pageSize)
      ensures base == (if ok && newSize == 0 then 0 else old(base))
      ensures ok ==> registered == if doUnregister then old(registered) - {old(base) + newSize} else old(registered)
      ensures ok ==> queue.history == old(queue.history) + Chunks(id, old(base), committed, old(committed))
                                      + (if newSize == 0 then [Job(id, old(base), reserved, true)] else [])
      ensures ok ==> (lastChunk <= size <==> old(lastChunk) <= newSize)
      ensures !ok && !Valid() ==> newSize < size == old(size) && committed == old(committed)
      ensures !ok && !Valid() ==> AlignUp(newSize, pageSize) < done < committed
                                  && WholeChunks(done - AlignUp(newSize, pageSize))
      ensures !ok && !Valid() ==> present == Offsets(0, committed) - Offsets(AlignUp(newSize, pageSize), done)
      ensures old(committed) <= AlignUp(newSize, pageSize) + QUEUE_LIMIT ==> Valid()
      ensures !ok && size != old(size) ==> newSize == 0
      ensures (willing ==> !fault) && (queue.willing ==> !refused)
    {
      hide Inv, Offsets, Chunks, AlignUp;
      ok, done, fault, refused := false, 0, false, false;
      if newSize >= size { return; }
      Join();
      if doUnregister {
        ok, fault := UnregisterAt(base + newSize);
        if !ok { return; }
      }
      var newCommitted := AlignUp(newSize, pageSize);
      AlignUpFacts(newSize, pageSize);
      AlignUpLeast(newSize, pageSize, committed);
      OffsetsSplit(0, newCommitted, committed);
      ghost var queued;
      ok, done, queued := DecommitTail(newCommitted);
      if !ok {
        refused := true;
        OffsetsNone(newCommitted);
        return;
      }
      size := newSize;
      committed := newCommitted;
      if size == 0 {
        AlignUpZero(pageSize);
        ok := queue.EnqueueAsync(Job(id, base, reserved, true));
        refused := !ok;
        if ok {
          base := 0;
        }
      }
    }

    /**
     `hostbuf_free`.  It waits for everything it queued.  It always unregisters at the start
     of the buffer, so the range is given up exactly when there was none, or the buffer was
     not empty, a registered range starts there, and neither driver nor queue refused.
     */
    method Free() returns (ok: bool, ghost fault: bool, ghost refused: bool)
      requires Valid()
      modifies this`base, this`size, this`committed, this`background, this`present, this`warmed, this`registered, queue
      ensures queue.Valid() && Settled()
      ensures base == 0 <==> old(base) == 0 || (old(size) > 0 && old(base) in old(registered) && !fault && !refused)
      ensures ok <==> old(size) > 0 && base == 0
      ensures (willing ==> !fault) && (queue.willing ==> !refused)
    {
      ghost var done;
      ok, done, fault, refused := Truncate(0, true);
      queue.Wait(id);
    }
  }

  lemma {:induction false} AlignedTwice(q: nat, g: nat, a: nat)
    requires a > 0 && g % a == 0
    ensures (q * g) % a == 0
  {
    assert g == g / a * a;
    assert q * g == (q * (g / a)) * a;
    MultipleMod(q * (g / a), a);
  }

  // ---------------------------------------------------------------- what goes wrong

  /** A buffer grown without registering is never given up: freeing it leaks its range. */
  method UnregisteredIsLeaked(b: HostBuffer, len: nat) returns (grown: bool)
    requires b.Valid() && b.registered == {} && b.base == b.size == 0 && 0 < len < WORD
    modifies b, b.queue
    ensures grown ==> b.base != 0
    ensures b.willing && AlignUp(len + b.prewarm, b.pageSize) <= b.reserved ==> grown
  {
    var offset, delta, wrapped;
    ghost var fault, refused;
    grown, offset, delta, wrapped, fault := b.Extend(len, false, false);
    if grown {
      var ok;
      ok, fault, refused := b.Free();
    }
  }

  /** A first growth that asks for too much leaves the range reserved, and freeing does not give it up. */
  method FailedGrowthIsLeaked(b: HostBuffer, len: nat) returns (reserved: bool)
    requires b.Valid() && b.base == b.size == b.prewarm == 0 && b.reserved < len < WORD
    modifies b, b.queue
    ensures reserved ==> b.base != 0
    ensures b.willing ==> reserved
  {
    var ok, offset, delta, wrapped;
    ghost var fault, refused;
    ok, offset, delta, wrapped, fault := b.Extend(len, false, true);
    reserved := b.base != 0;
    assert !ok && b.size == 0;
    ok, fault, refused := b.Free();
  }

  /** Growing, truncating below the last chunk, and replacing that chunk wraps the size around. */
  method ReallocationWraps(b: HostBuffer, len: nat, rest: nat, more: nat) returns (ready: bool, wrapped: bool)
    requires b.Valid() && b.base == b.size == 0 && rest < len < WORD && more < WORD
    modifies b, b.queue
    ensures ready ==> wrapped && b.size == WORD - len + rest
    ensures b.willing && b.queue.willing && AlignUp(len + b.prewarm, b.pageSize) <= b.reserved ==> ready
  {
    var offset, delta, cut;
    ghost var fault, done, refused;
    ready, offset, delta, wrapped, fault := b.Extend(len, false, false);
    if ready {
      cut, done, fault, refused := b.Truncate(rest, false);
      ready := cut;
      if ready {
        var ok;
        ok, offset, delta, wrapped, fault := b.Extend(more, true, false);
      }
    }
  }
}
