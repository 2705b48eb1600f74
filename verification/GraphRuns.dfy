/**
 Whole runs of one malloc graph: recordings, replays and breaks in any order.
 */
module GraphRuns {
  import opened Basics
  import opened GraphTables
  import opened GraphTree
  import opened GraphRun
  import opened GraphSteps
  import opened GraphAlloc
  import opened GraphReplay
  import opened GraphSearch
  import opened SmallHeap
  import opened GraphOps
  import opened GraphSafety

  lemma {:induction false} InitialTree(assertBreaks: bool)
    ensures var g := Initial(assertBreaks); TreeOk(g.tree, g.vaPhys, g.smallSize) && RootFirst(g.tree)
  {
    var g := Initial(assertBreaks);
    assert NodeOk(g.tree, [], 0, 0);
  }

  lemma {:induction false} InitialInv(assertBreaks: bool)
    ensures Inv(Initial(assertBreaks)) && Exact(Initial(assertBreaks))
  {
    var g := Initial(assertBreaks);
    InitialTree(assertBreaks);
    assert LevelOk(g.tree, g.stack, g.client, 0);
    hide TreeOk;
  }

  /** Every call keeps the invariant, unless the graph fails. */
  lemma {:induction false} StepInv(g: Graph, op: Op, g': Graph, r: Reply)
    requires g.failed || Inv(g)
    requires Allowed(g, op) && Step(g, op, g', r)
    ensures g'.failed || (Inv(g') && Extends(g.tree, g'.tree))
  {
    hide Inv, StepAlloc, StepFree, StepPush, StepPop, Extends, RoguesOk;
    if !g.failed && op.OpPushRoot? == (g.stack == []) {
      match op
      case OpAlloc(size, rogues, grants) => StepAllocInv(g, size, rogues, grants, g', r);
      case OpFree(small, value) => StepFreeInv(g, small, value, g', r);
      case OpPush(name) => StepPushInv(g, name, g', r);
      case OpPop => StepPopInv(g, g', r);
      case OpPushRoot =>
        PushRootInv(g);
        InvTree(g);
        ExtendsRefl(g.tree);
    } else if !g.failed {
      InvTree(g);
      ExtendsRefl(g.tree);
    }
  }

  /** A call that closes no scope, or closes one neutrally, keeps the state exact. */
  lemma {:induction false} StepExact(g: Graph, op: Op, g': Graph, r: Reply)
    requires Inv(g) && Exact(g) && !g.failed
    requires Allowed(g, op) && Step(g, op, g', r)
    requires op == OpPop && g.stack != [] ==> Wellformed(g) && NeutralStep(g)
    ensures g'.failed || Exact(g')
  {
    hide Inv, Exact, StepAlloc, StepFree, StepPush, Extends, RoguesOk, NeutralStep;
    if op.OpPushRoot? == (g.stack == []) {
      match op
      case OpAlloc(size, rogues, grants) => StepAllocInv(g, size, rogues, grants, g', r);
      case OpFree(small, value) => StepFreeInv(g, small, value, g', r);
      case OpPush(name) => StepPushInv(g, name, g', r);
      case OpPop => StepPopInv(g, g', r);
      case OpPushRoot => PushRootExact(g);
    }
  }

  // ---------------------------------------------------------------- runs

  /** States, and the calls between them with their replies. */
  datatype Run = Run(states: seq<Graph>, ops: seq<Op>, replies: seq<Reply>)

  ghost predicate IsRun(run: Run) {
    && |run.states| == |run.ops| + 1 && |run.replies| == |run.ops|
    && (exists a :: run.states[0] == Initial(a))
    && forall i | 0 <= i < |run.ops| :: RunStep(run, i)
  }

  ghost predicate RunStep(run: Run, i: nat)
    requires i < |run.ops| && |run.states| == |run.ops| + 1 && |run.replies| == |run.ops|
  {
    Allowed(run.states[i], run.ops[i]) && Step(run.states[i], run.ops[i], run.states[i + 1], run.replies[i])
  }

  lemma {:induction false} RunInv(run: Run, i: nat)
    requires IsRun(run) && i < |run.states|
    ensures run.states[i].failed || Inv(run.states[i])
    decreases i
  {
    hide Inv, Step, Allowed, Extends;
    if i == 0 {
      var a :| run.states[0] == Initial(a);
      InitialInv(a);
    } else {
      RunInv(run, i - 1);
      assert RunStep(run, i - 1);
      StepInv(run.states[i - 1], run.ops[i - 1], run.states[i], run.replies[i - 1]);
    }
  }

  /** A failed graph answers nothing, for ever. */
  lemma {:induction false} FailedStays(run: Run, i: nat, j: nat)
    requires IsRun(run) && i <= j < |run.states| && run.states[i].failed
    ensures run.states[j] == run.states[i]
    decreases j
  {
    if i < j {
      FailedStays(run, i, j - 1);
      assert RunStep(run, j - 1);
    }
  }

  lemma {:induction false} ExtendsTransitive(a: Tree, b: Tree, c: Tree)
    requires Extends(a, b) && Extends(b, c)
    ensures Extends(a, c)
  {
  }

  /** Nothing recorded is ever changed. */
  lemma {:induction false} RunExtends(run: Run, i: nat, j: nat)
    requires IsRun(run) && i <= j < |run.states| && !run.states[j].failed
    ensures Extends(run.states[i].tree, run.states[j].tree)
    decreases j
  {
    hide Inv, Step, Allowed, Extends;
    RunInv(run, j);
    if i == j {
      InvTree(run.states[i]);
      ExtendsRefl(run.states[i].tree);
    } else {
      assert RunStep(run, j - 1);
      FailedBefore(run, j);
      RunInv(run, j - 1);
      StepInv(run.states[j - 1], run.ops[j - 1], run.states[j], run.replies[j - 1]);
      RunExtends(run, i, j - 1);
      ExtendsTransitive(run.states[i].tree, run.states[j - 1].tree, run.states[j].tree);
    }
  }

  lemma {:induction false} FailedBefore(run: Run, j: nat)
    requires IsRun(run) && 0 < j < |run.states| && !run.states[j].failed
    ensures !run.states[j - 1].failed
  {
    if run.states[j - 1].failed { FailedStays(run, j - 1, j); }
  }

  /**
   Safety of every run.  Whatever mixture of recording, replay and breaks led here,
   the blocks the client holds, over all open scopes, lie in mapped memory and are
   pairwise disjoint, and `used` is what the tables account for.
   */
  lemma {:induction false} RunSafe(run: Run, n: nat, i: nat, b: Block, j: nat, c: Block)
    requires IsRun(run) && n < |run.states| && !run.states[n].failed
    requires i <= j < |run.states[n].client| && b in run.states[n].client[i] && c in run.states[n].client[j]
    requires i != j || b != c
    ensures var g := run.states[n];
            && BlockOk(g.vaPhys, g.smallSize, b) && BlockOk(g.vaPhys, g.smallSize, c)
            && BlocksApart(g.vaPhys, b, c)
            && g.used == Total(g.tables) <= g.peakUsed
  {
    RunInv(run, n);
    ClientDisjoint(run.states[n], i, b, j, c);
  }

  /**
   What the client is given.  In every run each block, replayed or recorded, is one the
   client does not hold, in any open scope, and shares no memory with those it holds, nor
   with memory that escaped.
   */
  lemma {:induction false} RunGives(run: Run, n: nat)
    requires IsRun(run) && n < |run.ops| && run.replies[n].Gave?
    ensures run.ops[n].OpAlloc? && GivenOk(run.states[n], run.ops[n].rogues, run.states[n + 1], run.replies[n].block)
    ensures var g, g', b := run.states[n], run.states[n + 1], run.replies[n].block;
            && |g'.client| == |g.client| > 0 && g'.client[..|g.client| - 1] == g.client[..|g.client| - 1]
            && g'.client[|g.client| - 1] == g.client[|g.client| - 1] + {b}
    ensures var b, size := run.replies[n].block, run.ops[n].size;
            b.size == size && (b.Small? <==> size < MG_SMALL_LIMIT) && (b.Small? ==> b.offset % MG_SMALL_ALIGN == 0)
  {
    hide Inv, StepAlloc, StepFree, StepPush, StepPop, Extends, RoguesOk, GivenOk;
    assert RunStep(run, n);
    RunInv(run, n);
    var g, op, g', r := run.states[n], run.ops[n], run.states[n + 1], run.replies[n];
    OnlyAllocGives(g, op, g', r);
    StepAllocInv(g, op.size, op.rogues, op.grants, g', r);
    StepAllocClient(g, op.size, op.rogues, op.grants, g', r);
    StepAllocSize(g, op.size, op.rogues, op.grants, g', r);
    if r.block.Small? { GivenAligned(g, op.rogues, g', r.block); }
  }

  /** A recorded allocation of `size` bytes none of whose memory escaped: no page of a byte, no aligned span. */
  ghost predicate Recallable(e: Event, size: nat, vaPhys: seq<nat>, rogues: Rogues) {
    match e
    case Alloc(va, bytes) =>
      && bytes == size >= MG_SMALL_LIMIT
      && forall i: nat | i < size && PageOfByte(va, i) < |vaPhys| ::
           PageOfByte(va, i) !in rogues.vas && vaPhys[PageOfByte(va, i)] !in rogues.phys
    case AllocSmall(offset, bytes) =>
      bytes == size < MG_SMALL_LIMIT && forall b | b in rogues.small :: !Meets(offset, AlignSmall(size), SpanOf(b))
    case _ => false
  }

  lemma {:induction false} RecallableMatches(e: Event, size: nat, vaPhys: seq<nat>, rogues: Rogues)
    requires Recallable(e, size, vaPhys, rogues)
    ensures Matches(e, AllocEvent(size), vaPhys, rogues)
  {
    if e.Alloc? {
      forall i | e.value <= i < e.value + PagesOf(size) && i < |vaPhys|
        ensures i !in rogues.vas && vaPhys[i] !in rogues.phys
      {
        assert PageOfByte(e.value, (i - e.value) * MG_PAGE) == i;
      }
    }
  }

  /**
   What replaying is for.  If a replaying scope stands before a recorded allocation of the
   size asked for, and none of that memory escaped, then the call is answered from the
   record: with a block of that size, without the driver, and without a change to anything
   but the place in the tree and what the client holds.
   */
  lemma {:induction false} RunReplays(run: Run, n: nat, k: NodeId)
    requires IsRun(run) && n < |run.ops| && run.ops[n].OpAlloc? && !run.states[n].failed
    requires run.states[n].stack != [] && !Top(run.states[n]).recording
    requires Cursor(run.states[n]) < |run.states[n].tree.nodes| && k < |run.states[n].tree.nodes|
    requires k in run.states[n].tree.nodes[Cursor(run.states[n])].next
    requires Recallable(run.states[n].tree.nodes[k].event, run.ops[n].size, run.states[n].vaPhys, run.ops[n].rogues)
    ensures run.replies[n].Gave? && run.replies[n].block.size == run.ops[n].size
    ensures run.states[n + 1] == run.states[n].(stack := run.states[n + 1].stack, client := run.states[n + 1].client)
    ensures run.states[n + 1].stack != [] && !Top(run.states[n + 1]).recording
  {
    assert RunStep(run, n);
    var g, op := run.states[n], run.ops[n];
    RecallableMatches(g.tree.nodes[k].event, op.size, g.vaPhys, op.rogues);
  }

  /**
   What aliasing is for.  If somewhere in the range there are as many consecutive virtual
   pages as a recorded large allocation needs, on different physical pages, none of them
   live and none escaped, then it needs no new memory.
   */
  lemma {:induction false} RunReuses(run: Run, n: nat, va: nat)
    requires IsRun(run) && n < |run.ops| && run.ops[n].OpAlloc? && run.ops[n].size >= MG_SMALL_LIMIT
    requires !run.states[n].failed && run.states[n].stack != [] && Top(run.states[n]).recording
    requires var g, op := run.states[n], run.ops[n];
             && va + PagesOf(op.size) <= |g.vaPhys|
             && (forall i | va <= i < va + PagesOf(op.size) ::
                   && i !in op.rogues.vas && g.vaPhys[i] !in op.rogues.phys && g.vaPhys[i] !in g.tables.physicalLive)
             && forall i, j | va <= i < j < va + PagesOf(op.size) :: g.vaPhys[i] != g.vaPhys[j]
    ensures run.replies[n].Gave? && run.replies[n].block.Large? && run.replies[n].block.va <= va
    ensures run.states[n + 1].vaPhys == run.states[n].vaPhys && run.states[n + 1].physCount == run.states[n].physCount
  {
    hide MapNew, ViewAt, AddLarge, Append;
    assert RunStep(run, n);
    var g, op := run.states[n], run.ops[n];
    assert Usable(g.vaPhys, g.tables.physicalLive, op.rogues, va, PagesOf(op.size));
  }

  lemma {:induction false} OnlyAllocGives(g: Graph, op: Op, g': Graph, r: Reply)
    requires Step(g, op, g', r) && r.Gave?
    ensures op.OpAlloc? && !g.failed && Wellformed(g) && StepAlloc(g, op.size, op.rogues, op.grants, g', r)
  {
    hide StepAlloc, FindEvent;
  }

  lemma {:induction false} StepAllocClient(g: Graph, size: nat, rogues: Rogues, grants: nat, g': Graph, r: Reply)
    requires Wellformed(g) && StepAlloc(g, size, rogues, grants, g', r) && r.Gave?
    ensures |g'.client| == |g.client| && g'.client[..|g.client| - 1] == g.client[..|g.client| - 1]
    ensures g'.client[|g.client| - 1] == g.client[|g.client| - 1] + {r.block}
  {
    hide FindEvent, SmallPlan, LargePlan, AddLarge, AddSmall, ViewAt, Append;
  }

  lemma {:induction false} GivenAligned(g: Graph, rogues: Rogues, g': Graph, b: Block)
    requires GivenOk(g, rogues, g', b) && b.Small?
    ensures b.offset % MG_SMALL_ALIGN == 0
  {
    hide NewTo, AvoidsRogues;
  }

  lemma {:induction false} StepAllocSize(g: Graph, size: nat, rogues: Rogues, grants: nat, g': Graph, r: Reply)
    requires Wellformed(g) && StepAlloc(g, size, rogues, grants, g', r) && r.Gave?
    ensures r.block.size == size && (r.block.Small? <==> size < MG_SMALL_LIMIT)
  {
    hide SmallPlan, LargePlan, AddLarge, AddSmall, ViewAt, Append, Refused, Started;
  }

  lemma {:induction false} PeakBound(g: Graph)
    requires Inv(g)
    ensures g.used <= g.peakUsed
    ensures g.stack != [] ==> Wellformed(g) && Recording(g).used <= g.peakUsed
  {
    hide ViewAt;
    if g.stack != [] {
      InvWellformed(g);
      RebuildPeak(g);
    }
  }

  lemma {:induction false} StepPeak(g: Graph, op: Op, g': Graph, r: Reply)
    requires Step(g, op, g', r) && !g'.failed && g.used <= g.peakUsed
    requires g.stack != [] ==> Wellformed(g) && Recording(g).used <= g.peakUsed
    ensures g'.peakUsed == Max(g.peakUsed, g'.used)
  {
    hide SmallPlan, LargePlan, AddLarge, AddSmall, ViewAt, Append, Refused, FindEvent;
  }

  /** The peak is the most that was ever in use: never less, and reached at some point of the run. */
  lemma {:induction false} RunPeak(run: Run, n: nat)
    requires IsRun(run) && n < |run.states| && !run.states[n].failed
    ensures forall i | 0 <= i <= n :: run.states[i].used <= run.states[n].peakUsed
    ensures exists i :: 0 <= i <= n && run.states[i].used == run.states[n].peakUsed
    decreases n
  {
    hide Inv, Step, Allowed;
    if n > 0 {
      FailedBefore(run, n);
      RunPeak(run, n - 1);
      RunInv(run, n - 1);
      assert RunStep(run, n - 1);
      if !run.states[n - 1].failed { PeakBound(run.states[n - 1]); }
      StepPeak(run.states[n - 1], run.ops[n - 1], run.states[n], run.replies[n - 1]);
    } else {
      assert run.states[0].used == run.states[0].peakUsed == 0;
    }
  }

  // ---------------------------------------------------------------- rebuilding what was recorded

  /** Every scope that closes between states `i` and `n` of the run closes neutrally. */
  ghost predicate NeutralRun(run: Run, i: nat, n: nat)
    requires IsRun(run) && i <= n < |run.states|
  {
    forall k | i <= k < n && run.ops[k] == OpPop && !run.states[k].failed && run.states[k].stack != [] ::
      Wellformed(run.states[k]) && NeutralStep(run.states[k])
  }

  /** Exactness is kept from any state that has it. */
  lemma {:induction false} RunExact(run: Run, i: nat, n: nat)
    requires IsRun(run) && i <= n < |run.states| && Exact(run.states[i]) && NeutralRun(run, i, n)
    ensures run.states[n].failed || Exact(run.states[n])
    decreases n
  {
    hide Inv, Exact, Step, Allowed, NeutralStep;
    if i < n && !run.states[n].failed {
      FailedBefore(run, n);
      RunExact(run, i, n - 1);
      RunInv(run, n - 1);
      assert RunStep(run, n - 1);
      StepExact(run.states[n - 1], run.ops[n - 1], run.states[n], run.replies[n - 1]);
    }
  }

  /** A run begins exact, and so a neutral one is exact throughout. */
  lemma {:induction false} NeutralRunExact(run: Run, n: nat)
    requires IsRun(run) && n < |run.states| && NeutralRun(run, 0, n)
    ensures run.states[n].failed || Exact(run.states[n])
  {
    hide Inv, Exact, Step, Allowed, NeutralStep;
    var a :| run.states[0] == Initial(a);
    InitialInv(a);
    RunExact(run, 0, n);
  }

  /**
   `materialize` from an exact state.  If recording stood at some node, and later, after
   any calls, a replay stands at that node and breaks, then the state it rebuilds is
   the state recording had: tables, tracked list and `used`, without raising the peak.
   */
  lemma {:induction false} RunRebuilds(run: Run, i: nat, j: nat)
    requires IsRun(run) && i <= j < |run.states| && Exact(run.states[i]) && !run.states[j].failed
    requires run.states[i].stack != [] && Top(run.states[i]).recording
    requires run.states[j].stack != [] && Cursor(run.states[j]) == Cursor(run.states[i])
    ensures var before, after := run.states[i], run.states[j];
            && Cursor(after) < |after.tree.notes|
            && Started(after).tables == before.tables
            && Top(Started(after)).tracked == Top(before).tracked
            && Started(after).used == before.used <= after.peakUsed
  {
    hide Inv, Exact, Step, Allowed, Extends, NeutralStep;
    RunExtends(run, i, j);
    RunInv(run, j);
    RunInv(run, i);
    if run.states[i].failed { FailedStays(run, i, j); }
    RebuildIsRecorded(run.states[i], run.states[j]);
    RebuildPeak(run.states[j]);
  }

  lemma {:induction false} RebuildPeak(g: Graph)
    requires Inv(g) && g.stack != []
    ensures Cursor(g) < |g.tree.notes| && Started(g).used <= g.peakUsed
  {
    TopFacts(g);
    assert Total(ViewAt(g.tree, Cursor(g)).tables) <= g.peakUsed;
  }

  /**
   Scope neutrality.  Between two states in which the same scope is on top, recording,
   at the same node, any scopes may have been opened and closed, recorded, replayed or
   broken: if the first state is exact and those scopes closed neutrally, then tables,
   tracked list and `used` are the same in both.
   */
  lemma {:induction false} RunNeutral(run: Run, i: nat, j: nat)
    requires IsRun(run) && i <= j < |run.states| && Exact(run.states[i]) && NeutralRun(run, i, j) &&
             !run.states[j].failed
    requires run.states[i].stack != [] && Top(run.states[i]).recording
    requires run.states[j].stack != [] && Top(run.states[j]).recording
    requires Cursor(run.states[j]) == Cursor(run.states[i])
    ensures run.states[j].tables == run.states[i].tables
    ensures Top(run.states[j]).tracked == Top(run.states[i]).tracked
    ensures run.states[j].used == run.states[i].used
  {
    hide Inv, Exact, Step, Allowed, Extends, NeutralStep;
    RunExact(run, i, j);
    RunRebuilds(run, i, j);
    RunRebuilds(run, j, j);
  }
}
