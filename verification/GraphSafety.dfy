/**
 Every run of a malloc graph is safe; every run whose scopes close neutrally
 rebuilds exactly what it recorded.
 */
module GraphSafety {
  import opened Basics
  import opened GraphTables
  import opened GraphTree
  import opened GraphRun
  import opened GraphSteps
  import opened GraphAlloc
  import opened GraphFree
  import opened GraphReplay
  import opened GraphSearch
  import opened SmallHeap
  import opened GraphOps

  lemma {:induction false} InvWellformed(g: Graph)
    requires Inv(g) && g.stack != []
    ensures Wellformed(g) && |g.stack| == Top(g).depth
  {
    TopFacts(g);
  }

  lemma {:induction false} RecordingInv(g: Graph)
    requires Inv(g) && g.stack != []
    ensures Wellformed(g)
    ensures Inv(Recording(g)) && Wellformed(Recording(g)) && Top(Recording(g)).recording
    ensures Recording(g).tree == g.tree && |Recording(g).stack| == |g.stack| && Recording(g).client == g.client
    ensures Cursor(Recording(g)) == Cursor(g)
  {
    hide Inv, LevelsOk, TreeOk;
    InvWellformed(g);
    if !Top(g).recording { StartedInv(g); }
  }

  lemma {:induction false} RecordingExact(g: Graph)
    requires Inv(g) && Exact(g) && g.stack != [] && Wellformed(g)
    ensures Exact(Recording(g))
  {
    hide Inv, CallsExact, StackExact, TablesExact;
    if !Top(g).recording { StartedExact(g); }
  }

  // ---------------------------------------------------------------- allocating

  lemma {:induction false} LiveBound(g: Graph)
    requires Inv(g)
    ensures forall p | p in g.tables.physicalLive :: p < g.physCount
    ensures PageMapOk(PageMap(g.vaPhys, g.physCount)) && |g.vaPhys| <= MG_PAGES
  {
    hide TreeOk, LevelsOk, EntriesOk;
    forall p | p in g.tables.physicalLive
      ensures p < g.physCount
    {
      var va :| va in g.tables.virtualPages && p in PhysAt(g.tables, g.vaPhys, va);
    }
  }

  lemma {:induction false} PositivePages(size: nat)
    requires size > 0
    ensures PagesOf(size) > 0 && AlignSmall(size) > 0
    ensures size < MG_SMALL_LIMIT ==> AlignSmall(size) <= MG_SMALL_LIMIT
  {
  }

  lemma {:induction false} LargeGrown(g: Graph, size: nat, rogues: Rogues, va: nat, m': PageMap)
    requires Inv(g) && RoguesOk(g, rogues)
    requires LargePlan(PageMap(g.vaPhys, g.physCount), g.tables.physicalLive, rogues, PagesOf(size), va, m')
    ensures Inv(Grown(g, m'.vaPhys, m'.physCount, g.smallSize))
    ensures FreeWindow(m'.vaPhys, g.tables.physicalLive, va, PagesOf(size))
    ensures PhysOf(m'.vaPhys, va, PagesOf(size)) !! rogues.phys
  {
    hide TreeOk, LevelsOk, EntriesOk, TablesOk, LargePlan, FreeWindow, CoversRecording, PeakOk, RootFirst;
    LiveBound(g);
    LargePlanFree(PageMap(g.vaPhys, g.physCount), g.tables.physicalLive, rogues, PagesOf(size), va, m');
    GrownInv(g, m'.vaPhys, m'.physCount, g.smallSize);
  }

  lemma {:induction false} SmallGrown(g: Graph, rogues: Rogues, bytes: nat, offset: nat)
    requires Inv(g) && SmallPlan(g, rogues, bytes, offset) && Aligned(bytes)
    ensures Inv(Grown(g, g.vaPhys, g.physCount, Max(g.smallSize, offset + bytes)))
    ensures FreeSpan(g.tables.smallRanges, Max(g.smallSize, offset + bytes), offset, bytes)
  {
    hide TreeOk, LevelsOk, EntriesOk, TablesOk, CoversRecording, PeakOk, RootFirst;
    AlignedSum(offset, bytes);
    GrownInv(g, g.vaPhys, g.physCount, Max(g.smallSize, offset + bytes));
  }

  lemma {:induction false} GrownExact(g: Graph, vaPhys: seq<nat>, physCount: nat, smallSize: nat)
    requires Exact(g)
    ensures Exact(Grown(g, vaPhys, physCount, smallSize))
  {
    hide CallsExact, StackExact, TablesExact;
  }

  lemma {:induction false} RecordsSmallInv(g: Graph, offset: nat, size: nat, rogues: Rogues)
    requires Inv(g) && Wellformed(g) && Top(g).recording && 0 < size < MG_SMALL_LIMIT && RoguesOk(g, rogues)
    requires SmallPlan(g, rogues, AlignSmall(size), offset)
    ensures var g' := AllocatedSmall(Grown(g, g.vaPhys, g.physCount, Max(g.smallSize, offset + AlignSmall(size))),
                                     offset, size);
            Inv(g') && Extends(g.tree, g'.tree) && (Exact(g) ==> Exact(g'))
  {
    hide Inv, Exact, SmallPlan, FreeSpan, RoguesOk;
    PositivePages(size);
    var bytes := AlignSmall(size);
    SmallGrown(g, rogues, bytes, offset);
    var g1 := Grown(g, g.vaPhys, g.physCount, Max(g.smallSize, offset + bytes));
    AllocatedSmallInv(g1, offset, size);
    RecordExtends(g1, AllocSmall(offset, size),
                  View(AddSmall(ViewAt(g.tree, Cursor(g)).tables, SmallEntryFor(g1, offset, size)),
                                                     [|g.tree.nodes|] + ViewAt(g.tree, Cursor(g)).tracked));
    if Exact(g) {
      GrownExact(g, g.vaPhys, g.physCount, Max(g.smallSize, offset + bytes));
      AllocatedSmallExact(g1, offset, size);
    }
  }

  lemma {:induction false} RecordsLargeInv(g: Graph, va: nat, size: nat, rogues: Rogues, m: PageMap)
    requires Inv(g) && Wellformed(g) && Top(g).recording && MG_SMALL_LIMIT <= size && RoguesOk(g, rogues)
    requires LargePlan(PageMap(g.vaPhys, g.physCount), g.tables.physicalLive, rogues, PagesOf(size), va, m)
    ensures var g' := AllocatedLarge(Grown(g, m.vaPhys, m.physCount, g.smallSize), va, size);
            Inv(g') && Extends(g.tree, g'.tree) && (Exact(g) ==> Exact(g'))
  {
    hide Inv, Exact, LargePlan, FreeWindow, RoguesOk;
    PositivePages(size);
    LargeGrown(g, size, rogues, va, m);
    var g1 := Grown(g, m.vaPhys, m.physCount, g.smallSize);
    AllocatedLargeInv(g1, va, size);
    RecordExtends(g1, Alloc(va, size), View(AddLarge(ViewAt(g.tree, Cursor(g)).tables, g1.vaPhys, va,
                                                     LargeEntryFor(g1, size)),
                                            [|g.tree.nodes|] + ViewAt(g.tree, Cursor(g)).tracked));
    if Exact(g) {
      GrownExact(g, m.vaPhys, m.physCount, g.smallSize);
      AllocatedLargeExact(g1, va, size);
    }
  }

  lemma {:induction false} RecordsAllocInv(g: Graph, size: nat, rogues: Rogues, g': Graph, r: Reply)
    requires Inv(g) && Wellformed(g) && Top(g).recording && size > 0 && RoguesOk(g, rogues)
    requires RecordsAlloc(g, size, rogues, g', r)
    ensures r.Gave? && Inv(g') && Extends(g.tree, g'.tree)
    ensures Exact(g) ==> Exact(g')
  {
    hide Inv, Exact, LargePlan, SmallPlan, RoguesOk, AllocatedSmall, AllocatedLarge, Extends;
    if size < MG_SMALL_LIMIT {
      RecordsSmallInv(g, r.block.offset, size, rogues);
    } else {
      RecordsLargeInv(g, r.block.va, size, rogues, PageMap(g'.vaPhys, g'.physCount));
    }
  }

  // ---------------------------------------------------------------- what an allocation gives

  /** The event a block is recorded as. */
  function EventOf(b: Block): Event {
    match b
    case Large(va, size) => Alloc(va, size)
    case Small(offset, size) => AllocSmall(offset, size)
  }

  /** The block is none of the escaped memory: no virtual and no physical page of it, no byte of it. */
  ghost predicate AvoidsRogues(vaPhys: seq<nat>, vaPhys': seq<nat>, rogues: Rogues, b: Block) {
    match b
    case Large(va, size) =>
      PagesAvailable(vaPhys, rogues, va, PagesOf(size)) && PhysOf(vaPhys', va, PagesOf(size)) !! rogues.phys
    case Small(offset, size) => forall e | e in rogues.small :: !Meets(offset, AlignSmall(size), e)
  }

  /** What the client is given is memory it does not hold yet, and not memory that escaped. */
  ghost predicate GivenOk(g: Graph, rogues: Rogues, g': Graph, b: Block) {
    NewTo(g.client, g'.vaPhys, b) && BlockOk(g'.vaPhys, g'.smallSize, b) && AvoidsRogues(g.vaPhys, g'.vaPhys, rogues, b)
  }

  lemma {:induction false} RecordedWentOn(g: Graph, event: Event, v: View, tables: Tables, used: nat, held: set<Block>)
    requires Wellformed(g) && IsAlloc(event) && Extends(g.tree, Recorded(g, event, v, tables, used, held).tree)
    ensures var g' := Recorded(g, event, v, tables, used, held);
            WentOn(g, g', |g.tree.nodes|) && g'.tree.nodes[|g.tree.nodes|].event == event
  {
    hide Extends;
    var g' := Recorded(g, event, v, tables, used, held);
    var kids := g'.tree.nodes[Cursor(g)].next;
    assert kids == g.tree.nodes[Cursor(g)].next + [|g.tree.nodes|] && kids[|kids| - 1] in kids;
  }

  lemma {:induction false} WentOnSame(g: Graph, g1: Graph, g': Graph, n: NodeId)
    requires Wellformed(g) && Wellformed(g1) && g1.tree == g.tree && g1.client == g.client && Cursor(g1) == Cursor(g)
    ensures WentOn(g1, g', n) <==> WentOn(g, g', n)
  {
  }

  lemma {:induction false} RecordsWentOn(g: Graph, size: nat, rogues: Rogues, g': Graph, r: Reply)
    requires Wellformed(g) && RecordsAlloc(g, size, rogues, g', r) && Extends(g.tree, g'.tree)
    ensures WentOn(g, g', |g.tree.nodes|) && g'.tree.nodes[|g.tree.nodes|].event == EventOf(r.block)
  {
    hide SmallPlan, LargePlan, AddLarge, AddSmall, ViewAt, Recorded, WentOn, Extends;
    var v, id, held := ViewAt(g.tree, Cursor(g)), |g.tree.nodes|, g.client[|g.client| - 1] + {r.block};
    if size < MG_SMALL_LIMIT {
      var g1 := Grown(g, g.vaPhys, g.physCount, Max(g.smallSize, r.block.offset + AlignSmall(size)));
      var entry := SmallEntryFor(g1, r.block.offset, size);
      RecordedWentOn(g1, AllocSmall(r.block.offset, size), View(AddSmall(v.tables, entry), [id] + v.tracked),
                     AddSmall(g.tables, entry), g.used + AlignSmall(size), held);
      WentOnSame(g, g1, g', id);
    } else {
      var g1 := Grown(g, g'.vaPhys, g'.physCount, g.smallSize);
      var entry := LargeEntryFor(g1, size);
      RecordedWentOn(g1, Alloc(r.block.va, size),
                     View(AddLarge(v.tables, g1.vaPhys, r.block.va, entry), [id] + v.tracked),
                     AddLarge(g.tables, g1.vaPhys, r.block.va, entry), g.used + PagesOf(size) * MG_PAGE, held);
      WentOnSame(g, g1, g', id);
    }
  }

  lemma {:induction false} MatchAvoids(g: Graph, e: Event, want: Event, rogues: Rogues)
    requires RoguesOk(g, rogues) && Matches(e, want, g.vaPhys, rogues) && IsAlloc(e)
    requires BlockOk(g.vaPhys, g.smallSize, BlockOf(e))
    ensures AvoidsRogues(g.vaPhys, g.vaPhys, rogues, BlockOf(e))
  {
    if e.Alloc? {
      BytesInPages(e.value, e.bytes);
      PhysAvoid(g.vaPhys, e.value, PagesOf(e.bytes), rogues.phys);
    } else {
      forall b | b in rogues.small
        ensures !Meets(e.value, AlignSmall(e.bytes), b)
      {
        SpanFacts(b, g.smallSize);
      }
    }
  }

  lemma {:induction false} RecordAvoids(g: Graph, size: nat, rogues: Rogues, g': Graph, r: Reply)
    requires Inv(g) && Wellformed(g) && RoguesOk(g, rogues) && RecordsAlloc(g, size, rogues, g', r)
    ensures AvoidsRogues(g.vaPhys, g'.vaPhys, rogues, r.block)
  {
    hide Inv, AllocatedSmall;
    if size >= MG_SMALL_LIMIT {
      LiveBound(g);
      var m, m' := PageMap(g.vaPhys, g.physCount), PageMap(g'.vaPhys, g'.physCount);
      LargePlanFree(m, g.tables.physicalLive, rogues, PagesOf(size), r.block.va, m');
      PlanAvailable(m, g.tables.physicalLive, rogues, PagesOf(size), r.block.va, m');
    }
  }

  lemma {:induction false} PlanAvailable(m: PageMap, live: set<nat>, rogues: Rogues, pages: nat, va: nat, m': PageMap)
    requires LargePlan(m, live, rogues, pages, va, m')
    ensures PagesAvailable(m.vaPhys, rogues, va, pages)
  {
    if exists w: nat :: Usable(m.vaPhys, live, rogues, w, pages) {
      forall i | va <= i < va + pages
        ensures i !in rogues.vas && m.vaPhys[i] !in rogues.phys
      {
        assert Available(m.vaPhys, live, rogues, i);
      }
    }
  }

  lemma {:induction false} ExtendsRefl(t: Tree)
    requires |t.notes| == |t.nodes|
    ensures Extends(t, t)
  {
  }

  /**
   An allocation, replayed or recorded, keeps the invariant and exactness.  The block it
   gives is none the client holds, in any scope, and shares memory with none of them, nor
   with memory that escaped.
   */
  lemma {:induction false} StepAllocInv(g: Graph, size: nat, rogues: Rogues, grants: nat, g': Graph, r: Reply)
    requires Inv(g) && Wellformed(g) && size > 0 && RoguesOk(g, rogues)
    requires StepAlloc(g, size, rogues, grants, g', r)
    ensures g'.failed || (Inv(g') && Extends(g.tree, g'.tree) && (Exact(g) ==> Exact(g')))
    ensures r.Gave? || (r == Failed && g'.failed)
    ensures r.Gave? ==> GivenOk(g, rogues, g', r.block)
  {
    hide Inv, Exact, RecordsAlloc, Refused, Extends, NewTo, BlockOk, AvoidsRogues;
    ExtendsRefl(g.tree);
    var want := AllocEvent(size);
    var m := if Top(g).recording then None else FindEvent(g, want, rogues);
    if m.Some? {
      ReplayAllocInv(g, m.value);
      MatchAvoids(g, g.tree.nodes[m.value].event, want, rogues);
      if Exact(g) { MoveExact(g, m.value, g.client[|g.client| - 1] + {r.block}); }
    } else if Top(g).recording || !g.assertBreaks {
      RecordingInv(g);
      var g1 := Recording(g);
      if !Refused(g1, size, rogues, grants) {
        RogueSame(g, rogues);
        if Exact(g) { RecordingExact(g); }
        RecordsAllocInv(g1, size, rogues, g', r);
        RecordAvoids(g1, size, rogues, g', r);
        RecordsWentOn(g1, size, rogues, g', r);
        BlockIsNew(g1, g', |g.tree.nodes|);
      }
    }
  }

  lemma {:induction false} RogueSame(g: Graph, rogues: Rogues)
    requires Wellformed(g) && RoguesOk(g, rogues)
    ensures RoguesOk(Recording(g), rogues)
  {
  }

  // ---------------------------------------------------------------- freeing

  lemma {:induction false} RecordsFreeInv(g: Graph, small: bool, value: nat, g': Graph, r: Reply)
    requires Inv(g) && Wellformed(g) && Top(g).recording
    requires RecordsFree(g, small, value, g', r)
    ensures g'.failed || (Inv(g') && Extends(g.tree, g'.tree) && (Exact(g) ==> Exact(g')))
    ensures r == Done <==> exists b :: b in g.client[|g.client| - 1] && At(b, small, value)
    ensures r == Done || (r == Failed && g'.failed)
  {
    hide Inv, Exact, OwnsSmall, OwnsLarge;
    FreeAcceptedIff(g, small, value);
    if small && OwnsSmall(g, value) {
      FreedSmallInv(g, value);
      var v := ViewAt(g.tree, Cursor(g));
      RecordExtends(g, FreeSmall(value),
                    View(DropSmall(v.tables, value),
                         Untrack(v.tracked, v.tables.smallRanges[Position(v.tables.smallRanges, value)].allocation)));
      if Exact(g) { FreedSmallExact(g, value); }
    } else if !small && OwnsLarge(g, value) {
      FreedLargeInv(g, value);
      var v := ViewAt(g.tree, Cursor(g));
      RecordExtends(g, Free(value), View(RemoveLarge(v.tables, g.vaPhys, value),
                                         Untrack(v.tracked, v.tables.virtualPages[value].allocation)));
      if Exact(g) { FreedLargeExact(g, value); }
    }
  }

  /**
   A free is accepted exactly when the current scope itself holds a block at that
   place, except that a graph that must not break refuses one it did not record.
   */
  lemma {:induction false} StepFreeInv(g: Graph, small: bool, value: nat, g': Graph, r: Reply)
    requires Inv(g) && Wellformed(g)
    requires StepFree(g, small, value, g', r)
    ensures g'.failed || (Inv(g') && Extends(g.tree, g'.tree) && (Exact(g) ==> Exact(g')))
    ensures r == Done || (r == Failed && g'.failed)
    ensures r == Done ==> exists b :: b in g.client[|g.client| - 1] && At(b, small, value)
    ensures (exists b :: b in g.client[|g.client| - 1] && At(b, small, value)) &&
            (Top(g).recording || !g.assertBreaks) ==>
              r == Done
  {
    hide Inv, Exact, RecordsFree, Extends;
    ExtendsRefl(g.tree);
    var want := FreeEvent(small, value);
    var m := if Top(g).recording then None else FindEvent(g, want, NO_ROGUES);
    if m.Some? {
      ReplayFreeInv(g, m.value);
      if Exact(g) { MoveExact(g, m.value, WithoutAt(g.client[|g.client| - 1], small, value)); }
    } else if Top(g).recording || !g.assertBreaks {
      RecordingInv(g);
      if Exact(g) { RecordingExact(g); }
      RecordsFreeInv(Recording(g), small, value, g', r);
    }
  }

  // ---------------------------------------------------------------- scopes

  lemma {:induction false} StepPushInv(g: Graph, name: string, g': Graph, r: Reply)
    requires Inv(g) && Wellformed(g)
    requires StepPush(g, name, g', r)
    ensures g'.failed || (Inv(g') && Extends(g.tree, g'.tree) && (Exact(g) ==> Exact(g')))
  {
    hide Inv, Exact, Extends;
    ExtendsRefl(g.tree);
    var m := FindEvent(g, Call(name, 0), NO_ROGUES);
    if m.Some? {
      PushReplayInv(g, m.value);
      if Exact(g) { PushReplayExact(g, m.value); }
    } else if Top(g).recording || !g.assertBreaks {
      RecordingInv(g);
      if Exact(g) { RecordingExact(g); }
      var g1 := Recording(g);
      NewScopeTree(g1, name);
      PushNewInv(g1, name);
      if Exact(g1) { PushNewExact(g1, name); }
    }
  }

  lemma {:induction false} EndedExtends(g: Graph)
    requires Inv(g) && Wellformed(g) && Top(g).recording
    ensures Inv(Ended(g)) && Extends(g.tree, Ended(g).tree)
    ensures Wellformed(Ended(g)) && Ended(g).client == g.client
    ensures Top(Ended(g)).recording && |Ended(g).stack| == |g.stack|
  {
    hide Inv, Extends;
    EndedInv(g);
    RecordExtends(g, End, ViewAt(g.tree, Cursor(g)));
  }

  /** Closing a scope, seen from the state in which it is closed. */
  ghost predicate NeutralStep(g: Graph)
    requires Wellformed(g)
  {
    Top(g).recording || FindEvent(g, End, NO_ROGUES).None? ==> ClearBelow(g)
  }

  lemma {:induction false} NeutralEnded(g: Graph)
    requires Inv(g) && Wellformed(g) && |g.stack| == |g.client|
    requires Inv(Ended(Recording(g))) && Wellformed(Recording(g)) && Wellformed(Ended(Recording(g))) &&
             Top(Ended(Recording(g))).recording
    requires Top(g).recording || FindEvent(g, End, NO_ROGUES).None?
    ensures NeutralPop(Ended(Recording(g))) <==> NeutralStep(g)
  {
    hide Inv;
    var g1 := Ended(Recording(g));
    assert g1.stack[..|g.stack| - 1] == g.stack[..|g.stack| - 1];
    assert g1.client == g.client;
    forall j: nat
      ensures HeldBetween(g1.stack, g1.client, j) <==> HeldBetween(g.stack, g.client, j)
    {
    }
  }

  /** Closing a scope keeps the invariant; it keeps the state exact exactly when it is neutral. */
  lemma {:induction false} StepPopInv(g: Graph, g': Graph, r: Reply)
    requires Inv(g) && Wellformed(g) && g.client[|g.client| - 1] == {}
    requires StepPop(g, g', r)
    ensures g'.failed || (Inv(g') && Extends(g.tree, g'.tree))
    ensures Exact(g) && r == Done ==> (Exact(g') <==> NeutralStep(g))
  {
    hide Inv, Exact, Extends, NeutralPop;
    ExtendsRefl(g.tree);
    var m := if Top(g).recording then None else FindEvent(g, End, NO_ROGUES);
    if m.Some? {
      PoppedInv(g);
      if Exact(g) { PopReplaying(g); }
    } else if Top(g).recording || !g.assertBreaks {
      RecordingInv(g);
      EndedExtends(Recording(g));
      PoppedInv(Ended(Recording(g)));
      if Exact(g) {
        RecordingExact(g);
        EndedExact(Recording(g));
        PopExactIff(Ended(Recording(g)));
        NeutralEnded(g);
      }
    }
  }
}
