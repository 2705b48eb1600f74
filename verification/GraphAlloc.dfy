/**
 Recording an allocation or a free: the state change and the proof that the
 invariant of `GraphRun` survives it.
 */
module GraphAlloc {
  import opened Basics
  import opened GraphTables
  import opened GraphTree
  import opened GraphRun
  import opened GraphSteps

  // ---------------------------------------------------------------- large allocations

  function LargeEntryFor(g: Graph, size: nat): VirtualPage
    requires g.stack != []
  {
    VirtualPage(PagesOf(size), Top(g).depth, |g.tree.nodes|)
  }

  /** Record an allocation of `size` bytes at virtual page `va`. */
  function AllocatedLarge(g: Graph, va: nat, size: nat): Graph
    requires g.stack != [] && |g.client| == |g.stack| && Cursor(g) < |g.tree.nodes| == |g.tree.notes|
  {
    var v := ViewAt(g.tree, Cursor(g));
    var vp := LargeEntryFor(g, size);
    Recorded(g, Alloc(va, size),
             View(AddLarge(v.tables, g.vaPhys, va, vp), [|g.tree.nodes|] + v.tracked),
             AddLarge(g.tables, g.vaPhys, va, vp),
             g.used + PagesOf(size) * MG_PAGE,
             g.client[|g.client| - 1] + {Large(va, size)})
  }

  ghost predicate FreeWindow(vaPhys: seq<nat>, live: set<nat>, va: nat, pages: nat) {
    && va + pages <= |vaPhys|
    && DistinctWindow(vaPhys, va, pages)
    && PhysOf(vaPhys, va, pages) !! live
  }

  lemma {:induction false} AddLargeView(nodes: seq<Node>, nodes': seq<Node>, base: Tables, v: View, va: nat,
                                        vp: VirtualPage, depth: nat, vaPhys: seq<nat>, smallSize: nat)
    requires SameEvents(nodes, nodes') && EntriesOk(nodes, base) && ViewOk(nodes, base, v, depth, vaPhys, smallSize)
    requires vp.span > 0 && FreeWindow(vaPhys, v.tables.physicalLive, va, vp.span)
    requires vp.ownerDepth == depth && vp.allocation >= |nodes| && LargeEntry(nodes', va, vp)
    ensures ViewOk(nodes', base, View(AddLarge(v.tables, vaPhys, va, vp), [vp.allocation] + v.tracked), depth, vaPhys,
                   smallSize)
  {
    AddLargeOk(v.tables, vaPhys, smallSize, va, vp);
    AllocTracked(nodes, nodes', base, v, va, vp, vaPhys);
  }

  lemma {:induction false} AddLargeIncludes(big: Tables, small: Tables, va: nat, vp: VirtualPage, vaPhys: seq<nat>)
    requires Includes(big, small)
    ensures Includes(AddLarge(big, vaPhys, va, vp), AddLarge(small, vaPhys, va, vp))
  {
  }

  lemma {:induction false} BaseEntries(t: Tree, vaPhys: seq<nat>, smallSize: nat, n: NodeId)
    requires TreeOk(t, vaPhys, smallSize) && n < |t.nodes|
    ensures |t.notes| == |t.nodes| && t.notes[n].scope < |t.notes|
    ensures EntriesOk(t.nodes, BaseAt(t, n))
  {
    ViewFacts(t, vaPhys, smallSize, n);
    ViewFacts(t, vaPhys, smallSize, t.notes[n].scope);
  }

  /** Facts about the top scope that every recording step starts from. */
  lemma {:induction false} TopFacts(g: Graph)
    requires Inv(g) && g.stack != []
    ensures |g.client| == |g.stack| && Cursor(g) < |g.tree.nodes| == |g.tree.notes|
    ensures g.tree.notes[Cursor(g)].scope < |g.tree.notes|
    ensures g.tree.notes[Cursor(g)].depth == Top(g).depth == |g.stack|
    ensures g.client[|g.client| - 1] == Blocks(g.tree.nodes, ViewAt(g.tree, Cursor(g)).tracked)
    ensures ViewOk(g.tree.nodes, BaseAt(g.tree, Cursor(g)), ViewAt(g.tree, Cursor(g)), Top(g).depth, g.vaPhys,
                   g.smallSize)
    ensures EntriesOk(g.tree.nodes, BaseAt(g.tree, Cursor(g)))
    ensures Top(g).recording ==> Includes(g.tables, ViewAt(g.tree, Cursor(g)).tables)
    ensures Top(g).tracked == (if Top(g).recording then ViewAt(g.tree, Cursor(g)).tracked else [])
    ensures forall id | id in ViewAt(g.tree, Cursor(g)).tracked :: id < |g.tree.nodes|
  {
    LevelBounds(g.tree, g.stack, g.client, |g.stack| - 1);
    ViewFacts(g.tree, g.vaPhys, g.smallSize, Cursor(g));
    BaseEntries(g.tree, g.vaPhys, g.smallSize, Cursor(g));
    TrackedBound(g.tree, g.vaPhys, g.smallSize, Cursor(g));
  }

  /** A page that is not live in the working tables is not live in any view they cover. */
  lemma {:induction false} FreeWindowBelow(big: Tables, small: Tables, vaPhys: seq<nat>, smallSize: nat, va: nat,
                                           pages: nat)
    requires TablesOk(big, vaPhys, smallSize) && TablesOk(small, vaPhys, smallSize) && Includes(big, small)
    requires FreeWindow(vaPhys, big.physicalLive, va, pages)
    ensures FreeWindow(vaPhys, small.physicalLive, va, pages)
  {
    IncludesLive(big, small, vaPhys);
  }

  lemma {:induction false} AllocatedLargeAppend(t: Tree, vaPhys: seq<nat>, smallSize: nat, c: NodeId, va: nat,
                                                size: nat, vp: VirtualPage, v': View)
    requires |t.notes| == |t.nodes| && c < |t.nodes| && t.notes[c].scope < |t.notes| && NextOk(t.nodes)
    requires ViewOk(t.nodes, BaseAt(t, c), ViewAt(t, c), t.notes[c].depth, vaPhys, smallSize) &&
             EntriesOk(t.nodes, BaseAt(t, c))
    requires PagesOf(size) > 0 && FreeWindow(vaPhys, ViewAt(t, c).tables.physicalLive, va, PagesOf(size))
    requires vp == VirtualPage(PagesOf(size), t.notes[c].depth, |t.nodes|)
    requires v' == View(AddLarge(ViewAt(t, c).tables, vaPhys, va, vp), [|t.nodes|] + ViewAt(t, c).tracked)
    ensures AppendOk(t, vaPhys, smallSize, c, Alloc(va, size), v')
  {
    var note := Note(v', t.notes[c].depth, t.notes[c].scope);
    var nodes' := Append(t, c, Alloc(va, size), note).nodes;
    assert LargeEntry(nodes', va, vp);
    hide FreeWindow, ViewOk, EntriesOk, NextOk, LargeEntry;
    AppendExtends(t, c, Alloc(va, size), note);
    AddLargeView(t.nodes, nodes', BaseAt(t, c), ViewAt(t, c), va, vp, t.notes[c].depth, vaPhys, smallSize);
  }

  lemma {:induction false} AllocatedLargeEvent(g: Graph, va: nat, size: nat, v': View, tables': Tables,
                                               held': set<Block>)
    requires Inv(g) && g.stack != [] && Top(g).recording
    requires Cursor(g) < |g.tree.nodes| == |g.tree.notes| && |g.client| == |g.stack|
    requires g.tree.notes[Cursor(g)].scope < |g.tree.notes|
    requires PagesOf(size) > 0 && FreeWindow(g.vaPhys, g.tables.physicalLive, va, PagesOf(size))
    requires v' == View(AddLarge(ViewAt(g.tree, Cursor(g)).tables, g.vaPhys, va, LargeEntryFor(g, size)),
                        [|g.tree.nodes|] + ViewAt(g.tree, Cursor(g)).tracked)
    requires tables' == AddLarge(g.tables, g.vaPhys, va, LargeEntryFor(g, size))
    requires held' == g.client[|g.client| - 1] + {Large(va, size)}
    ensures EventOk(g, Alloc(va, size), v', tables', held')
    ensures Total(tables') == g.used + PagesOf(size) * MG_PAGE
  {
    hide LevelsOk, TablesOk, EntriesOk, Includes, FreeWindow, ViewOk, CoversRecording, PeakOk, Extends, AppendOk,
         NodeOk, NextOk, MapOk, TreeOk;
    TopFacts(g);
    NextOfTree(g.tree, g.vaPhys, g.smallSize);
    var t, c, v, vp := g.tree, Cursor(g), ViewAt(g.tree, Cursor(g)), LargeEntryFor(g, size);
    var note := Note(v', t.notes[c].depth, t.notes[c].scope);
    var nodes' := Append(t, c, Alloc(va, size), note).nodes;
    AppendExtends(t, c, Alloc(va, size), note);
    BlocksAlloc(t.nodes, nodes', v.tracked, |t.nodes|);
    ViewTables(t.nodes, BaseAt(t, c), v, Top(g).depth, g.vaPhys, g.smallSize);
    FreeWindowBelow(g.tables, v.tables, g.vaPhys, g.smallSize, va, vp.span);
    WindowAdds(g.tables, g.vaPhys, g.smallSize, va, vp);
    AllocatedLargeAppend(t, g.vaPhys, g.smallSize, c, va, size, vp, v');
    AllocEntries(t.nodes, nodes', g.tables, va, vp, g.vaPhys);
    AddLargeIncludes(g.tables, v.tables, va, vp, g.vaPhys);
  }

  lemma {:induction false} ViewTables(nodes: seq<Node>, base: Tables, v: View, depth: nat, vaPhys: seq<nat>,
                                      smallSize: nat)
    requires ViewOk(nodes, base, v, depth, vaPhys, smallSize)
    ensures TablesOk(v.tables, vaPhys, smallSize)
  {
  }

  lemma {:induction false} WindowAdds(t: Tables, vaPhys: seq<nat>, smallSize: nat, va: nat, vp: VirtualPage)
    requires TablesOk(t, vaPhys, smallSize) && vp.span > 0 && FreeWindow(vaPhys, t.physicalLive, va, vp.span)
    ensures TablesOk(AddLarge(t, vaPhys, va, vp), vaPhys, smallSize)
    ensures Total(AddLarge(t, vaPhys, va, vp)) == Total(t) + vp.span * MG_PAGE
  {
    AddLargeOk(t, vaPhys, smallSize, va, vp);
  }

  lemma {:induction false} AllocatedLargeInv(g: Graph, va: nat, size: nat)
    requires Inv(g) && g.stack != [] && Top(g).recording
    requires PagesOf(size) > 0 && FreeWindow(g.vaPhys, g.tables.physicalLive, va, PagesOf(size))
    ensures |g.client| == |g.stack| && Cursor(g) < |g.tree.nodes| == |g.tree.notes|
    ensures Inv(AllocatedLarge(g, va, size))
  {
    hide Inv, EventOk, FreeWindow;
    TopFacts(g);
    var v, vp := ViewAt(g.tree, Cursor(g)), LargeEntryFor(g, size);
    var v' := View(AddLarge(v.tables, g.vaPhys, va, vp), [|g.tree.nodes|] + v.tracked);
    var tables' := AddLarge(g.tables, g.vaPhys, va, vp);
    var held' := g.client[|g.client| - 1] + {Large(va, size)};
    AllocatedLargeEvent(g, va, size, v', tables', held');
    RecordedInv(g, Alloc(va, size), v', tables', g.used + PagesOf(size) * MG_PAGE, held');
  }

  // ---------------------------------------------------------------- small allocations

  function SmallEntryFor(g: Graph, offset: nat, size: nat): SmallRange
    requires g.stack != []
  {
    SmallRange(offset, AlignSmall(size), Top(g).depth, |g.tree.nodes|)
  }

  /** Record a sub-page allocation of `size` bytes at `offset`. */
  function AllocatedSmall(g: Graph, offset: nat, size: nat): Graph
    requires g.stack != [] && |g.client| == |g.stack| && Cursor(g) < |g.tree.nodes| == |g.tree.notes|
  {
    var v := ViewAt(g.tree, Cursor(g));
    var r := SmallEntryFor(g, offset, size);
    Recorded(g, AllocSmall(offset, size),
             View(AddSmall(v.tables, r), [|g.tree.nodes|] + v.tracked),
             AddSmall(g.tables, r),
             g.used + AlignSmall(size),
             g.client[|g.client| - 1] + {Small(offset, size)})
  }

  ghost predicate FreeSpan(s: seq<SmallRange>, smallSize: nat, offset: nat, bytes: nat) {
    && offset + bytes <= smallSize && Aligned(offset)
    && forall q | q in s :: !Overlaps(offset, bytes, q)
  }

  lemma {:induction false} AddSmallView(nodes: seq<Node>, nodes': seq<Node>, base: Tables, v: View, r: SmallRange,
                                        depth: nat, vaPhys: seq<nat>, smallSize: nat)
    requires SameEvents(nodes, nodes') && EntriesOk(nodes, base) && ViewOk(nodes, base, v, depth, vaPhys, smallSize)
    requires r.bytes > 0 && FreeSpan(v.tables.smallRanges, smallSize, r.offset, r.bytes)
    requires r.ownerDepth == depth && r.allocation >= |nodes| && SmallEntry(nodes', r)
    ensures ViewOk(nodes', base, View(AddSmall(v.tables, r), [r.allocation] + v.tracked), depth, vaPhys, smallSize)
  {
    AddSmallOk(v.tables, vaPhys, smallSize, r);
    InsertSmallOk(v.tables.smallRanges, r);
    hide TablesOk, FreeSpan, SmallSorted;
    AllocSmallTracked(nodes, nodes', base, v, r);
  }

  lemma {:induction false} AddSmallEntries(nodes: seq<Node>, nodes': seq<Node>, big: Tables, small: Tables,
                                           r: SmallRange)
    requires SameEvents(nodes, nodes') && EntriesOk(nodes, big) && SmallEntry(nodes', r) && Includes(big, small)
    requires forall q :: q in AddSmall(big, r).smallRanges <==> q in big.smallRanges || q == r
    requires forall q :: q in AddSmall(small, r).smallRanges <==> q in small.smallRanges || q == r
    ensures EntriesOk(nodes', AddSmall(big, r))
    ensures Includes(AddSmall(big, r), AddSmall(small, r))
  {
  }

  lemma {:induction false} AllocatedSmallAppend(t: Tree, vaPhys: seq<nat>, smallSize: nat, c: NodeId, offset: nat,
                                                size: nat, r: SmallRange, v': View)
    requires |t.notes| == |t.nodes| && c < |t.nodes| && t.notes[c].scope < |t.notes| && NextOk(t.nodes)
    requires ViewOk(t.nodes, BaseAt(t, c), ViewAt(t, c), t.notes[c].depth, vaPhys, smallSize) &&
             EntriesOk(t.nodes, BaseAt(t, c))
    requires AlignSmall(size) > 0 && FreeSpan(ViewAt(t, c).tables.smallRanges, smallSize, offset, AlignSmall(size))
    requires r == SmallRange(offset, AlignSmall(size), t.notes[c].depth, |t.nodes|)
    requires v' == View(AddSmall(ViewAt(t, c).tables, r), [|t.nodes|] + ViewAt(t, c).tracked)
    ensures AppendOk(t, vaPhys, smallSize, c, AllocSmall(offset, size), v')
  {
    var note := Note(v', t.notes[c].depth, t.notes[c].scope);
    var nodes' := Append(t, c, AllocSmall(offset, size), note).nodes;
    assert SmallEntry(nodes', r);
    hide FreeSpan, ViewOk, EntriesOk, NextOk, SmallEntry;
    AppendExtends(t, c, AllocSmall(offset, size), note);
    AddSmallView(t.nodes, nodes', BaseAt(t, c), ViewAt(t, c), r, t.notes[c].depth, vaPhys, smallSize);
  }

  lemma {:induction false} AllocatedSmallEvent(g: Graph, offset: nat, size: nat, v': View, tables': Tables,
                                               held': set<Block>)
    requires Inv(g) && g.stack != [] && Top(g).recording
    requires Cursor(g) < |g.tree.nodes| == |g.tree.notes| && |g.client| == |g.stack|
    requires g.tree.notes[Cursor(g)].scope < |g.tree.notes|
    requires AlignSmall(size) > 0 && FreeSpan(g.tables.smallRanges, g.smallSize, offset, AlignSmall(size))
    requires v' == View(AddSmall(ViewAt(g.tree, Cursor(g)).tables, SmallEntryFor(g, offset, size)),
                        [|g.tree.nodes|] + ViewAt(g.tree, Cursor(g)).tracked)
    requires tables' == AddSmall(g.tables, SmallEntryFor(g, offset, size))
    requires held' == g.client[|g.client| - 1] + {Small(offset, size)}
    ensures EventOk(g, AllocSmall(offset, size), v', tables', held')
    ensures Total(tables') == g.used + AlignSmall(size)
  {
    hide LevelsOk, TablesOk, EntriesOk, Includes, FreeSpan, ViewOk, CoversRecording, PeakOk, Extends, AppendOk, NodeOk,
         NextOk, MapOk, TreeOk, InsertSmall;
    TopFacts(g);
    NextOfTree(g.tree, g.vaPhys, g.smallSize);
    var t, c, v, r := g.tree, Cursor(g), ViewAt(g.tree, Cursor(g)), SmallEntryFor(g, offset, size);
    var note := Note(v', t.notes[c].depth, t.notes[c].scope);
    var nodes' := Append(t, c, AllocSmall(offset, size), note).nodes;
    AppendExtends(t, c, AllocSmall(offset, size), note);
    BlocksAlloc(t.nodes, nodes', v.tracked, |t.nodes|);
    ViewTables(t.nodes, BaseAt(t, c), v, Top(g).depth, g.vaPhys, g.smallSize);
    FreeSpanBelow(g.tables, v.tables, g.smallSize, offset, r.bytes);
    SpanAdds(g.tables, g.vaPhys, g.smallSize, r);
    SpanAdds(v.tables, g.vaPhys, g.smallSize, r);
    AllocatedSmallAppend(t, g.vaPhys, g.smallSize, c, offset, size, r, v');
    AddSmallEntries(t.nodes, nodes', g.tables, v.tables, r);
  }

  lemma {:induction false} FreeSpanBelow(big: Tables, small: Tables, smallSize: nat, offset: nat, bytes: nat)
    requires Includes(big, small) && FreeSpan(big.smallRanges, smallSize, offset, bytes)
    ensures FreeSpan(small.smallRanges, smallSize, offset, bytes)
  {
  }

  lemma {:induction false} SpanAdds(t: Tables, vaPhys: seq<nat>, smallSize: nat, r: SmallRange)
    requires TablesOk(t, vaPhys, smallSize) && r.bytes > 0 && Aligned(r.bytes)
    requires FreeSpan(t.smallRanges, smallSize, r.offset, r.bytes)
    ensures TablesOk(AddSmall(t, r), vaPhys, smallSize)
    ensures Total(AddSmall(t, r)) == Total(t) + r.bytes
    ensures forall q :: q in AddSmall(t, r).smallRanges <==> q in t.smallRanges || q == r
  {
    AddSmallOk(t, vaPhys, smallSize, r);
    InsertSmallOk(t.smallRanges, r);
  }

  lemma {:induction false} AllocatedSmallInv(g: Graph, offset: nat, size: nat)
    requires Inv(g) && g.stack != [] && Top(g).recording
    requires AlignSmall(size) > 0 && FreeSpan(g.tables.smallRanges, g.smallSize, offset, AlignSmall(size))
    ensures |g.client| == |g.stack| && Cursor(g) < |g.tree.nodes| == |g.tree.notes|
    ensures Inv(AllocatedSmall(g, offset, size))
  {
    hide Inv, EventOk, FreeSpan;
    TopFacts(g);
    var v, r := ViewAt(g.tree, Cursor(g)), SmallEntryFor(g, offset, size);
    var v' := View(AddSmall(v.tables, r), [|g.tree.nodes|] + v.tracked);
    var held' := g.client[|g.client| - 1] + {Small(offset, size)};
    AllocatedSmallEvent(g, offset, size, v', AddSmall(g.tables, r), held');
    RecordedInv(g, AllocSmall(offset, size), v', AddSmall(g.tables, r), g.used + AlignSmall(size), held');
  }

  // ---------------------------------------------------------------- frees

  /** What `malloc_graph_free` checks before it drops a large allocation: it starts here and belongs to this scope. */
  predicate OwnsLarge(g: Graph, va: nat)
    requires g.stack != []
  {
    && va in g.tables.virtualPages
    && g.tables.virtualPages[va].ownerDepth == Top(g).depth
    && g.tables.virtualPages[va].allocation in Top(g).tracked
  }

  predicate OwnsSmall(g: Graph, offset: nat)
    requires g.stack != []
  {
    var s := g.tables.smallRanges;
    && SmallAt(s, offset)
    && s[Position(s, offset)].ownerDepth == Top(g).depth
    && s[Position(s, offset)].allocation in Top(g).tracked
  }

  function DropSmall(t: Tables, offset: nat): Tables
    requires SmallAt(t.smallRanges, offset)
  {
    t.(smallRanges := RemoveSmall(t.smallRanges, Position(t.smallRanges, offset)))
  }

  /** An entry of the working tables that this scope tracks is the entry its view has there. */
  lemma {:induction false} OwnedLargeInView(nodes: seq<Node>, big: Tables, v: View, va: nat)
    requires EntriesOk(nodes, big) && Includes(big, v.tables)
    requires va in big.virtualPages && big.virtualPages[va].allocation in v.tracked
    requires LiveIn(nodes, v.tables, big.virtualPages[va].allocation)
    ensures va in v.tables.virtualPages && v.tables.virtualPages[va] == big.virtualPages[va]
  {
    assert LargeEntry(nodes, va, big.virtualPages[va]);
  }

  lemma {:induction false} OwnedSmallInView(nodes: seq<Node>, big: Tables, v: View, offset: nat)
    requires EntriesOk(nodes, big) && Includes(big, v.tables) && SmallSorted(big.smallRanges) &&
             SmallSorted(v.tables.smallRanges)
    requires SmallAt(big.smallRanges, offset)
    requires LiveIn(nodes, v.tables, big.smallRanges[Position(big.smallRanges, offset)].allocation)
    ensures SmallAt(v.tables.smallRanges, offset)
    ensures v.tables.smallRanges[Position(v.tables.smallRanges, offset)] ==
              big.smallRanges[Position(big.smallRanges, offset)]
  {
    var r := big.smallRanges[Position(big.smallRanges, offset)];
    assert r in big.smallRanges && SmallEntry(nodes, r);
    var q :| q in v.tables.smallRanges && q.allocation == r.allocation;
    assert q in big.smallRanges && SmallEntry(nodes, q);
    SmallEntryUnique(nodes, big.smallRanges, r, q);
    SmallByOffset(v.tables.smallRanges, r);
  }

  function FreedLarge(g: Graph, va: nat): Graph
    requires g.stack != [] && |g.client| == |g.stack| && Cursor(g) < |g.tree.nodes| == |g.tree.notes|
    requires va in g.tables.virtualPages && va in ViewAt(g.tree, Cursor(g)).tables.virtualPages
    requires ViewAt(g.tree, Cursor(g)).tables.virtualPages[va].allocation in ViewAt(g.tree, Cursor(g)).tracked
    requires g.tables.virtualPages[va].span * MG_PAGE <= g.used
  {
    var v := ViewAt(g.tree, Cursor(g));
    Recorded(g, Free(va),
             View(RemoveLarge(v.tables, g.vaPhys, va), Untrack(v.tracked, v.tables.virtualPages[va].allocation)),
             RemoveLarge(g.tables, g.vaPhys, va),
             g.used - g.tables.virtualPages[va].span * MG_PAGE,
             WithoutAt(g.client[|g.client| - 1], false, va))
  }

  function FreedSmall(g: Graph, offset: nat): Graph
    requires g.stack != [] && |g.client| == |g.stack| && Cursor(g) < |g.tree.nodes| == |g.tree.notes|
    requires SmallAt(g.tables.smallRanges, offset) && SmallAt(ViewAt(g.tree, Cursor(g)).tables.smallRanges, offset)
    requires var s := ViewAt(g.tree, Cursor(g)).tables.smallRanges;
             s[Position(s, offset)].allocation in ViewAt(g.tree, Cursor(g)).tracked
    requires g.tables.smallRanges[Position(g.tables.smallRanges, offset)].bytes <= g.used
  {
    var v := ViewAt(g.tree, Cursor(g));
    var s := v.tables.smallRanges;
    Recorded(g, FreeSmall(offset),
             View(DropSmall(v.tables, offset), Untrack(v.tracked, s[Position(s, offset)].allocation)),
             DropSmall(g.tables, offset),
             g.used - g.tables.smallRanges[Position(g.tables.smallRanges, offset)].bytes,
             WithoutAt(g.client[|g.client| - 1], true, offset))
  }
}
