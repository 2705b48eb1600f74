/**
 Recording a free, and exactly when the graph accepts one.
 */
module GraphFree {
  import opened Basics
  import opened GraphTables
  import opened GraphTree
  import opened GraphRun
  import opened GraphSteps
  import opened GraphAlloc

  // ---------------------------------------------------------------- which frees are accepted

  lemma {:induction false} OwnedLargeBlock(g: Graph, va: nat)
    requires Inv(g) && g.stack != [] && Top(g).recording && OwnsLarge(g, va)
    ensures |g.client| == |g.stack|
    ensures exists b :: b in g.client[|g.client| - 1] && At(b, false, va)
  {
    TopFacts(g);
    var id := g.tables.virtualPages[va].allocation;
    assert LargeEntry(g.tree.nodes, va, g.tables.virtualPages[va]);
    assert BlockOf(g.tree.nodes[id].event) in Blocks(g.tree.nodes, ViewAt(g.tree, Cursor(g)).tracked);
    assert At(BlockOf(g.tree.nodes[id].event), false, va);
  }

  lemma {:induction false} OwnedSmallBlock(g: Graph, offset: nat)
    requires Inv(g) && g.stack != [] && Top(g).recording && OwnsSmall(g, offset)
    ensures |g.client| == |g.stack|
    ensures exists b :: b in g.client[|g.client| - 1] && At(b, true, offset)
  {
    TopFacts(g);
    var r := g.tables.smallRanges[Position(g.tables.smallRanges, offset)];
    assert r in g.tables.smallRanges && SmallEntry(g.tree.nodes, r);
    assert BlockOf(g.tree.nodes[r.allocation].event) in Blocks(g.tree.nodes, ViewAt(g.tree, Cursor(g)).tracked);
    assert At(BlockOf(g.tree.nodes[r.allocation].event), true, offset);
  }

  /** The tracked node behind a block of the top scope. */
  lemma {:induction false} HeldNode(g: Graph, b: Block) returns (id: NodeId)
    requires Inv(g) && g.stack != [] && |g.client| == |g.stack| && b in g.client[|g.client| - 1]
    requires Cursor(g) < |g.tree.nodes| == |g.tree.notes|
    ensures id < |g.tree.nodes| && id in ViewAt(g.tree, Cursor(g)).tracked && BlockOf(g.tree.nodes[id].event) == b
    ensures LiveIn(g.tree.nodes, ViewAt(g.tree, Cursor(g)).tables, id)
  {
    id := ClientNode(g, |g.stack| - 1, b);
  }

  lemma {:induction false} HeldLargeOwned(g: Graph, b: Block, va: nat)
    requires Inv(g) && g.stack != [] && Top(g).recording
    requires |g.client| == |g.stack| && b in g.client[|g.client| - 1] && At(b, false, va)
    ensures OwnsLarge(g, va)
  {
    TopFacts(g);
    var id := HeldNode(g, b);
    assert ViewAt(g.tree, Cursor(g)).tables.virtualPages[va].allocation == id;
  }

  lemma {:induction false} HeldSmallOwned(g: Graph, b: Block, offset: nat)
    requires Inv(g) && g.stack != [] && Top(g).recording
    requires |g.client| == |g.stack| && b in g.client[|g.client| - 1] && At(b, true, offset)
    ensures OwnsSmall(g, offset)
  {
    TopFacts(g);
    var id := HeldNode(g, b);
    var v := ViewAt(g.tree, Cursor(g));
    var r :| r in v.tables.smallRanges && r.allocation == id;
    assert SmallEntry(g.tree.nodes, r);
    SmallByOffset(g.tables.smallRanges, r);
  }

  /** While recording, a free passes the program's checks exactly when the current scope itself holds a block there. */
  lemma {:induction false} FreeAcceptedIff(g: Graph, small: bool, value: nat)
    requires Inv(g) && g.stack != [] && Top(g).recording
    ensures |g.client| == |g.stack|
    ensures (if small then OwnsSmall(g, value) else OwnsLarge(g, value))
            <==> exists b :: b in g.client[|g.client| - 1] && At(b, small, value)
  {
    TopFacts(g);
    if exists b :: b in g.client[|g.client| - 1] && At(b, small, value) {
      var b :| b in g.client[|g.client| - 1] && At(b, small, value);
      if small { HeldSmallOwned(g, b, value); } else { HeldLargeOwned(g, b, value); }
    }
    if small {
      if OwnsSmall(g, value) { OwnedSmallBlock(g, value); }
    } else {
      if OwnsLarge(g, value) { OwnedLargeBlock(g, value); }
    }
  }

  // ---------------------------------------------------------------- large frees

  lemma {:induction false} FreedLargeView(nodes: seq<Node>, nodes': seq<Node>, base: Tables, v: View, va: nat,
                                          depth: nat, vaPhys: seq<nat>, smallSize: nat)
    requires SameEvents(nodes, nodes') && ViewOk(nodes, base, v, depth, vaPhys, smallSize)
    requires va in v.tables.virtualPages && v.tables.virtualPages[va].allocation in v.tracked
    ensures ViewOk(nodes', base, View(RemoveLarge(v.tables, vaPhys, va),
                                      Untrack(v.tracked, v.tables.virtualPages[va].allocation)), depth, vaPhys,
                                      smallSize)
  {
    hide TablesOk, EntriesOk, ScopeView, DepthOk, RemoveLarge, Untrack;
    var v' := View(RemoveLarge(v.tables, vaPhys, va), Untrack(v.tracked, v.tables.virtualPages[va].allocation));
    RemoveLargeOk(v.tables, vaPhys, smallSize, va);
    FreeTracked(nodes, base, v, va, vaPhys);
    RemoveDepth(nodes, base, v, va, depth, vaPhys);
    ViewOkMono(nodes, nodes', base, v', depth, vaPhys, smallSize);
  }

  lemma {:induction false} RemoveDepth(nodes: seq<Node>, base: Tables, v: View, va: nat, depth: nat, vaPhys: seq<nat>)
    requires ScopeView(nodes, base, v) && DepthOk(v, depth)
    requires va in v.tables.virtualPages && v.tables.virtualPages[va].allocation in v.tracked
    ensures DepthOk(View(RemoveLarge(v.tables, vaPhys, va), Untrack(v.tracked, v.tables.virtualPages[va].allocation)),
                    depth)
  {
    UntrackMembers(v.tracked, v.tables.virtualPages[va].allocation);
  }

  lemma {:induction false} FreedLargeAppend(t: Tree, vaPhys: seq<nat>, smallSize: nat, c: NodeId, va: nat, v': View)
    requires |t.notes| == |t.nodes| && c < |t.nodes| && t.notes[c].scope < |t.notes| && NextOk(t.nodes)
    requires ViewOk(t.nodes, BaseAt(t, c), ViewAt(t, c), t.notes[c].depth, vaPhys, smallSize)
    requires var v := ViewAt(t, c);
             va in v.tables.virtualPages && v.tables.virtualPages[va].allocation in v.tracked &&
             v' == View(RemoveLarge(v.tables, vaPhys, va), Untrack(v.tracked, v.tables.virtualPages[va].allocation))
    ensures AppendOk(t, vaPhys, smallSize, c, Free(va), v')
  {
    hide ViewOk, NextOk;
    var note := Note(v', t.notes[c].depth, t.notes[c].scope);
    AppendExtends(t, c, Free(va), note);
    FreedLargeView(t.nodes, Append(t, c, Free(va), note).nodes, BaseAt(t, c), ViewAt(t, c), va, t.notes[c].depth,
                   vaPhys, smallSize);
  }

  lemma {:induction false} RemoveLargeRest(nodes: seq<Node>, nodes': seq<Node>, big: Tables, small: Tables, va: nat,
                                           vaPhys: seq<nat>)
    requires SameEvents(nodes, nodes') && EntriesOk(nodes, big) && Includes(big, small)
    requires va in big.virtualPages && va in small.virtualPages
    ensures EntriesOk(nodes', RemoveLarge(big, vaPhys, va))
    ensures Includes(RemoveLarge(big, vaPhys, va), RemoveLarge(small, vaPhys, va))
  {
  }

  lemma {:induction false} OwnedEntry(g: Graph, va: nat)
    requires Inv(g) && g.stack != [] && Top(g).recording && OwnsLarge(g, va)
    ensures |g.client| == |g.stack| && Cursor(g) < |g.tree.nodes| == |g.tree.notes|
    ensures var v := ViewAt(g.tree, Cursor(g));
            va in v.tables.virtualPages && v.tables.virtualPages[va] == g.tables.virtualPages[va] &&
            v.tables.virtualPages[va].allocation in v.tracked
    ensures g.tables.virtualPages[va].allocation < |g.tree.nodes|
    ensures At(BlockOf(g.tree.nodes[g.tables.virtualPages[va].allocation].event), false, va)
    ensures g.tables.virtualPages[va].span * MG_PAGE <= g.used
  {
    TopFacts(g);
    var v := ViewAt(g.tree, Cursor(g));
    assert LargeEntry(g.tree.nodes, va, g.tables.virtualPages[va]);
    assert LiveIn(g.tree.nodes, v.tables, g.tables.virtualPages[va].allocation);
    OwnedLargeInView(g.tree.nodes, g.tables, v, va);
    RemoveLargeOk(g.tables, g.vaPhys, g.smallSize, va);
  }

  lemma {:induction false} ViewBlocksFree(nodes: seq<Node>, nodes': seq<Node>, base: Tables, v: View, depth: nat,
                                          vaPhys: seq<nat>, smallSize: nat, id: NodeId, small: bool, value: nat)
    requires SameEvents(nodes, nodes') && ViewOk(nodes, base, v, depth, vaPhys, smallSize)
    requires id in v.tracked && id < |nodes| && At(BlockOf(nodes[id].event), small, value)
    requires forall q | q in v.tracked :: q < |nodes|
    ensures Blocks(nodes', Untrack(v.tracked, id)) == WithoutAt(Blocks(nodes, v.tracked), small, value)
  {
    BlocksFree(nodes, v, id, small, value);
    UntrackMembers(v.tracked, id);
    BlocksMono(nodes, nodes', Untrack(v.tracked, id));
  }

  lemma {:induction false} FreedLargeEvent(g: Graph, va: nat, v': View, tables': Tables, held': set<Block>)
    requires Inv(g) && g.stack != [] && Top(g).recording && OwnsLarge(g, va)
    requires Cursor(g) < |g.tree.nodes| == |g.tree.notes| && |g.client| == |g.stack|
    requires g.tree.notes[Cursor(g)].scope < |g.tree.notes|
    requires var v := ViewAt(g.tree, Cursor(g));
             va in v.tables.virtualPages && v.tables.virtualPages[va].allocation in v.tracked &&
             v' == View(RemoveLarge(v.tables, g.vaPhys, va), Untrack(v.tracked, v.tables.virtualPages[va].allocation))
    requires tables' == RemoveLarge(g.tables, g.vaPhys, va)
    requires held' == WithoutAt(g.client[|g.client| - 1], false, va)
    ensures EventOk(g, Free(va), v', tables', held')
    ensures Total(tables') + g.tables.virtualPages[va].span * MG_PAGE == g.used
  {
    TopFacts(g);
    OwnedEntry(g, va);
    var t, c, v := g.tree, Cursor(g), ViewAt(g.tree, Cursor(g));
    var note := Note(v', t.notes[c].depth, t.notes[c].scope);
    var nodes' := Append(t, c, Free(va), note).nodes;
    AppendExtends(t, c, Free(va), note);
    RemoveLargeOk(g.tables, g.vaPhys, g.smallSize, va);
    hide LevelsOk, TablesOk, EntriesOk, Includes, ViewOk, CoversRecording, PeakOk, SameEvents, Extends, AppendOk,
         NodeOk, NextOk;
    FreedLargeAppend(t, g.vaPhys, g.smallSize, c, va, v');
    RemoveLargeRest(t.nodes, nodes', g.tables, v.tables, va, g.vaPhys);
    ViewBlocksFree(t.nodes, nodes', BaseAt(t, c), v, Top(g).depth, g.vaPhys, g.smallSize,
                   v.tables.virtualPages[va].allocation, false, va);
  }

  lemma {:induction false} FreedLargeInv(g: Graph, va: nat)
    requires Inv(g) && g.stack != [] && Top(g).recording && OwnsLarge(g, va)
    ensures |g.client| == |g.stack| && Cursor(g) < |g.tree.nodes| == |g.tree.notes|
    ensures FreedLarge.requires(g, va) && Inv(FreedLarge(g, va))
  {
    hide Inv, EventOk, OwnsLarge, Untrack, WithoutAt, RemoveLarge, ViewOk, EntriesOk, Includes, Blocks, At;
    TopFacts(g);
    OwnedEntry(g, va);
    var v := ViewAt(g.tree, Cursor(g));
    var v' := View(RemoveLarge(v.tables, g.vaPhys, va), Untrack(v.tracked, v.tables.virtualPages[va].allocation));
    var held' := WithoutAt(g.client[|g.client| - 1], false, va);
    var tables' := RemoveLarge(g.tables, g.vaPhys, va);
    FreedLargeEvent(g, va, v', tables', held');
    var bytes: nat := g.tables.virtualPages[va].span * MG_PAGE;
    RecordedInv(g, Free(va), v', tables', g.used - bytes, held');
  }

  // ---------------------------------------------------------------- small frees

  lemma {:induction false} FreedSmallView(nodes: seq<Node>, nodes': seq<Node>, base: Tables, v: View, offset: nat,
                                          depth: nat, vaPhys: seq<nat>, smallSize: nat)
    requires SameEvents(nodes, nodes') && ViewOk(nodes, base, v, depth, vaPhys, smallSize)
    requires SmallAt(v.tables.smallRanges, offset)
    requires v.tables.smallRanges[Position(v.tables.smallRanges, offset)].allocation in v.tracked
    ensures var id := v.tables.smallRanges[Position(v.tables.smallRanges, offset)].allocation;
            ViewOk(nodes', base, View(DropSmall(v.tables, offset), Untrack(v.tracked, id)), depth, vaPhys, smallSize)
  {
    var s := v.tables.smallRanges;
    var k := Position(s, offset);
    var v' := View(DropSmall(v.tables, offset), Untrack(v.tracked, s[k].allocation));
    RemoveSmallOk(s, k);
    FreeSmallTracked(nodes, base, v, k);
    UntrackMembers(v.tracked, s[k].allocation);
    assert DepthOk(v', depth);
    assert TablesOk(v'.tables, vaPhys, smallSize) by { DropLargeSame(v.tables, v'.tables, vaPhys); }
    hide TablesOk, EntriesOk, ScopeView, DepthOk;
    ViewOkMono(nodes, nodes', base, v', depth, vaPhys, smallSize);
  }

  lemma {:induction false} DropLargeSame(t: Tables, t': Tables, vaPhys: seq<nat>)
    requires LargeOk(t, vaPhys) && t'.virtualPages == t.virtualPages && t'.physicalLive == t.physicalLive
    ensures LargeOk(t', vaPhys)
  {
    assert forall va | va in t.virtualPages :: PhysAt(t', vaPhys, va) == PhysAt(t, vaPhys, va);
    assert LiveExact(t', vaPhys) by {
      forall p | p in t'.physicalLive
        ensures exists va :: va in t'.virtualPages && p in PhysAt(t', vaPhys, va)
      {
        var va :| va in t.virtualPages && p in PhysAt(t, vaPhys, va);
        assert va in t'.virtualPages && p in PhysAt(t', vaPhys, va);
      }
    }
  }

  lemma {:induction false} FreedSmallAppend(t: Tree, vaPhys: seq<nat>, smallSize: nat, c: NodeId, offset: nat, v': View)
    requires |t.notes| == |t.nodes| && c < |t.nodes| && t.notes[c].scope < |t.notes| && NextOk(t.nodes)
    requires ViewOk(t.nodes, BaseAt(t, c), ViewAt(t, c), t.notes[c].depth, vaPhys, smallSize)
    requires var v := ViewAt(t, c);
             SmallAt(v.tables.smallRanges, offset) &&
             v.tables.smallRanges[Position(v.tables.smallRanges, offset)].allocation in v.tracked &&
             v' == View(DropSmall(v.tables, offset),
                        Untrack(v.tracked, v.tables.smallRanges[Position(v.tables.smallRanges, offset)].allocation))
    ensures AppendOk(t, vaPhys, smallSize, c, FreeSmall(offset), v')
  {
    hide ViewOk, NextOk;
    var note := Note(v', t.notes[c].depth, t.notes[c].scope);
    AppendExtends(t, c, FreeSmall(offset), note);
    FreedSmallView(t.nodes, Append(t, c, FreeSmall(offset), note).nodes, BaseAt(t, c), ViewAt(t, c), offset,
                   t.notes[c].depth, vaPhys, smallSize);
  }

  lemma {:induction false} DropSmallRest(nodes: seq<Node>, nodes': seq<Node>, big: Tables, small: Tables, offset: nat,
                                         vaPhys: seq<nat>, smallSize: nat)
    requires SameEvents(nodes, nodes') && EntriesOk(nodes, big) && Includes(big, small)
    requires TablesOk(big, vaPhys, smallSize) && SmallSorted(small.smallRanges)
    requires SmallAt(big.smallRanges, offset) && SmallAt(small.smallRanges, offset)
    requires small.smallRanges[Position(small.smallRanges, offset)] ==
               big.smallRanges[Position(big.smallRanges, offset)]
    ensures TablesOk(DropSmall(big, offset), vaPhys, smallSize)
    ensures EntriesOk(nodes', DropSmall(big, offset))
    ensures Includes(DropSmall(big, offset), DropSmall(small, offset))
    ensures Total(DropSmall(big, offset)) + big.smallRanges[Position(big.smallRanges, offset)].bytes == Total(big)
  {
    hide LargeOk, SmallSorted, Position, RemoveSmall, SumBytes, SmallWithin;
    DropFacts(big, vaPhys, smallSize, offset);
    RemoveMembers(small.smallRanges, Position(small.smallRanges, offset));
  }

  lemma {:induction false} DropFacts(t: Tables, vaPhys: seq<nat>, smallSize: nat, offset: nat)
    requires TablesOk(t, vaPhys, smallSize) && SmallAt(t.smallRanges, offset)
    ensures TablesOk(DropSmall(t, offset), vaPhys, smallSize)
    ensures Total(DropSmall(t, offset)) + t.smallRanges[Position(t.smallRanges, offset)].bytes == Total(t)
    ensures forall q :: q in DropSmall(t, offset).smallRanges <==>
              q in t.smallRanges && q != t.smallRanges[Position(t.smallRanges, offset)]
  {
    RemoveSmallOk(t.smallRanges, Position(t.smallRanges, offset));
    DropLargeSame(t, DropSmall(t, offset), vaPhys);
  }

  lemma {:induction false} OwnedRange(g: Graph, offset: nat)
    requires Inv(g) && g.stack != [] && Top(g).recording && OwnsSmall(g, offset)
    ensures |g.client| == |g.stack| && Cursor(g) < |g.tree.nodes| == |g.tree.notes|
    ensures var v, s := ViewAt(g.tree, Cursor(g)), g.tables.smallRanges;
            && SmallAt(v.tables.smallRanges, offset)
            && v.tables.smallRanges[Position(v.tables.smallRanges, offset)] == s[Position(s, offset)]
            && s[Position(s, offset)].allocation in v.tracked
            && s[Position(s, offset)].allocation < |g.tree.nodes|
            && At(BlockOf(g.tree.nodes[s[Position(s, offset)].allocation].event), true, offset)
            && s[Position(s, offset)].bytes <= g.used
  {
    TopFacts(g);
    var v, s := ViewAt(g.tree, Cursor(g)), g.tables.smallRanges;
    var r := s[Position(s, offset)];
    assert r in s && SmallEntry(g.tree.nodes, r);
    assert LiveIn(g.tree.nodes, v.tables, r.allocation);
    OwnedSmallInView(g.tree.nodes, g.tables, v, offset);
    RemoveSmallOk(s, Position(s, offset));
  }

  lemma {:induction false} FreedSmallEvent(g: Graph, offset: nat, v': View, tables': Tables, held': set<Block>)
    requires Inv(g) && g.stack != [] && Top(g).recording && OwnsSmall(g, offset)
    requires Cursor(g) < |g.tree.nodes| == |g.tree.notes| && |g.client| == |g.stack|
    requires g.tree.notes[Cursor(g)].scope < |g.tree.notes|
    requires var v := ViewAt(g.tree, Cursor(g));
             SmallAt(v.tables.smallRanges, offset) &&
             v.tables.smallRanges[Position(v.tables.smallRanges, offset)].allocation in v.tracked &&
             v' == View(DropSmall(v.tables, offset),
                        Untrack(v.tracked, v.tables.smallRanges[Position(v.tables.smallRanges, offset)].allocation))
    requires tables' == DropSmall(g.tables, offset)
    requires held' == WithoutAt(g.client[|g.client| - 1], true, offset)
    ensures EventOk(g, FreeSmall(offset), v', tables', held')
    ensures Total(tables') + g.tables.smallRanges[Position(g.tables.smallRanges, offset)].bytes == g.used
  {
    TopFacts(g);
    OwnedRange(g, offset);
    var t, c, v := g.tree, Cursor(g), ViewAt(g.tree, Cursor(g));
    var note := Note(v', t.notes[c].depth, t.notes[c].scope);
    var nodes' := Append(t, c, FreeSmall(offset), note).nodes;
    AppendExtends(t, c, FreeSmall(offset), note);
    DropSmallRest(t.nodes, nodes', g.tables, v.tables, offset, g.vaPhys, g.smallSize);
    hide LevelsOk, TablesOk, EntriesOk, Includes, ViewOk, CoversRecording, PeakOk, SameEvents, Extends, AppendOk,
         NodeOk, NextOk;
    FreedSmallAppend(t, g.vaPhys, g.smallSize, c, offset, v');
    ViewBlocksFree(t.nodes, nodes', BaseAt(t, c), v, Top(g).depth, g.vaPhys, g.smallSize,
                   v.tables.smallRanges[Position(v.tables.smallRanges, offset)].allocation, true, offset);
  }

  lemma {:induction false} FreedSmallInv(g: Graph, offset: nat)
    requires Inv(g) && g.stack != [] && Top(g).recording && OwnsSmall(g, offset)
    ensures |g.client| == |g.stack| && Cursor(g) < |g.tree.nodes| == |g.tree.notes|
    ensures FreedSmall.requires(g, offset) && Inv(FreedSmall(g, offset))
  {
    hide Inv, EventOk, Untrack, WithoutAt, RemoveSmall, Position, ViewOk, EntriesOk, Includes, Blocks, At;
    TopFacts(g);
    OwnedRange(g, offset);
    var v := ViewAt(g.tree, Cursor(g));
    var s := v.tables.smallRanges;
    var v' := View(DropSmall(v.tables, offset), Untrack(v.tracked, s[Position(s, offset)].allocation));
    var held' := WithoutAt(g.client[|g.client| - 1], true, offset);
    var bytes := g.tables.smallRanges[Position(g.tables.smallRanges, offset)].bytes;
    FreedSmallEvent(g, offset, v', DropSmall(g.tables, offset), held');
    RecordedInv(g, FreeSmall(offset), v', DropSmall(g.tables, offset), g.used - bytes, held');
  }

  // ---------------------------------------------------------------- the end of a scope

  /** Record the end of the top scope. */
  function Ended(g: Graph): Graph
    requires g.stack != [] && |g.client| == |g.stack| && Cursor(g) < |g.tree.nodes| == |g.tree.notes|
  {
    Recorded(g, End, ViewAt(g.tree, Cursor(g)), g.tables, g.used, g.client[|g.client| - 1])
  }

  lemma {:induction false} EndAppend(t: Tree, vaPhys: seq<nat>, smallSize: nat, c: NodeId)
    requires |t.notes| == |t.nodes| && c < |t.nodes| && t.notes[c].scope < |t.notes| && NextOk(t.nodes)
    requires ViewOk(t.nodes, BaseAt(t, c), ViewAt(t, c), t.notes[c].depth, vaPhys, smallSize)
    ensures AppendOk(t, vaPhys, smallSize, c, End, ViewAt(t, c))
  {
    hide ViewOk, NextOk;
    var note := Note(ViewAt(t, c), t.notes[c].depth, t.notes[c].scope);
    AppendExtends(t, c, End, note);
    ViewOkMono(t.nodes, Append(t, c, End, note).nodes, BaseAt(t, c), ViewAt(t, c), t.notes[c].depth, vaPhys, smallSize);
  }

  lemma {:induction false} EndedInv(g: Graph)
    requires Inv(g) && g.stack != [] && Top(g).recording
    ensures |g.client| == |g.stack| && Cursor(g) < |g.tree.nodes| == |g.tree.notes|
    ensures Inv(Ended(g))
  {
    TopFacts(g);
    var t, c := g.tree, Cursor(g);
    var note := Note(ViewAt(t, c), t.notes[c].depth, t.notes[c].scope);
    AppendExtends(t, c, End, note);
    EntriesOkMono(t.nodes, Append(t, c, End, note).nodes, g.tables);
    BlocksMono(t.nodes, Append(t, c, End, note).nodes, ViewAt(t, c).tracked);
    hide LevelsOk, TablesOk, EntriesOk, Includes, ViewOk, CoversRecording, PeakOk, SameEvents, Extends, AppendOk,
         NodeOk, NextOk;
    EndAppend(t, g.vaPhys, g.smallSize, c);
    RecordedInv(g, End, ViewAt(t, c), g.tables, g.used, g.client[|g.client| - 1]);
  }
}
