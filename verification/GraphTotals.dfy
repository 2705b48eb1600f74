/**
 What one recorded event adds to the bytes in use, read off the tree.
 */
module GraphTotals {
  import opened Basics
  import opened GraphTables
  import opened GraphTree
  import opened GraphRun

  /** How many bytes an event moves. */
  function EventBytes(v: View, e: Event): int {
    match e
    case Alloc(_, bytes) => PagesOf(bytes) * MG_PAGE
    case AllocSmall(_, bytes) => AlignSmall(bytes)
    case Free(va) => if va in v.tables.virtualPages then -(v.tables.virtualPages[va].span * MG_PAGE) else 0
    case FreeSmall(offset) =>
      var s := v.tables.smallRanges;
      var bytes: int := if Position(s, offset) < |s| then s[Position(s, offset)].bytes else 0;
      -bytes
    case _ => 0
  }

  /** Between two neighbouring views of a scope, the total moves by what the event says. */
  ghost predicate EventAdds(v: View, e: Event, v': View) {
    Total(v'.tables) == Total(v.tables) + EventBytes(v, e)
  }

  /** A recorded allocation took pages that were not live before it. */
  lemma {:induction false} AllocWasFree(nodes: seq<Node>, base: Tables, v: View, va: nat, vp: VirtualPage, depth: nat,
                                        vaPhys: seq<nat>, smallSize: nat)
    requires ViewOk(nodes, base, v, depth, vaPhys, smallSize)
    requires vp.allocation !in v.tracked
    requires ViewOk(nodes, base, View(AddLarge(v.tables, vaPhys, va, vp), [vp.allocation] + v.tracked), depth, vaPhys,
                    smallSize)
    ensures va !in v.tables.virtualPages
  {
    var t' := AddLarge(v.tables, vaPhys, va, vp);
    assert t'.virtualPages[va] == vp;
    assert va in v.tables.virtualPages ==> LargeEntry(nodes, va, v.tables.virtualPages[va]);
    assert va in v.tables.virtualPages && v.tables.virtualPages[va].allocation in v.tracked ==>
        LiveIn(nodes, t', v.tables.virtualPages[va].allocation);
  }

  lemma {:induction false} AddedDisjoint(t: Tables, va: nat, vp: VirtualPage, vaPhys: seq<nat>)
    requires LargeOk(t, vaPhys) && va !in t.virtualPages && LargeOk(AddLarge(t, vaPhys, va, vp), vaPhys)
    ensures PhysOf(vaPhys, va, vp.span) !! t.physicalLive
  {
    hide PhysOf, WindowsOk;
    var t' := AddLarge(t, vaPhys, va, vp);
    forall p | p in t.physicalLive
      ensures p !in PhysOf(vaPhys, va, vp.span)
    {
      var wa :| wa in t.virtualPages && p in PhysAt(t, vaPhys, wa);
      assert PhysAt(t', vaPhys, wa) == PhysAt(t, vaPhys, wa) && PhysAt(t', vaPhys, va) == PhysOf(vaPhys, va, vp.span);
      assert PhysAt(t', vaPhys, wa) !! PhysAt(t', vaPhys, va);
    }
  }

  lemma {:induction false} EventAddsAlloc(nodes: seq<Node>, base: Tables, v: View, va: nat, bytes: nat, n: NodeId,
                                          depth: nat, vaPhys: seq<nat>, smallSize: nat)
    requires ViewOk(nodes, base, v, depth, vaPhys, smallSize) && n !in v.tracked
    requires var v' := ApplyEvent(v, Alloc(va, bytes), n, depth, vaPhys); ViewOk(nodes, base, v'.value, depth, vaPhys,
                                                                                 smallSize)
    ensures EventAdds(v, Alloc(va, bytes), ApplyEvent(v, Alloc(va, bytes), n, depth, vaPhys).value)
    ensures va + PagesOf(bytes) <= |vaPhys|
  {
    hide EntriesOk, ScopeView, DepthOk;
    var vp := VirtualPage(PagesOf(bytes), depth, n);
    AllocWasFree(nodes, base, v, va, vp, depth, vaPhys, smallSize);
    AddedDisjoint(v.tables, va, vp, vaPhys);
    assert AddLarge(v.tables, vaPhys, va, vp).virtualPages[va] == vp;
    AddLargeOk(v.tables, vaPhys, smallSize, va, vp);
  }

  /** In a good tree, the views of a node and of its parent differ by the node's event. */
  lemma {:induction false} NodeAdds(t: Tree, vaPhys: seq<nat>, smallSize: nat, n: NodeId)
    requires TreeOk(t, vaPhys, smallSize) && n < |t.nodes| && t.nodes[n].snapshot.None?
    ensures |t.notes| == |t.nodes| && t.nodes[n].previous < n
    ensures t.notes[t.nodes[n].previous].depth == t.notes[n].depth
    ensures ApplyEvent(ViewAt(t, t.nodes[n].previous), t.nodes[n].event, n, t.notes[n].depth, vaPhys) ==
              Some(ViewAt(t, n))
    ensures EventAdds(ViewAt(t, t.nodes[n].previous), t.nodes[n].event, ViewAt(t, n))
    ensures t.nodes[n].event.Alloc? ==> t.nodes[n].event.value + PagesOf(t.nodes[n].event.bytes) <= |vaPhys|
    ensures WindowsOk(ViewAt(t, t.nodes[n].previous).tables, vaPhys)
  {
    hide NextOk, EntriesOk, ScopeView, DepthOk, TablesOk, CallOk;
    assert NodeOk(t, vaPhys, smallSize, n);
    var c := t.nodes[n].previous;
    assert NodeOk(t, vaPhys, smallSize, c);
    ViewFacts(t, vaPhys, smallSize, c);
    ViewFacts(t, vaPhys, smallSize, n);
    TrackedEarlier(t, vaPhys, smallSize, c);
    EventAddsAny(t.nodes, BaseAt(t, c), ViewAt(t, c), t.nodes[n].event, n, ViewAt(t, n), t.notes[n].depth, vaPhys,
                 smallSize);
  }

  /** Tracked allocations were recorded no later than the node itself. */
  lemma {:induction false} TrackedEarlier(t: Tree, vaPhys: seq<nat>, smallSize: nat, n: NodeId)
    requires TreeOk(t, vaPhys, smallSize) && n < |t.nodes|
    ensures |t.notes| == |t.nodes| && forall id | id in ViewAt(t, n).tracked :: id <= n
    decreases n
  {
    assert NodeOk(t, vaPhys, smallSize, n);
    if t.nodes[n].snapshot.None? {
      var c := t.nodes[n].previous;
      TrackedEarlier(t, vaPhys, smallSize, c);
      TrackedStep(t.nodes, ViewAt(t, c), t.nodes[n].event, n, t.notes[n].depth, vaPhys, ViewAt(t, n));
    }
  }

  lemma {:induction false} UntrackSubset(s: seq<NodeId>, id: NodeId)
    requires id in s
    ensures forall q | q in Untrack(s, id) :: q in s
    decreases |s|
  {
    if s[0] != id { UntrackSubset(s[1..], id); }
  }

  lemma {:induction false} TrackedStep(nodes: seq<Node>, v: View, e: Event, n: NodeId, depth: nat, vaPhys: seq<nat>,
                                       v': View)
    requires ApplyEvent(v, e, n, depth, vaPhys) == Some(v')
    ensures forall q | q in v'.tracked :: q == n || q in v.tracked
  {
    if e.Free? {
      UntrackSubset(v.tracked, v.tables.virtualPages[e.value].allocation);
    } else if e.FreeSmall? {
      UntrackSubset(v.tracked, v.tables.smallRanges[Position(v.tables.smallRanges, e.value)].allocation);
    }
  }

  lemma {:induction false} EventAddsAny(nodes: seq<Node>, base: Tables, v: View, e: Event, n: NodeId, v': View,
                                        depth: nat, vaPhys: seq<nat>, smallSize: nat)
    requires ViewOk(nodes, base, v, depth, vaPhys, smallSize) && ViewOk(nodes, base, v', depth, vaPhys, smallSize)
    requires n !in v.tracked && ApplyEvent(v, e, n, depth, vaPhys) == Some(v')
    ensures EventAdds(v, e, v')
    ensures e.Alloc? ==> e.value + PagesOf(e.bytes) <= |vaPhys|
    ensures WindowsOk(v.tables, vaPhys)
  {
    hide EntriesOk, ScopeView, DepthOk;
    match e
    case Alloc(va, bytes) => EventAddsAlloc(nodes, base, v, va, bytes, n, depth, vaPhys, smallSize);
    case AllocSmall(offset, bytes) =>
      var r := SmallRange(offset, AlignSmall(bytes), depth, n);
      SumBytesInsert(v.tables.smallRanges, Position(v.tables.smallRanges, offset), r);
    case Free(va) => RemoveLargeOk(v.tables, vaPhys, smallSize, va);
    case FreeSmall(offset) => RemoveSmallOk(v.tables.smallRanges, Position(v.tables.smallRanges, offset));
    case _ =>
  }
}
