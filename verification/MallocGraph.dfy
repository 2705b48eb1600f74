/**
 The allocator itself: `src/malloc-graph.c` with its fields updated in place, each
 method proved against the functions of `GraphOps`.
 */
module MallocGraphs {
  import opened Basics
  import opened GraphTables
  import opened GraphTree
  import opened GraphRun
  import opened GraphSteps
  import opened GraphAlloc
  import opened GraphFree
  import opened GraphReplay
  import opened GraphSearch
  import opened SmallHeap
  import opened GraphOps
  import opened GraphSafety
  import opened GraphRuns
  import opened GraphTotals

  // ---------------------------------------------------------------- lemmas for the loops

  lemma {:induction false} PhysOfNext(vaPhys: seq<nat>, va: nat, j: nat)
    requires va + j < |vaPhys|
    ensures PhysOf(vaPhys, va, j + 1) == PhysOf(vaPhys, va, j) + {vaPhys[va + j]}
  {
  }

  /** Clearing the flag of the first page of a window of distinct pages leaves the rest. */
  lemma {:induction false} PhysOfDrop(vaPhys: seq<nat>, live: set<nat>, va: nat, k: nat, j: nat)
    requires k < j && va + j <= |vaPhys| && DistinctWindow(vaPhys, va, j)
    requires PhysOf(vaPhys, va, j) !! live
    ensures live + PhysOf(vaPhys, va + k, j - k) - {vaPhys[va + k]} == live + PhysOf(vaPhys, va + k + 1, j - k - 1)
  {
    assert vaPhys[va + k] in PhysOf(vaPhys, va, j);
    var a, b := PhysOf(vaPhys, va + k, j - k), PhysOf(vaPhys, va + k + 1, j - k - 1);
    assert a == b + {vaPhys[va + k]};
    assert vaPhys[va + k] !in b;
  }

  /** Extending a window of distinct, available pages by one more. */
  lemma {:induction false} WindowNext(vaPhys: seq<nat>, live: set<nat>, rogues: Rogues, va: nat, j: nat)
    requires Usable(vaPhys, live, rogues, va, j) && va + j < |vaPhys|
    requires va + j !in rogues.vas && vaPhys[va + j] !in rogues.phys
    requires vaPhys[va + j] !in live + PhysOf(vaPhys, va, j)
    ensures Usable(vaPhys, live, rogues, va, j + 1)
  {
    forall i | va <= i < va + j
      ensures vaPhys[i] != vaPhys[va + j]
    {
      assert vaPhys[i] in PhysOf(vaPhys, va, j);
    }
  }

  /** Some page from `lo` up to `hi` lies on physical page `phys`. */
  ghost predicate AliasIn(vaPhys: seq<nat>, lo: nat, hi: nat, phys: nat) {
    exists i :: lo <= i < hi && i < |vaPhys| && vaPhys[i] == phys
  }

  /** No window that starts before the resume point is usable. */
  lemma {:induction false} ResumeSkipsNothing(vaPhys: seq<nat>, live: set<nat>, rogues: Rogues, va: nat, pages: nat,
                                              j: nat, advance: nat)
    requires va + pages <= |vaPhys| && j < pages && 0 < advance <= j + 1
    requires !Available(vaPhys, live, rogues, va + j) || AliasIn(vaPhys, va + advance - 1, va + j, vaPhys[va + j])
    ensures forall w: nat | va <= w < va + advance :: !Usable(vaPhys, live, rogues, w, pages)
  {
    forall w: nat | va <= w < va + advance
      ensures !Usable(vaPhys, live, rogues, w, pages)
    {
      if Available(vaPhys, live, rogues, va + j) {
        var i :| va + advance - 1 <= i < va + j && i < |vaPhys| && vaPhys[i] == vaPhys[va + j];
        assert w <= i;
      }
      BlockedWindow(vaPhys, live, rogues, w, pages, va + j);
    }
  }

  lemma {:induction false} CountNext(live: set<nat>, n: nat)
    ensures |set p | p in live && p < n + 1| == |set p | p in live && p < n| + (if n in live then 1 else 0)
  {
    var below, upto := set p | p in live && p < n, set p | p in live && p < n + 1;
    assert upto == if n in live then below + {n} else below;
  }

  lemma {:induction false} SumNext(s: seq<SmallRange>, i: nat)
    requires i < |s|
    ensures SumBytes(s[..i + 1]) == SumBytes(s[..i]) + s[i].bytes
  {
    SumBytesSplit(s[..i + 1], i);
    assert s[..i + 1][..i] == s[..i] && s[..i + 1][i..] == [s[i]];
    assert SumBytes([s[i]]) == s[i].bytes + SumBytes([s[i]][1..]);
  }

  /** Cutting out the first occurrence. */
  lemma {:induction false} UntrackAt(s: seq<NodeId>, id: NodeId, i: nat)
    requires i < |s| && s[i] == id && forall j | 0 <= j < i :: s[j] != id
    ensures Untrack(s, id) == s[..i] + s[i + 1..]
    decreases i
  {
    if i > 0 {
      UntrackAt(s[1..], id, i - 1);
      assert s[..i] == [s[0]] + s[1..][..i - 1];
    }
  }

  class MallocGraph {
    var nodes: seq<Node>
    var stack: seq<State>
    var virtualPages: map<nat, VirtualPage>
    var physicalLive: set<nat>
    var smallRanges: seq<SmallRange>
    var vaPhys: seq<nat>
    var physCount: nat
    var smallSize: nat
    var smallPages: nat
    var used: nat
    var peakUsed: nat
    const assertBreaks: bool
    var failed: bool

    ghost var notes: seq<Note>
    ghost var client: seq<set<Block>>

    ghost function Now(): Tables
      reads this
    {
      Tables(virtualPages, physicalLive, smallRanges)
    }

    ghost function Model(): Graph
      reads this
    {
      Graph(Tree(nodes, notes), stack, Now(), vaPhys, physCount, smallSize, used, peakUsed, assertBreaks, failed,
            client)
    }

    ghost predicate Valid()
      reads this
    {
      failed || (Inv(Model()) && smallPages == PagesOf(smallSize))
    }

    constructor (assertBreaks: bool)
      ensures Model() == Initial(assertBreaks)
      ensures Valid()
    {
      nodes := [Node(Sentinel, 0, [], Some(EMPTY_TABLES))];
      stack := [State(0, [], 1, true, false)];
      virtualPages, physicalLive, smallRanges := map[], {}, [];
      vaPhys, physCount := [], 0;
      smallSize, smallPages := 0, 0;
      used, peakUsed := 0, 0;
      this.assertBreaks, failed := assertBreaks, false;
      notes := [Note(View(EMPTY_TABLES, []), 1, 0)];
      client := [{}];
      new;
      InitialInv(assertBreaks);
    }

    // -------------------------------------------------------------- the large heap

    /** Find the lowest usable window and leave its flags set; without one, leave every flag as it was. */
    method SearchWindow(pages: nat, rogues: Rogues) returns (va: nat)
      requires pages > 0
      modifies this`physicalLive
      ensures if va + pages <= |vaPhys| then
                && LowestUsable(vaPhys, old(physicalLive), rogues, va, pages)
                && physicalLive == old(physicalLive) + PhysOf(vaPhys, va, pages)
              else
                && NoneUsable(vaPhys, old(physicalLive), rogues, pages)
                && physicalLive == old(physicalLive)
    {
      va := 0;
      ghost var live := physicalLive;
      while va + pages <= |vaPhys|
        invariant physicalLive == live
        invariant forall w: nat | w < va :: !Usable(vaPhys, live, rogues, w, pages)
        decreases |vaPhys| - va
      {
        var j := TakeWhileFree(va, pages, rogues);
        if j == pages {
          return;
        }
        var advance := Release(va, j, rogues, live);
        ResumeSkipsNothing(vaPhys, live, rogues, va, pages, j, advance);
        va := va + advance;
      }
    }

    /** Set flags from `va` on until a page is unavailable or already taken by this window. */
    method TakeWhileFree(va: nat, pages: nat, rogues: Rogues) returns (j: nat)
      requires va + pages <= |vaPhys|
      modifies this`physicalLive
      ensures j <= pages && Usable(vaPhys, old(physicalLive), rogues, va, j)
      ensures physicalLive == old(physicalLive) + PhysOf(vaPhys, va, j)
      ensures j < pages ==>
                !Available(vaPhys, old(physicalLive), rogues, va + j) || vaPhys[va + j] in PhysOf(vaPhys, va, j)
    {
      j := 0;
      ghost var live := physicalLive;
      while j < pages
        invariant j <= pages
        invariant Usable(vaPhys, live, rogues, va, j)
        invariant physicalLive == live + PhysOf(vaPhys, va, j)
      {
        var phys := vaPhys[va + j];
        if va + j in rogues.vas || phys in physicalLive || phys in rogues.phys {
          return;
        }
        WindowNext(vaPhys, live, rogues, va, j);
        PhysOfNext(vaPhys, va, j);
        physicalLive := physicalLive + {phys};
        j := j + 1;
      }
    }

    /** Clear the flags of a rejected window and say where to resume. */
    method Release(va: nat, j: nat, rogues: Rogues, ghost live: set<nat>) returns (advance: nat)
      requires va + j < |vaPhys|
      requires physicalLive == live + PhysOf(vaPhys, va, j) && Usable(vaPhys, live, rogues, va, j)
      modifies this`physicalLive
      ensures physicalLive == live
      ensures 0 < advance <= j + 1
      ensures if vaPhys[va + j] in PhysOf(vaPhys, va, j) then AliasIn(vaPhys, va + advance - 1, va + j, vaPhys[va + j])
              else advance == j + 1
    {
      UsableIsFree(vaPhys, live, rogues, va, j);
      var phys := vaPhys[va + j];
      advance := j + 1;
      var k := 0;
      while k < j
        invariant k <= j
        invariant physicalLive == live + PhysOf(vaPhys, va + k, j - k)
        invariant 0 < advance <= j + 1
        invariant if phys in PhysOf(vaPhys, va, k) then advance <= k && vaPhys[va + advance - 1] == phys
                  else advance == j + 1
      {
        PhysOfNext(vaPhys, va, k);
        if vaPhys[va + k] == phys {
          // Windows that start at or before the alias would meet it again.
          advance := k + 1;
        }
        PhysOfDrop(vaPhys, live, va, k, j);
        physicalLive := physicalLive - {vaPhys[va + k]};
        k := k + 1;
      }
    }

    /** Bytes live according to the flags and the range list. */
    method AllocationUsed() returns (total: nat)
      requires forall p | p in physicalLive :: p < physCount
      ensures total == Total(Now())
    {
      total := 0;
      var i := 0;
      while i < physCount
        invariant i <= physCount
        invariant total == |set p | p in physicalLive && p < i| * MG_PAGE
      {
        CountNext(physicalLive, i);
        if i in physicalLive {
          total := total + MG_PAGE;
        }
        i := i + 1;
      }
      assert (set p | p in physicalLive && p < physCount) == physicalLive;
      i := 0;
      while i < |smallRanges|
        invariant i <= |smallRanges|
        invariant total == |physicalLive| * MG_PAGE + SumBytes(smallRanges[..i])
      {
        SumNext(smallRanges, i);
        total := total + smallRanges[i].bytes;
        i := i + 1;
      }
      assert smallRanges[..|smallRanges|] == smallRanges;
    }

    // -------------------------------------------------------------- the event tree

    /** First child of the cursor that answers `want`. */
    method Find(want: Event, rogues: Rogues) returns (r: Option<NodeId>)
      requires stack != [] && stack[|stack| - 1].cursor < |nodes|
      ensures r == FirstMatch(nodes, nodes[stack[|stack| - 1].cursor].next, want, vaPhys, rogues)
    {
      var kids := nodes[stack[|stack| - 1].cursor].next;
      var i := 0;
      assert kids[0..] == kids;
      while i < |kids|
        invariant i <= |kids|
        invariant FirstMatch(nodes, kids[i..], want, vaPhys, rogues) == FirstMatch(nodes, kids, want, vaPhys, rogues)
      {
        if kids[i] < |nodes| && Matches(nodes[kids[i]].event, want, vaPhys, rogues) {
          return Some(kids[i]);
        }
        assert kids[i..][1..] == kids[i + 1..];
        i := i + 1;
      }
      r := None;
    }

    /** Drop `id` from the top scope's tracked list. */
    method UntrackAllocation(id: NodeId) returns (found: bool)
      requires stack != []
      modifies this`stack
      ensures found == (id in old(stack[|stack| - 1].tracked))
      ensures stack == if found then
                         old(SetTop(stack, stack[|stack| - 1].(tracked := Untrack(stack[|stack| - 1].tracked, id))))
                       else old(stack)
    {
      var top := stack[|stack| - 1];
      var i := 0;
      while i < |top.tracked| && top.tracked[i] != id
        invariant i <= |top.tracked|
        invariant forall j | 0 <= j < i :: top.tracked[j] != id
      {
        i := i + 1;
      }
      if i == |top.tracked| {
        return false;
      }
      UntrackAt(top.tracked, id, i);
      stack := stack[|stack| - 1 := top.(tracked := top.tracked[..i] + top.tracked[i + 1..])];
      found := true;
    }

    method AddUsed(bytes: nat)
      modifies this`used, this`peakUsed
      ensures used == old(used) + bytes && peakUsed == Max(old(peakUsed), used)
    {
      used := used + bytes;
      if peakUsed < used {
        peakUsed := used;
      }
    }

    /** Set or clear the live flags behind a virtual range, page by page. */
    method SetFlags(va: nat, span: nat, live: bool)
      requires va + span <= |vaPhys|
      modifies this`physicalLive
      ensures physicalLive == if live then old(physicalLive) + PhysOf(vaPhys, va, span)
                                else old(physicalLive) - PhysOf(vaPhys, va, span)
    {
      var i := 0;
      while i < span
        invariant i <= span
        invariant physicalLive == if live then old(physicalLive) + PhysOf(vaPhys, va, i)
                                  else old(physicalLive) - PhysOf(vaPhys, va, i)
      {
        PhysOfNext(vaPhys, va, i);
        physicalLive := if live then physicalLive + {vaPhys[va + i]} else physicalLive - {vaPhys[va + i]};
        i := i + 1;
      }
    }

    // -------------------------------------------------------------- rebuilding the state

    /** What applying event `e` of node `n` leaves behind; `ok` is false when the program gives up. */
    twostate predicate Applied(v: View, e: Event, n: NodeId, ok: bool)
      requires old(stack) != []
      reads this
    {
      var r := ApplyEvent(v, e, n, old(stack[|stack| - 1].depth), old(vaPhys));
      if r.Some? then
        && ok && failed == old(failed)
        && Now() == r.value.tables
        && stack == SetTop(old(stack), old(stack[|stack| - 1]).(tracked := r.value.tracked))
        && used == old(used) + EventBytes(v, e)
        && peakUsed == Max(old(peakUsed), used)
      else !ok && failed
    }

    /** Apply event `n` to the working state, as recording did. */
    method DryApply(n: NodeId, ghost v: View) returns (ok: bool)
      requires stack != [] && n < |nodes|
      requires v == View(Now(), stack[|stack| - 1].tracked)
      requires WindowsOk(Now(), vaPhys)
      requires nodes[n].event.Alloc? ==> nodes[n].event.value + PagesOf(nodes[n].event.bytes) <= |vaPhys|
      requires EventBytes(v, nodes[n].event) + used >= 0 && used <= peakUsed
      modifies this`stack, this`virtualPages, this`physicalLive, this`smallRanges, this`used, this`peakUsed, this`failed
      ensures Applied(v, nodes[n].event, n, ok)
    {
      ok := true;
      match nodes[n].event
      case Alloc(va, bytes) => ApplyAlloc(n, va, bytes, v);
      case Free(va) => ok := ApplyFree(n, va, v);
      case AllocSmall(offset, bytes) => ApplyAllocSmall(n, offset, bytes, v);
      case FreeSmall(offset) => ok := ApplyFreeSmall(n, offset, v);
      case _ =>
    }

    method ApplyAlloc(n: NodeId, va: nat, bytes: nat, ghost v: View)
      requires stack != [] && v == View(Now(), stack[|stack| - 1].tracked)
      requires va + PagesOf(bytes) <= |vaPhys|
      modifies this`stack, this`virtualPages, this`physicalLive, this`used, this`peakUsed
      ensures Applied(v, Alloc(va, bytes), n, true)
    {
      var top, span := stack[|stack| - 1], PagesOf(bytes);
      virtualPages := virtualPages[va := VirtualPage(span, top.depth, n)];
      stack := stack[|stack| - 1 := top.(tracked := [n] + top.tracked)];
      AddUsed(span * MG_PAGE);
      SetFlags(va, span, true);
    }

    method ApplyFree(n: NodeId, va: nat, ghost v: View) returns (ok: bool)
      requires stack != [] && v == View(Now(), stack[|stack| - 1].tracked)
      requires WindowsOk(Now(), vaPhys)
      requires EventBytes(v, Free(va)) + used >= 0 && used <= peakUsed
      modifies this`stack, this`virtualPages, this`physicalLive, this`used, this`failed
      ensures Applied(v, Free(va), n, ok)
    {
      if va !in virtualPages {
        failed, ok := true, false;
        return;
      }
      var first := virtualPages[va];
      SetFlags(va, first.span, false);
      ok := UntrackAllocation(first.allocation);
      if !ok {
        failed := true;
        return;
      }
      used := used - first.span * MG_PAGE;
      virtualPages := virtualPages - {va};
    }

    method ApplyAllocSmall(n: NodeId, offset: nat, bytes: nat, ghost v: View)
      requires stack != [] && v == View(Now(), stack[|stack| - 1].tracked)
      modifies this`stack, this`smallRanges, this`used, this`peakUsed
      ensures Applied(v, AllocSmall(offset, bytes), n, true)
    {
      var top := stack[|stack| - 1];
      var k := FirstAt(offset);
      smallRanges := smallRanges[..k] + [SmallRange(offset, AlignSmall(bytes), top.depth, n)] + smallRanges[k..];
      stack := stack[|stack| - 1 := top.(tracked := [n] + top.tracked)];
      AddUsed(AlignSmall(bytes));
    }

    method ApplyFreeSmall(n: NodeId, offset: nat, ghost v: View) returns (ok: bool)
      requires stack != [] && v == View(Now(), stack[|stack| - 1].tracked)
      requires EventBytes(v, FreeSmall(offset)) + used >= 0 && used <= peakUsed
      modifies this`stack, this`smallRanges, this`used, this`failed
      ensures Applied(v, FreeSmall(offset), n, ok)
    {
      var k := FirstAt(offset);
      if k == |smallRanges| {
        failed, ok := true, false;
        return;
      }
      var range := smallRanges[k];
      ok := UntrackAllocation(range.allocation);
      if !ok {
        failed := true;
        return;
      }
      smallRanges := smallRanges[..k] + smallRanges[k + 1..];
      used := used - range.bytes;
    }

    /** First range at or after `offset`. */
    method FirstAt(offset: nat) returns (k: nat)
      ensures k == Position(smallRanges, offset)
    {
      k := 0;
      assert smallRanges[0..] == smallRanges;
      while k < |smallRanges| && smallRanges[k].offset < offset
        invariant k <= |smallRanges|
        invariant k + Position(smallRanges[k..], offset) == Position(smallRanges, offset)
      {
        assert smallRanges[k..][1..] == smallRanges[k + 1..];
        k := k + 1;
      }
    }

    /**
     Rebuild the state of node `n` from the nearest snapshot and the path to it.
     The result is the view recording had there, and the peak does not move.
     */
    method Materialize(n: NodeId) returns (ok: bool)
      requires Inv(Model()) && stack != [] && n < |nodes| == |notes|
      requires notes[n].depth == stack[|stack| - 1].depth
      modifies this`stack, this`virtualPages, this`physicalLive, this`smallRanges, this`used, this`peakUsed, this`failed
      ensures ok && failed == old(failed)
      ensures Now() == notes[n].view.tables
      ensures stack == SetTop(old(stack), old(stack[|stack| - 1]).(tracked := notes[n].view.tracked))
      ensures used == Total(notes[n].view.tables) && peakUsed == old(peakUsed)
      decreases n
    {
      ghost var g := Model();
      hide Inv;
      TreeFacts(g, n);
      match nodes[n].snapshot
      case Some(t) =>
        virtualPages, physicalLive, smallRanges := t.virtualPages, t.physicalLive, t.smallRanges;
        stack := stack[|stack| - 1 := stack[|stack| - 1].(tracked := [])];
        used := AllocationUsed();
        peakUsed := Max(peakUsed, used);
        ok := true;
      case None =>
        ok := Materialize(nodes[n].previous);
        if ok {
          ok := DryApply(n, notes[nodes[n].previous].view);
        }
    }

    method StartRecording() returns (ok: bool)
      requires Inv(Model()) && stack != [] && !failed
      modifies this`stack, this`virtualPages, this`physicalLive, this`smallRanges, this`used, this`peakUsed, this`failed
      ensures assertBreaks ==> !ok && failed
      ensures !assertBreaks ==> ok && Cursor(old(Model())) < |notes| && Model() == Started(old(Model()))
    {
      hide Inv, ViewOk, EntriesOk, Includes, Blocks;
      ghost var g := Model();
      TopFacts(g);
      if assertBreaks {
        failed, ok := true, false;
        return;
      }
      ok := Materialize(stack[|stack| - 1].cursor);
      if ok {
        stack := stack[|stack| - 1 := stack[|stack| - 1].(recording := true, broken := true)];
      }
    }

    /** Append event `e` below the cursor and move the cursor to it; `v` is the view after it. */
    method AppendEvent(e: Event, ghost v: View) returns (id: NodeId)
      requires stack != [] && stack[|stack| - 1].cursor < |nodes| == |notes|
      modifies this`nodes, this`notes, this`stack
      ensures id == old(|nodes|)
      ensures var c := old(stack[|stack| - 1].cursor);
              Tree(nodes, notes) == Append(Tree(old(nodes), old(notes)), c, e,
                                           Note(v, old(notes)[c].depth, old(notes)[c].scope))
      ensures stack == SetTop(old(stack), old(stack[|stack| - 1]).(cursor := id))
    {
      var c := stack[|stack| - 1].cursor;
      id := |nodes|;
      nodes := nodes[c := nodes[c].(next := nodes[c].next + [id])] + [Node(e, c, [], None)];
      notes := notes + [Note(v, notes[c].depth, notes[c].scope)];
      stack := stack[|stack| - 1 := stack[|stack| - 1].(cursor := id)];
    }

    method TrackAllocation(id: NodeId)
      requires stack != []
      modifies this`stack
      ensures stack == SetTop(old(stack), old(stack[|stack| - 1]).(tracked := [id] + old(stack[|stack| - 1].tracked)))
    {
      stack := stack[|stack| - 1 := stack[|stack| - 1].(tracked := [id] + stack[|stack| - 1].tracked)];
    }

    // -------------------------------------------------------------- recording an allocation

    /** Make room for a small allocation that ends at `end`. */
    method GrowSmall(end: nat, grants: nat) returns (ok: bool)
      requires smallPages == PagesOf(smallSize) && PagesOf(end) <= smallPages + 1 &&
               PagesOf(smallSize) <= MG_SMALL_PAGES
      modifies this`smallSize, this`smallPages, this`failed
      ensures ok ==>
                failed == old(failed) && smallSize == Max(old(smallSize), end) &&
                smallPages == PagesOf(smallSize) <= MG_SMALL_PAGES
      ensures var pages := PagesOf(if end > old(smallSize) then end else old(smallSize));
              ok <==> pages <= MG_SMALL_PAGES && pages <= PagesOf(old(smallSize)) + grants
      ensures !ok ==> failed
    {
      if end > smallSize {
        var pages := PagesOf(end);
        if pages > MG_SMALL_PAGES {
          failed, ok := true, false;
          return;
        }
        if smallPages < pages {
          if grants == 0 {
            failed, ok := true, false;
            return;
          }
          smallPages := smallPages + 1;
        }
        assert pages >= PagesOf(smallSize);
        smallSize := end;
      }
      ok := true;
    }

    /** Choose an offset for `bytes` and make room there. */
    method PlaceSmall(bytes: nat, rogues: Rogues, grants: nat) returns (ok: bool, offset: nat)
      requires Inv(Model()) && stack != [] && smallPages == PagesOf(smallSize)
      requires 0 < bytes <= MG_SMALL_LIMIT && RoguesOk(Model(), rogues)
      modifies this`smallSize, this`smallPages, this`failed
      ensures !ok ==> failed
      ensures ok ==>
                failed == old(failed) && smallPages == PagesOf(smallSize) &&
                smallSize == Max(old(smallSize), offset + bytes)
      ensures ok ==> SmallPlan(old(Model()), rogues, bytes, offset)
      ensures Placed(old(smallSize), smallRanges, rogues.small, bytes, offset)
      ensures ok <==> !NoRoom(old(smallSize), offset + bytes, grants)
    {
      hide Inv;
      SmallFacts(Model());
      offset := SmallOffset(smallSize, smallRanges, rogues.small, bytes);
      OnePageEnough(smallSize, offset, bytes);
      ok := GrowSmall(offset + bytes, grants);
    }

    /** The event of an allocation whose tables and bytes are accounted for already. */
    method RecordAllocation(e: Event, block: Block, ghost v: View)
      requires Wellformed(Model()) && used <= peakUsed
      requires v.tracked == [|nodes|] + stack[|stack| - 1].tracked
      modifies this`nodes, this`notes, this`stack, this`client
      ensures var g := old(Model());
              Model() == Recorded(g, e, v, g.tables, g.used, g.client[|g.client| - 1] + {block})
    {
      var id := AppendEvent(e, v);
      TrackAllocation(id);
      client := client[|client| - 1 := client[|client| - 1] + {block}];
    }

    /** Record a small allocation at `offset`. */
    method CommitSmall(offset: nat, size: nat)
      requires Wellformed(Model()) && stack[|stack| - 1].tracked == notes[stack[|stack| - 1].cursor].view.tracked
      modifies this`nodes, this`notes, this`stack, this`smallRanges, this`used, this`peakUsed, this`client
      ensures Model() == AllocatedSmall(old(Model()), offset, size)
    {
      hide Recorded;
      ghost var g := Model();
      ghost var r, v := SmallEntryFor(g, offset, size), ViewAt(g.tree, Cursor(g));
      ghost var v' := View(AddSmall(v.tables, r), [|nodes|] + v.tracked);
      ghost var held := g.client[|g.client| - 1] + {Small(offset, size)};
      RecordedUpdate(g, AllocSmall(offset, size), v', AddSmall(g.tables, r), g.used + AlignSmall(size), held);
      InsertRange(SmallRange(offset, AlignSmall(size), stack[|stack| - 1].depth, |nodes|));
      AddUsed(AlignSmall(size));
      RecordAllocation(AllocSmall(offset, size), Small(offset, size), v');
    }

    /** A new range, in its place in the list. */
    method InsertRange(r: SmallRange)
      modifies this`smallRanges
      ensures smallRanges == InsertSmall(old(smallRanges), r)
    {
      var k := FirstAt(r.offset);
      smallRanges := smallRanges[..k] + [r] + smallRanges[k..];
    }

    method RecordSmall(size: nat, rogues: Rogues, grants: nat) returns (r: Reply)
      requires Inv(Model()) && stack != [] && stack[|stack| - 1].recording && smallPages == PagesOf(smallSize)
      requires 0 < size < MG_SMALL_LIMIT && RoguesOk(Model(), rogues)
      modifies this
      ensures Wellformed(old(Model())) &&
              if Refused(old(Model()), size, rogues, grants) then r == Failed && failed
              else failed == old(failed) && smallPages == PagesOf(smallSize) &&
                   RecordsAlloc(old(Model()), size, rogues, Model(), r)
    {
      hide Inv, RoguesOk, SmallPlan, AllocatedSmall, AlignSmall, PagesOf, Placed, NoRoom, Refused;
      SmallFacts(Model());
      PositivePages(size);
      var ok, offset := PlaceSmall(AlignSmall(size), rogues, grants);
      SmallRefused(old(Model()), size, rogues, grants, offset);
      if !ok {
        return Failed;
      }
      AllocatedSame(Model(), offset, size);
      CommitSmall(offset, size);
      r := Gave(Small(offset, size));
    }

    /** Map one more virtual page onto the lowest free physical page, if the driver provides it. */
    method MapPage(rogues: Rogues, granted: bool) returns (ok: bool)
      modifies this`vaPhys, this`physCount, this`failed
      ensures ok == granted && (!ok ==> failed)
      ensures ok ==>
                failed == old(failed) && var p := FirstFree(physicalLive + rogues.phys, 0, old(physCount));
                     vaPhys == old(vaPhys) + [p] && physCount == Max(old(physCount), p + 1)
    {
      var p := FirstFreePage(rogues);
      ok := granted;
      if !ok {
        failed := true;
        return;
      }
      vaPhys := vaPhys + [p];
      if p == physCount {
        physCount := physCount + 1;
      }
    }

    /** Map window [va, va + pages) where it is not mapped yet, and set its live flags. */
    method MapWindow(va: nat, pages: nat, rogues: Rogues, grants: nat) returns (ok: bool)
      requires va + pages <= |vaPhys| || va == |vaPhys|
      modifies this`vaPhys, this`physCount, this`physicalLive, this`failed
      ensures ok <==> va + pages <= old(|vaPhys|) || pages <= grants
      ensures !ok ==> failed
      ensures ok ==> failed == old(failed) && va + pages <= |vaPhys|
      ensures ok ==> PageMap(vaPhys, physCount) ==
                       if va + pages <= old(|vaPhys|) then PageMap(old(vaPhys), old(physCount))
                       else MapNew(PageMap(old(vaPhys), old(physCount)), old(physicalLive) + rogues.phys, pages)
      ensures ok ==> physicalLive == old(physicalLive) + PhysOf(vaPhys, va, pages)
    {
      ghost var m := PageMap(vaPhys, physCount);
      ghost var live := physicalLive;
      ghost var mapped := va + pages <= |vaPhys|;
      var j := 0;
      while j < pages
        invariant j <= pages
        invariant mapped ==> PageMap(vaPhys, physCount) == m
        invariant !mapped ==> va + j == |vaPhys| && j <= grants
        invariant !mapped ==>
                    MapNew(PageMap(vaPhys, physCount), physicalLive + rogues.phys, pages - j) ==
                    MapNew(m, live + rogues.phys, pages)
        invariant physicalLive == live + PhysOf(vaPhys, va, j)
        invariant failed == old(failed)
      {
        if va + j == |vaPhys| {
          ghost var before := vaPhys;
          ok := MapPage(rogues, j < grants);
          if !ok {
            return;
          }
          PhysOfGrow(before, vaPhys, va, j);
          assert physicalLive + {vaPhys[va + j]} + rogues.phys == physicalLive + rogues.phys + {vaPhys[va + j]};
        }
        PhysOfNext(vaPhys, va, j);
        physicalLive := physicalLive + {vaPhys[va + j]};
        j := j + 1;
      }
      ok := true;
    }

    method FirstFreePage(rogues: Rogues) returns (p: nat)
      ensures p == FirstFree(physicalLive + rogues.phys, 0, physCount)
    {
      p := 0;
      while p < physCount && (p in physicalLive || p in rogues.phys)
        invariant p <= physCount
        invariant FirstFree(physicalLive + rogues.phys, p, physCount) ==
                    FirstFree(physicalLive + rogues.phys, 0, physCount)
      {
        p := p + 1;
      }
    }

    /** Record a large allocation whose window is mapped and flagged; `live` are the flags without it. */
    method CommitLarge(va: nat, size: nat, ghost live: set<nat>)
      requires Wellformed(Model()) && stack[|stack| - 1].tracked == notes[stack[|stack| - 1].cursor].view.tracked
      requires physicalLive == live + PhysOf(vaPhys, va, PagesOf(size))
      modifies this`nodes, this`notes, this`stack, this`virtualPages, this`used, this`peakUsed, this`client
      ensures Model() == AllocatedLarge(old(Model()).(tables := old(Now()).(physicalLive := live)), va, size)
    {
      hide Recorded;
      ghost var g := Model().(tables := Now().(physicalLive := live));
      ghost var vp, v := LargeEntryFor(g, size), ViewAt(g.tree, Cursor(g));
      ghost var v' := View(AddLarge(v.tables, vaPhys, va, vp), [|nodes|] + v.tracked);
      ghost var held := g.client[|g.client| - 1] + {Large(va, size)};
      RecordedUpdate(g, Alloc(va, size), v', AddLarge(g.tables, vaPhys, va, vp), g.used + PagesOf(size) * MG_PAGE,
                     held);
      virtualPages := virtualPages[va := VirtualPage(PagesOf(size), stack[|stack| - 1].depth, |nodes|)];
      AddUsed(PagesOf(size) * MG_PAGE);
      RecordAllocation(Alloc(va, size), Large(va, size), v');
    }

    /** The lowest usable window, or a new one at the end of the map; its live flags are set. */
    method PlaceLarge(pages: nat, rogues: Rogues, grants: nat) returns (ok: bool, va: nat)
      requires pages > 0
      modifies this`vaPhys, this`physCount, this`physicalLive, this`failed
      ensures ok <==> !NoneUsable(old(vaPhys), old(physicalLive), rogues, pages) ||
                      (old(|vaPhys|) + pages <= MG_PAGES && pages <= grants)
      ensures !ok ==> failed
      ensures ok ==> failed == old(failed)
      ensures ok ==> LargePlan(PageMap(old(vaPhys), old(physCount)), old(physicalLive), rogues, pages, va,
                               PageMap(vaPhys, physCount))
      ensures ok ==> physicalLive == old(physicalLive) + PhysOf(vaPhys, va, pages)
    {
      hide Usable, PhysOf;
      va := SearchWindow(pages, rogues);
      if va + pages > |vaPhys| {
        va := |vaPhys|;
        if va + pages > MG_PAGES {
          failed, ok := true, false;
          return;
        }
      }
      ok := MapWindow(va, pages, rogues, grants);
    }

    method RecordLarge(size: nat, rogues: Rogues, grants: nat) returns (r: Reply)
      requires Inv(Model()) && stack != [] && stack[|stack| - 1].recording && smallPages == PagesOf(smallSize)
      requires MG_SMALL_LIMIT <= size && RoguesOk(Model(), rogues)
      modifies this
      ensures Wellformed(old(Model())) &&
              if Refused(old(Model()), size, rogues, grants) then r == Failed && failed
              else failed == old(failed) && smallPages == PagesOf(smallSize) &&
                   RecordsAlloc(old(Model()), size, rogues, Model(), r)
    {
      hide Inv, RoguesOk, LargePlan, AllocatedLarge, PagesOf, PhysOf, NoneUsable;
      SmallFacts(Model());
      PositivePages(size);
      ghost var g, live := Model(), physicalLive;
      var ok, va := PlaceLarge(PagesOf(size), rogues, grants);
      if !ok {
        return Failed;
      }
      assert Model().(tables := Now().(physicalLive := live)) == Grown(g, vaPhys, physCount, g.smallSize);
      AllocatedSame(Grown(g, vaPhys, physCount, g.smallSize), va, size);
      CommitLarge(va, size, live);
      r := Gave(Large(va, size));
    }

    // -------------------------------------------------------------- recording a free

    /** The range that starts exactly at `offset`. */
    method FindSmall(offset: nat) returns (k: nat)
      requires SmallSorted(smallRanges)
      ensures k <= |smallRanges|
      ensures if k < |smallRanges| then SmallAt(smallRanges, offset) && k == Position(smallRanges, offset)
              else !SmallAt(smallRanges, offset)
    {
      k := 0;
      while k < |smallRanges| && smallRanges[k].offset != offset
        invariant k <= |smallRanges|
        invariant forall i | 0 <= i < k :: smallRanges[i].offset != offset
      {
        k := k + 1;
      }
      if k < |smallRanges| {
        SmallByOffset(smallRanges, smallRanges[k]);
        ghost var j := Position(smallRanges, offset);
        assert smallRanges[j].offset == offset;
      }
    }

    /** Record the free of small range `k`, if the scope tracks its allocation. */
    method CommitFreeSmall(k: nat, value: nat) returns (found: bool)
      requires Wellformed(Model()) && used <= peakUsed
      requires SmallAt(smallRanges, value) && k == Position(smallRanges, value) < |smallRanges|
      requires smallRanges[k].allocation in stack[|stack| - 1].tracked ==> CanFreeSmall(Model(), value)
      modifies this`nodes, this`notes, this`stack, this`smallRanges, this`used, this`client
      ensures found == (old(smallRanges[k].allocation) in old(stack[|stack| - 1].tracked))
      ensures found ==> Model() == FreedSmall(old(Model()), value)
    {
      ghost var g := Model();
      var range := smallRanges[k];
      ghost var v := notes[stack[|stack| - 1].cursor].view;
      if range.allocation in stack[|stack| - 1].tracked {
        v := View(DropSmall(v.tables, value), Untrack(v.tracked, range.allocation));
      }
      var id := AppendEvent(FreeSmall(value), v);
      found := UntrackAllocation(range.allocation);
      if !found { return; }
      smallRanges := smallRanges[..k] + smallRanges[k + 1..];
      used := used - range.bytes;
      client := client[|client| - 1 := WithoutAt(client[|client| - 1], true, value)];
    }

    method RecordFreeSmall(value: nat) returns (r: Reply)
      requires Inv(Model()) && stack != [] && stack[|stack| - 1].recording && !failed
      modifies this
      ensures smallPages == old(smallPages) && smallSize == old(smallSize)
      ensures failed == (r == Failed)
      ensures Wellformed(old(Model())) && RecordsFree(old(Model()), true, value, Model(), r)
    {
      hide Inv, FreedSmall, Position, SmallSorted, SmallWithin, CanFreeSmall;
      ghost var g := Model();
      SmallFacts(g);
      FreeableSmall(g, value);
      var k := FindSmall(value);
      if k == |smallRanges| || smallRanges[k].ownerDepth != stack[|stack| - 1].depth {
        failed, r := true, Failed;
        return;
      }
      var found := CommitFreeSmall(k, value);
      if found {
        r := Done;
      } else {
        failed, r := true, Failed;
      }
    }

    /** Record the free of a large allocation, if the scope tracks it. */
    method CommitFreeLarge(value: nat) returns (found: bool)
      requires Wellformed(Model()) && used <= peakUsed && value in virtualPages
      requires value + virtualPages[value].span <= |vaPhys|
      requires virtualPages[value].allocation in stack[|stack| - 1].tracked ==> CanFreeLarge(Model(), value)
      modifies this`nodes, this`notes, this`stack, this`virtualPages, this`physicalLive, this`used, this`client
      ensures found == (old(virtualPages[value].allocation) in old(stack[|stack| - 1].tracked))
      ensures found ==> Model() == FreedLarge(old(Model()), value)
    {
      var first := virtualPages[value];
      ghost var v := notes[stack[|stack| - 1].cursor].view;
      if first.allocation in stack[|stack| - 1].tracked {
        v := View(RemoveLarge(v.tables, vaPhys, value), Untrack(v.tracked, first.allocation));
      }
      var id := AppendEvent(Free(value), v);
      found := UntrackAllocation(first.allocation);
      if !found { return; }
      SetFlags(value, first.span, false);
      used := used - first.span * MG_PAGE;
      virtualPages := virtualPages - {value};
      client := client[|client| - 1 := WithoutAt(client[|client| - 1], false, value)];
    }

    method RecordFreeLarge(value: nat) returns (r: Reply)
      requires Inv(Model()) && stack != [] && stack[|stack| - 1].recording && !failed
      modifies this
      ensures smallPages == old(smallPages) && smallSize == old(smallSize)
      ensures failed == (r == Failed)
      ensures Wellformed(old(Model())) && RecordsFree(old(Model()), false, value, Model(), r)
    {
      hide Inv, FreedLarge;
      ghost var g := Model();
      SmallFacts(g);
      if value !in virtualPages || virtualPages[value].ownerDepth != stack[|stack| - 1].depth {
        failed, r := true, Failed;
        return;
      }
      WindowInMap(g, value);
      if OwnsLarge(g, value) { OwnedEntry(g, value); }
      var found := CommitFreeLarge(value);
      if found {
        r := Done;
      } else {
        failed, r := true, Failed;
      }
    }

    // -------------------------------------------------------------- the calls

    /** Follow recorded event `n`. */
    method Follow(n: NodeId, ghost held: set<Block>)
      requires stack != [] && client != []
      modifies this`stack, this`client
      ensures Model() == MoveTo(old(Model()), n, held)
    {
      stack := stack[|stack| - 1 := stack[|stack| - 1].(cursor := n)];
      client := client[|client| - 1 := held];
    }

    /** `malloc_graph_alloc` */
    method Allocate(size: nat, rogues: Rogues, grants: nat) returns (r: Reply)
      requires Valid() && Allowed(Model(), OpAlloc(size, rogues, grants))
      modifies this
      ensures Valid()
      ensures Step(old(Model()), OpAlloc(size, rogues, grants), Model(), r)
    {
      hide Inv, RecordsAlloc, Refused, RoguesOk;
      ghost var g := Model();
      if stack == [] || failed {
        return NotHandled;
      }
      InvWellformed(g);
      RecordingInv(g);
      if !stack[|stack| - 1].recording {
        var want := AllocEvent(size);
        var m := Find(want, rogues);
        if m.Some? {
          r := Gave(BlockOf(nodes[m.value].event));
          ReplayAllocInv(g, m.value);
          Follow(m.value, client[|client| - 1] + {r.block});
          return;
        }
        var ok := StartRecording();
        if !ok {
          return Failed;
        }
      }
      assert Model() == Recording(g);
      RogueSame(g, rogues);
      if size < MG_SMALL_LIMIT {
        r := RecordSmall(size, rogues, grants);
      } else {
        r := RecordLarge(size, rogues, grants);
      }
      if !failed { RecordsAllocInv(Recording(g), size, rogues, Model(), r); }
    }

    /** `malloc_graph_free` of a pointer into one of the graph's two ranges. */
    method Deallocate(small: bool, value: nat) returns (r: Reply)
      requires Valid()
      modifies this
      ensures Valid()
      ensures Step(old(Model()), OpFree(small, value), Model(), r)
    {
      hide Inv, RecordsFree, Started, MoveTo, WithoutAt;
      ghost var g := Model();
      if stack == [] || failed {
        return NotHandled;
      }
      InvWellformed(g);
      RecordingSame(g);
      RecordingInv(g);
      if !stack[|stack| - 1].recording {
        var m := Find(FreeEvent(small, value), NO_ROGUES);
        if m.Some? {
          ReplayFreeInv(g, m.value);
          MovedSame(g, m.value, WithoutAt(client[|client| - 1], small, value));
          Follow(m.value, WithoutAt(client[|client| - 1], small, value));
          return Done;
        }
        var ok := StartRecording();
        if !ok {
          return Failed;
        }
      }
      assert Model() == Recording(g);
      if small {
        r := RecordFreeSmall(value);
      } else {
        r := RecordFreeLarge(value);
      }
      RecordsFreeInv(Recording(g), small, value, Model(), r);
    }

    /** A new scope below the cursor, entered with the current tables. */
    method AddNamedScope(name: string)
      requires stack != [] && stack[|stack| - 1].cursor < |nodes| == |notes|
      modifies this`nodes, this`notes
      ensures Model() == NewScope(old(Model()), name)
    {
      var c, s := stack[|stack| - 1].cursor, |nodes|;
      nodes := nodes + [Node(Sentinel, 0, [], Some(Tables(virtualPages, physicalLive, smallRanges)))];
      notes := notes + [Note(View(Now(), []), |stack| + 1, s)];
      nodes := nodes[c := nodes[c].(next := nodes[c].next + [s + 1])] + [Node(Call(name, s), c, [], None)];
      notes := notes + [notes[c]];
    }

    /** `push_stack` */
    method PushStack(scope: NodeId, recording: bool)
      requires stack != [] ==> stack[|stack| - 1].depth == |stack|
      modifies this`stack, this`client
      ensures Model() == Pushed(old(Model()), scope, recording)
    {
      var depth := if stack == [] then 1 else stack[|stack| - 1].depth + 1;
      stack := stack + [State(scope, [], depth, recording, false)];
      client := client + [{}];
    }

    /** `malloc_graph_push` with a name */
    method Push(name: string) returns (r: Reply)
      requires Valid()
      modifies this
      ensures Valid()
      ensures Step(old(Model()), OpPush(name), Model(), r)
    {
      hide Inv, LevelsOk;
      ghost var g := Model();
      if stack == [] || failed {
        return NotHandled;
      }
      InvWellformed(g);
      RecordingInv(g);
      StackDepth(g);
      var m := Find(Call(name, 0), NO_ROGUES);
      if m.Some? {
        PushReplayInv(g, m.value);
        PushStack(nodes[m.value].event.scope, false);
        return Done;
      }
      if !stack[|stack| - 1].recording {
        var ok := StartRecording();
        if !ok {
          return Failed;
        }
      }
      PushNewInv(Recording(g), name);
      var scope := |nodes|;
      AddNamedScope(name);
      PushStack(scope, true);
      r := Done;
    }

    /** `malloc_graph_push` without a name: replay a complete graph from its root */
    method Replay() returns (r: Reply)
      requires Valid()
      modifies this
      ensures Valid()
      ensures Step(old(Model()), OpPushRoot, Model(), r)
    {
      if failed || stack != [] {
        return NotHandled;
      }
      PushRootInv(Model());
      hide Inv;
      PushStack(0, false);
      r := Done;
    }

    /** `malloc_graph_pop` of a scope that holds nothing */
    method Pop() returns (r: Reply)
      requires Valid() && Allowed(Model(), OpPop)
      modifies this
      ensures Valid()
      ensures Step(old(Model()), OpPop, Model(), r)
    {
      hide Inv, LevelsOk, Ended, Popped, Started;
      ghost var g := Model();
      if stack == [] || failed {
        return NotHandled;
      }
      InvWellformed(g);
      RecordingInv(g);
      PoppedSame(g);
      var recording := stack[|stack| - 1].recording;
      if !recording {
        var m := Find(End, NO_ROGUES);
        if m.Some? {
          PoppedInv(g);
          PopStack();
          return Done;
        }
        var ok := StartRecording();
        if !ok {
          return Failed;
        }
      }
      EndInv(Recording(g));
      RecordEnd();
      r := Done;
    }

    /** Record the end of the scope and leave it. */
    method RecordEnd()
      requires Inv(Model()) && Wellformed(Model()) && stack[|stack| - 1].recording
      modifies this`nodes, this`notes, this`stack, this`client
      ensures Model() == Popped(Ended(old(Model())))
    {
      hide Inv;
      EndedSame(Model());
      var id := AppendEvent(End, notes[stack[|stack| - 1].cursor].view);
      PopStack();
    }

    method PopStack()
      requires stack != [] && client != []
      modifies this`stack, this`client
      ensures Model() == Popped(old(Model()))
    {
      stack := stack[..|stack| - 1];
      client := client[..|client| - 1];
    }
  }

  lemma {:induction false} MovedSame(g: Graph, n: NodeId, held: set<Block>)
    requires g.stack != [] && g.client != []
    ensures MoveTo(g, n, held).smallSize == g.smallSize && MoveTo(g, n, held).failed == g.failed
  {
  }

  /** Accounting before or with the event comes to the same. */
  lemma {:induction false} RecordedUpdate(g: Graph, e: Event, v: View, tables: Tables, used: nat, held: set<Block>)
    requires Wellformed(g)
    ensures var g' := g.(tables := tables, used := used, peakUsed := Max(g.peakUsed, used));
            Recorded(g', e, v, tables, used, held) == Recorded(g, e, v, tables, used, held)
  {
  }

  lemma {:induction false} AllocatedSame(g: Graph, at: nat, size: nat)
    requires Wellformed(g)
    ensures var a, b := AllocatedSmall(g, at, size), AllocatedLarge(g, at, size);
            && a.failed == b.failed == g.failed && a.smallSize == b.smallSize == g.smallSize
            && a.vaPhys == b.vaPhys == g.vaPhys && a.physCount == b.physCount == g.physCount
  {
  }

  lemma {:induction false} RecordingSame(g: Graph)
    requires Wellformed(g)
    ensures Recording(g).smallSize == g.smallSize && Recording(g).failed == g.failed
  {
  }

  lemma {:induction false} PoppedSame(g: Graph)
    requires g.stack != [] && g.client != []
    ensures Popped(g).smallSize == g.smallSize && Popped(g).failed == g.failed
  {
  }

  lemma {:induction false} EndInv(g: Graph)
    requires Inv(g) && Wellformed(g) && Top(g).recording && g.client[|g.client| - 1] == {}
    ensures Inv(Popped(Ended(g))) && Popped(Ended(g)).smallSize == g.smallSize && Popped(Ended(g)).failed == g.failed
  {
    hide Inv;
    EndedExtends(g);
    PoppedInv(Ended(g));
  }

  lemma {:induction false} StackDepth(g: Graph)
    requires Inv(g) && g.stack != []
    ensures Top(g).depth == |g.stack|
  {
    hide TreeOk, TablesOk;
    TopFacts(g);
  }

  /** The working tables and the cursor's view agree on what is to be freed. */
  ghost predicate CanFreeSmall(g: Graph, offset: nat)
    requires Wellformed(g)
  {
    var v, s := ViewAt(g.tree, Cursor(g)), g.tables.smallRanges;
    && SmallAt(s, offset) && SmallAt(v.tables.smallRanges, offset)
    && FreedSmall.requires(g, offset) && Top(g).tracked == v.tracked
    && v.tables.smallRanges[Position(v.tables.smallRanges, offset)] == s[Position(s, offset)]
  }

  lemma {:induction false} FreeableSmall(g: Graph, offset: nat)
    requires Inv(g) && g.stack != [] && Top(g).recording
    ensures Wellformed(g)
    ensures OwnsSmall(g, offset) ==> CanFreeSmall(g, offset) && FreedSmall.requires(g, offset)
  {
    hide Inv;
    SmallFacts(g);
    if OwnsSmall(g, offset) { OwnedRange(g, offset); }
  }

  ghost predicate CanFreeLarge(g: Graph, va: nat)
    requires Wellformed(g)
  {
    var v := ViewAt(g.tree, Cursor(g));
    && FreedLarge.requires(g, va) && Top(g).tracked == v.tracked
    && v.tables.virtualPages[va] == g.tables.virtualPages[va]
  }

  /** Recording the end of a scope changes only the tree and the cursor. */
  lemma {:induction false} EndedSame(g: Graph)
    requires Inv(g) && g.stack != [] && Top(g).recording && Wellformed(g)
    ensures var c := Cursor(g);
            Ended(g) == g.(tree := Append(g.tree, c, End,
                                          Note(ViewAt(g.tree, c), g.tree.notes[c].depth, g.tree.notes[c].scope)),
                           stack := SetTop(g.stack, Top(g).(cursor := |g.tree.nodes|)))
  {
    TopFacts(g);
    assert SetTop(g.client, g.client[|g.client| - 1]) == g.client;
  }

  lemma {:induction false} WindowInMap(g: Graph, va: nat)
    requires Inv(g) && va in g.tables.virtualPages
    ensures va + g.tables.virtualPages[va].span <= |g.vaPhys|
  {
  }

  lemma {:induction false} SmallFacts(g: Graph)
    requires Inv(g) && g.stack != []
    ensures Wellformed(g)
    ensures SmallSorted(g.tables.smallRanges) && SmallWithin(g.tables.smallRanges, g.smallSize)
    ensures PagesOf(g.smallSize) <= MG_SMALL_PAGES && g.smallSize <= MG_SMALL_PAGES * MG_PAGE && Aligned(g.smallSize)
    ensures Top(g).recording ==> Top(g).tracked == ViewAt(g.tree, Cursor(g)).tracked
    ensures g.used <= g.peakUsed
  {
    hide TreeOk, LevelsOk, EntriesOk, CoversRecording, LargeOk;
    TopFacts(g);
  }

  lemma {:induction false} SmallRefused(g: Graph, size: nat, rogues: Rogues, grants: nat, offset: nat)
    requires size < MG_SMALL_LIMIT
    requires Placed(g.smallSize, g.tables.smallRanges, rogues.small, AlignSmall(size), offset)
    ensures Refused(g, size, rogues, grants) <==> NoRoom(g.smallSize, offset + AlignSmall(size), grants)
  {
    hide Placed, NoRoom;
    PlacedOnce(g.smallSize, g.tables.smallRanges, rogues.small, AlignSmall(size));
  }

  /** What `Materialize` needs to know about one node. */
  lemma {:induction false} TreeFacts(g: Graph, n: NodeId)
    requires Inv(g) && n < |g.tree.nodes|
    ensures |g.tree.notes| == |g.tree.nodes|
    ensures Total(ViewAt(g.tree, n).tables) <= g.peakUsed
    ensures forall p | p in ViewAt(g.tree, n).tables.physicalLive :: p < g.physCount
    ensures g.tree.nodes[n].snapshot.Some? ==> ViewAt(g.tree, n) == View(g.tree.nodes[n].snapshot.value, [])
    ensures g.tree.nodes[n].snapshot.None? ==>
              var c := g.tree.nodes[n].previous;
              && c < n && g.tree.notes[c].depth == g.tree.notes[n].depth
              && ApplyEvent(ViewAt(g.tree, c), g.tree.nodes[n].event, n, g.tree.notes[n].depth, g.vaPhys) ==
                    Some(ViewAt(g.tree, n))
              && EventAdds(ViewAt(g.tree, c), g.tree.nodes[n].event, ViewAt(g.tree, n))
              && (g.tree.nodes[n].event.Alloc? ==>
                    g.tree.nodes[n].event.value + PagesOf(g.tree.nodes[n].event.bytes) <= |g.vaPhys|)
              && WindowsOk(ViewAt(g.tree, c).tables, g.vaPhys)
              && Total(ViewAt(g.tree, c).tables) <= g.peakUsed
  {
    hide TreeOk, LevelsOk, TablesOk, EntriesOk, CoversRecording, WindowsOk, EventAdds;
    NextOfTree(g.tree, g.vaPhys, g.smallSize);
    assert Total(ViewAt(g.tree, n).tables) <= g.peakUsed;
    ViewLiveBound(g, n);
    if g.tree.nodes[n].snapshot.Some? {
      ScopeNote(g.tree, g.vaPhys, g.smallSize, n);
    } else {
      NodeAdds(g.tree, g.vaPhys, g.smallSize, n);
      assert Total(ViewAt(g.tree, g.tree.nodes[n].previous).tables) <= g.peakUsed;
    }
  }

  lemma {:induction false} ViewLiveBound(g: Graph, n: NodeId)
    requires Inv(g) && n < |g.tree.nodes|
    ensures |g.tree.notes| == |g.tree.nodes|
    ensures forall p | p in ViewAt(g.tree, n).tables.physicalLive :: p < g.physCount
  {
    hide LevelsOk, EntriesOk, CoversRecording;
    ViewFacts(g.tree, g.vaPhys, g.smallSize, n);
    var t := ViewAt(g.tree, n).tables;
    forall p | p in t.physicalLive
      ensures p < g.physCount
    {
      var va :| va in t.virtualPages && p in PhysAt(t, g.vaPhys, va);
    }
  }
}
