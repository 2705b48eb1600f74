/**
 The calls a client makes on a malloc graph, and what holds in every run of them.
 */
module GraphOps {
  import opened Basics
  import opened GraphTables
  import opened GraphTree
  import opened GraphRun
  import opened GraphSteps
  import opened GraphAlloc
  import opened GraphFree
  import opened GraphSearch
  import opened SmallHeap

  // ---------------------------------------------------------------- find_event

  predicate PagesAvailable(vaPhys: seq<nat>, rogues: Rogues, va: nat, pages: nat) {
    forall i | va <= i < va + pages && i < |vaPhys| :: i !in rogues.vas && vaPhys[i] !in rogues.phys
  }

  predicate SpanAvailable(rogues: Rogues, offset: nat, bytes: nat) {
    forall b | b in rogues.small :: !Meets(offset, bytes, SpanOf(b))
  }

  /** Does recorded event `e` answer the wanted call, with its memory still available? */
  predicate Matches(e: Event, want: Event, vaPhys: seq<nat>, rogues: Rogues) {
    match want
    case Alloc(_, bytes) => e.Alloc? && e.bytes == bytes && PagesAvailable(vaPhys, rogues, e.value, PagesOf(bytes))
    case AllocSmall(_, bytes) => e.AllocSmall? && e.bytes == bytes && SpanAvailable(rogues, e.value, AlignSmall(bytes))
    case Free(_) => e == want
    case FreeSmall(_) => e == want
    case Call(name, _) => e.Call? && e.name == name
    case End => e.End?
    case Sentinel => false
  }

  /** The events an allocation and a free are looked up by. */
  function AllocEvent(size: nat): Event {
    if size < MG_SMALL_LIMIT then AllocSmall(0, size) else Alloc(0, size)
  }

  function FreeEvent(small: bool, value: nat): Event {
    if small then FreeSmall(value) else Free(value)
  }

  function FirstMatch(nodes: seq<Node>, kids: seq<NodeId>, want: Event, vaPhys: seq<nat>,
                      rogues: Rogues): (r: Option<NodeId>)
    ensures r.Some? ==> r.value in kids && r.value < |nodes| && Matches(nodes[r.value].event, want, vaPhys, rogues)
    ensures r.None? ==> forall n | n in kids && n < |nodes| :: !Matches(nodes[n].event, want, vaPhys, rogues)
  {
    if kids == [] then None
    else if kids[0] < |nodes| && Matches(nodes[kids[0]].event, want, vaPhys, rogues) then Some(kids[0])
    else FirstMatch(nodes, kids[1..], want, vaPhys, rogues)
  }

  /** Replaying looks for a child of the cursor; a recording scope never replays its own events. */
  function FindEvent(g: Graph, want: Event, rogues: Rogues): (r: Option<NodeId>)
    requires g.stack != [] && Cursor(g) < |g.tree.nodes|
  {
    FirstMatch(g.tree.nodes, g.tree.nodes[Cursor(g)].next, want, g.vaPhys, rogues)
  }

  // ---------------------------------------------------------------- the calls

  /** `grants` is what the driver answers: how many more pages it provides during the call. */
  datatype Op =
    | OpAlloc(size: nat, rogues: Rogues, grants: nat)
    | OpFree(small: bool, value: nat)
    | OpPush(name: string)
    | OpPushRoot
    | OpPop

  /** `NotHandled`: the call is left to the next allocator.  `Failed`: the graph has failed. */
  datatype Reply = NotHandled | Failed | Gave(block: Block) | Done

  function Initial(assertBreaks: bool): Graph {
    Graph(Tree([Node(Sentinel, 0, [], Some(EMPTY_TABLES))], [Note(View(EMPTY_TABLES, []), 1, 0)]),
          [State(0, [], 1, true, false)], EMPTY_TABLES, [], 0, 0, 0, 0, assertBreaks, false, [{}])
  }

  ghost predicate RoguesOk(g: Graph, rogues: Rogues) {
    && (forall p | p in rogues.phys :: p < g.physCount)
    && (forall b | b in rogues.small :: RogueBlockOk(b, g.smallSize))
  }

  /** What the caller owes: sizes are positive, and a scope is closed only when it holds nothing. */
  ghost predicate Allowed(g: Graph, op: Op) {
    match op
    case OpAlloc(size, rogues, _) => size > 0 && RoguesOk(g, rogues)
    case OpPop => g.stack != [] ==> g.client != [] && g.client[|g.client| - 1] == {}
    case _ => true
  }

  /** The state in which the top scope records, rebuilt if it was replaying. */
  function Recording(g: Graph): Graph
    requires g.stack != [] && Cursor(g) < |g.tree.notes|
  {
    if Top(g).recording then g else Started(g)
  }

  ghost predicate SmallPlan(g: Graph, rogues: Rogues, bytes: nat, offset: nat) {
    && offset <= PageUp(g.smallSize) && Aligned(offset)
    && (offset < g.smallSize ==> offset + bytes <= g.smallSize)
    && (forall r | r in g.tables.smallRanges :: !Overlaps(offset, bytes, r))
    && (forall b | b in rogues.small :: !Meets(offset, bytes, b))
    && PagesOf(Max(g.smallSize, offset + bytes)) <= MG_SMALL_PAGES
    && Placed(g.smallSize, g.tables.smallRanges, rogues.small, bytes, offset)
    && (rogues.small == [] ==> BestFit(g.tables.smallRanges, g.smallSize, bytes, offset))
  }

  ghost predicate RecordsAlloc(g: Graph, size: nat, rogues: Rogues, g': Graph, r: Reply)
    requires g.stack != [] && |g.client| == |g.stack| && Cursor(g) < |g.tree.nodes| == |g.tree.notes|
  {
    && r.Gave?
    && if size < MG_SMALL_LIMIT then
         && r.block.Small? && r.block.size == size
         && SmallPlan(g, rogues, AlignSmall(size), r.block.offset)
         && g' == AllocatedSmall(Grown(g, g.vaPhys, g.physCount, Max(g.smallSize, r.block.offset + AlignSmall(size))),
                                 r.block.offset, size)
       else
         && r.block.Large? && r.block.size == size
         && LargePlan(PageMap(g.vaPhys, g.physCount), g.tables.physicalLive, rogues, PagesOf(size), r.block.va,
                      PageMap(g'.vaPhys, g'.physCount))
         && g' == AllocatedLarge(Grown(g, g'.vaPhys, g'.physCount, g.smallSize), r.block.va, size)
  }

  /** The small heap would end at `end`: past its limit, or on more pages than the driver provides. */
  predicate NoRoom(smallSize: nat, end: nat, grants: nat) {
    var pages := PagesOf(Max(smallSize, end));
    pages > MG_SMALL_PAGES || pages > PagesOf(smallSize) + grants
  }

  /** An allocation that is not replayed fails for want of pages, and for nothing else. */
  ghost predicate Refused(g: Graph, size: nat, rogues: Rogues, grants: nat) {
    if size < MG_SMALL_LIMIT then
      exists offset: nat :: Placed(g.smallSize, g.tables.smallRanges, rogues.small, AlignSmall(size), offset)
                       && NoRoom(g.smallSize, offset + AlignSmall(size), grants)
    else
      && NoneUsable(g.vaPhys, g.tables.physicalLive, rogues, PagesOf(size))
      && (|g.vaPhys| + PagesOf(size) > MG_PAGES || PagesOf(size) > grants)
  }

  ghost predicate Wellformed(g: Graph) {
    g.stack != [] && |g.client| == |g.stack| && Cursor(g) < |g.tree.nodes| == |g.tree.notes|
  }

  ghost predicate StepAlloc(g: Graph, size: nat, rogues: Rogues, grants: nat, g': Graph, r: Reply)
    requires Wellformed(g)
  {
    var want := AllocEvent(size);
    var m := if Top(g).recording then None else FindEvent(g, want, rogues);
    if m.Some? then
      r == Gave(BlockOf(g.tree.nodes[m.value].event)) && g' == MoveTo(g, m.value, g.client[|g.client| - 1] + {r.block})
    else if !Top(g).recording && g.assertBreaks then r == Failed && g'.failed
    else if Refused(Recording(g), size, rogues, grants) then r == Failed && g'.failed
    else RecordsAlloc(Recording(g), size, rogues, g', r)
  }

  ghost predicate RecordsFree(g: Graph, small: bool, value: nat, g': Graph, r: Reply)
    requires Wellformed(g)
  {
    if small && OwnsSmall(g, value) then
      r == Done && FreedSmall.requires(g, value) && g' == FreedSmall(g, value)
    else if !small && OwnsLarge(g, value) then
      r == Done && FreedLarge.requires(g, value) && g' == FreedLarge(g, value)
    else r == Failed && g'.failed
  }

  ghost predicate StepFree(g: Graph, small: bool, value: nat, g': Graph, r: Reply)
    requires Wellformed(g)
  {
    var want := FreeEvent(small, value);
    var m := if Top(g).recording then None else FindEvent(g, want, NO_ROGUES);
    if m.Some? then
      r == Done && g' == MoveTo(g, m.value, WithoutAt(g.client[|g.client| - 1], small, value))
    else if !Top(g).recording && g.assertBreaks then r == Failed && g'.failed
    else RecordsFree(Recording(g), small, value, g', r)
  }

  ghost predicate StepPush(g: Graph, name: string, g': Graph, r: Reply)
    requires Wellformed(g)
  {
    var m := FindEvent(g, Call(name, 0), NO_ROGUES);
    if m.Some? then
      r == Done && g' == Pushed(g, g.tree.nodes[m.value].event.scope, false)
    else if !Top(g).recording && g.assertBreaks then r == Failed && g'.failed
    else
      r == Done && g' == Pushed(NewScope(Recording(g), name), |g.tree.nodes|, true)
  }

  ghost predicate StepPop(g: Graph, g': Graph, r: Reply)
    requires Wellformed(g)
  {
    var m := if Top(g).recording then None else FindEvent(g, End, NO_ROGUES);
    if m.Some? then r == Done && g' == Popped(g)
    else if !Top(g).recording && g.assertBreaks then r == Failed && g'.failed
    else r == Done && g' == Popped(Ended(Recording(g)))
  }

  /** One call.  A failed graph, or one whose run is over, answers none of them but a new run. */
  ghost predicate Step(g: Graph, op: Op, g': Graph, r: Reply) {
    if g.failed || (op.OpPushRoot? != (g.stack == [])) then r == NotHandled && g' == g
    else if op.OpPushRoot? then r == Done && g' == Pushed(g, 0, false)
    else Wellformed(g) &&
         match op
         case OpAlloc(size, rogues, grants) => StepAlloc(g, size, rogues, grants, g', r)
         case OpFree(small, value) => StepFree(g, small, value, g', r)
         case OpPush(name) => StepPush(g, name, g', r)
         case OpPop => StepPop(g, g', r)
         case OpPushRoot => false
  }
}
