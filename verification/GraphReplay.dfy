/**
 Replaying recorded events, and when rebuilding a scope gives back exactly what
 recording had.
 */
module GraphReplay {
  import opened Basics
  import opened GraphTables
  import opened GraphTree
  import opened GraphRun
  import opened GraphSteps
  import opened GraphAlloc
  import opened GraphFree

  // ---------------------------------------------------------------- replayed events and the client's list

  predicate IsAlloc(e: Event) { e.Alloc? || e.AllocSmall? }

  lemma {:induction false} InvTree(g: Graph)
    requires Inv(g)
    ensures TreeOk(g.tree, g.vaPhys, g.smallSize)
    ensures LevelsOk(g.tree, g.stack, g.client)
  {
  }

  // ---------------------------------------------------------------- what an allocation gives is new

  /** `b` is none of the client's blocks, in any open scope, and shares memory with none of them. */
  ghost predicate NewTo(client: seq<set<Block>>, vaPhys: seq<nat>, b: Block) {
    forall i, c | 0 <= i < |client| && c in client[i] :: c != b && BlocksApart(vaPhys, b, c)
  }

  lemma {:induction false} NotApartFromItself(vaPhys: seq<nat>, smallSize: nat, b: Block)
    requires BlockOk(vaPhys, smallSize, b)
    ensures !BlocksApart(vaPhys, b, b)
  {
    if b.Large? { assert PageOfByte(b.va, 0) < |vaPhys|; }
  }

  lemma {:induction false} TrackedFirst(t: Tree, vaPhys: seq<nat>, smallSize: nat, c: NodeId, n: NodeId)
    requires TreeOk(t, vaPhys, smallSize) && c < |t.nodes| && n in t.nodes[c].next && n < |t.nodes| &&
             IsAlloc(t.nodes[n].event)
    ensures |t.notes| == |t.nodes| && ViewAt(t, n).tracked == [n] + ViewAt(t, c).tracked
    ensures n !in ViewAt(t, c).tracked
  {
    ChildNote(t, vaPhys, smallSize, c, n);
    ViewFacts(t, vaPhys, smallSize, n);
    var s, rest := ViewAt(t, n).tracked, ViewAt(t, c).tracked;
    assert NoDuplicates(s) && s == [n] + rest;
    forall i | 0 <= i < |rest|
      ensures rest[i] != n
    {
      assert s[i + 1] == rest[i] && s[0] == n;
    }
  }

  /** What the top scope held before is apart from what it was just given. */
  lemma {:induction false} TopIsApart(t: Tree, vaPhys: seq<nat>, smallSize: nat, c: NodeId, n: NodeId, held: Block)
    requires TreeOk(t, vaPhys, smallSize) && c < |t.nodes| && n in t.nodes[c].next && n < |t.nodes| &&
             IsAlloc(t.nodes[n].event)
    requires |t.notes| == |t.nodes| && held in Blocks(t.nodes, ViewAt(t, c).tracked)
    ensures BlocksApart(vaPhys, BlockOf(t.nodes[n].event), held)
    ensures BlockOk(vaPhys, smallSize, BlockOf(t.nodes[n].event))
  {
    hide TreeOk, TablesOk, EntriesOk, LiveIn, BlocksApart;
    TrackedFirst(t, vaPhys, smallSize, c, n);
    ViewFacts(t, vaPhys, smallSize, n);
    var v := ViewAt(t, n);
    var id :| id in ViewAt(t, c).tracked && id < |t.nodes| && BlockOf(t.nodes[id].event) == held;
    assert n in v.tracked && id in v.tracked;
    LiveBlockOk(t.nodes, v.tables, vaPhys, smallSize, n);
    LiveBlocksApart(t.nodes, v.tables, vaPhys, smallSize, n, id);
  }

  /** From `g` to `g'` the cursor went on to allocation `n`; nothing else about the client changed. */
  ghost predicate WentOn(g: Graph, g': Graph, n: NodeId)
    requires g.stack != [] && |g.client| == |g.stack| && Cursor(g) < |g.tree.nodes|
  {
    && Extends(g.tree, g'.tree) && |g'.stack| == |g.stack| == |g'.client|
    && g'.client[..|g.stack| - 1] == g.client[..|g.stack| - 1]
    && Cursor(g') == n < |g'.tree.nodes| && IsAlloc(g'.tree.nodes[n].event) && n in g'.tree.nodes[Cursor(g)].next
  }

  lemma {:induction false} BlockIsNew(g: Graph, g': Graph, n: NodeId)
    requires Inv(g) && Inv(g') && g.stack != [] && |g.client| == |g.stack| && Cursor(g) < |g.tree.nodes| &&
             WentOn(g, g', n)
    ensures NewTo(g.client, g'.vaPhys, BlockOf(g'.tree.nodes[n].event))
    ensures BlockOk(g'.vaPhys, g'.smallSize, BlockOf(g'.tree.nodes[n].event))
  {
    hide Inv, LevelsOk, TreeOk, BlocksApart, BlockOk;
    var t, c, top, b := g'.tree, Cursor(g), |g.stack| - 1, BlockOf(g'.tree.nodes[n].event);
    TopFacts(g);
    TopFacts(g');
    InvTree(g');
    TrackedBound(t, g'.vaPhys, g'.smallSize, n);
    TrackedFirst(t, g'.vaPhys, g'.smallSize, c, n);
    assert b in g'.client[top];
    BlocksMono(g.tree.nodes, t.nodes, ViewAt(g.tree, c).tracked);
    ClientBlockOk(g', top, b);
    NotApartFromItself(g'.vaPhys, g'.smallSize, b);
    forall i, held | 0 <= i < |g.client| && held in g.client[i]
      ensures held != b && BlocksApart(g'.vaPhys, b, held)
    {
      if i < top {
        assert g'.client[..top][i] == g.client[..top][i];
        ClientDisjoint(g', i, held, top, b);
        ApartSymmetric(g'.vaPhys, held, b);
      } else {
        TopIsApart(t, g'.vaPhys, g'.smallSize, c, n, held);
      }
    }
  }

  lemma {:induction false} ApartSymmetric(vaPhys: seq<nat>, b: Block, c: Block)
    requires BlocksApart(vaPhys, b, c)
    ensures BlocksApart(vaPhys, c, b)
  {
  }

  lemma {:induction false} ClientBlockOk(g: Graph, i: nat, b: Block)
    requires Inv(g) && i < |g.client| == |g.stack| && b in g.client[i]
    ensures BlockOk(g.vaPhys, g.smallSize, b)
  {
    hide TreeOk, TablesOk, EntriesOk, LiveIn;
    var id := ClientNode(g, i, b);
    ViewFacts(g.tree, g.vaPhys, g.smallSize, g.stack[i].cursor);
    LiveBlockOk(g.tree.nodes, ViewAt(g.tree, g.stack[i].cursor).tables, g.vaPhys, g.smallSize, id);
  }

  /** The client's sets lose nothing: two allocations a scope has alive are two blocks, apart from each other. */
  lemma {:induction false} HeldOnce(g: Graph, i: nat, id: NodeId, jd: NodeId)
    requires Inv(g) && i < |g.stack| && g.stack[i].cursor < |g.tree.notes| && id != jd
    requires id in ViewAt(g.tree, g.stack[i].cursor).tracked && jd in ViewAt(g.tree, g.stack[i].cursor).tracked
    ensures id < |g.tree.nodes| && jd < |g.tree.nodes| && i < |g.client|
    ensures BlockOf(g.tree.nodes[id].event) in g.client[i] && BlockOf(g.tree.nodes[jd].event) in g.client[i]
    ensures BlockOf(g.tree.nodes[id].event) != BlockOf(g.tree.nodes[jd].event)
    ensures BlocksApart(g.vaPhys, BlockOf(g.tree.nodes[id].event), BlockOf(g.tree.nodes[jd].event))
  {
    hide TreeOk, TablesOk, EntriesOk, LiveIn, BlocksApart, BlockOk;
    var t, v := g.tree, ViewAt(g.tree, g.stack[i].cursor);
    LevelBounds(t, g.stack, g.client, i);
    ViewFacts(t, g.vaPhys, g.smallSize, g.stack[i].cursor);
    TrackedBound(t, g.vaPhys, g.smallSize, g.stack[i].cursor);
    LiveBlockOk(t.nodes, v.tables, g.vaPhys, g.smallSize, id);
    LiveBlocksApart(t.nodes, v.tables, g.vaPhys, g.smallSize, id, jd);
    NotApartFromItself(g.vaPhys, g.smallSize, BlockOf(t.nodes[id].event));
  }

  // ---------------------------------------------------------------- replayed allocations and frees

  /** A replayed allocation hands out the recorded pointer, and it is new to the client. */
  lemma {:induction false} ReplayAllocInv(g: Graph, n: NodeId)
    requires Inv(g) && g.stack != [] && !Top(g).recording
    requires Cursor(g) < |g.tree.nodes| && n in g.tree.nodes[Cursor(g)].next && n < |g.tree.nodes|
    requires IsAlloc(g.tree.nodes[n].event)
    ensures |g.client| == |g.stack|
    ensures Inv(MoveTo(g, n, g.client[|g.client| - 1] + {BlockOf(g.tree.nodes[n].event)}))
    ensures NewTo(g.client, g.vaPhys, BlockOf(g.tree.nodes[n].event))
    ensures BlockOk(g.vaPhys, g.smallSize, BlockOf(g.tree.nodes[n].event))
  {
    hide Inv, LevelsOk, TreeOk, ViewOk, EntriesOk, Includes, NewTo, BlockOk;
    TopFacts(g);
    InvTree(g);
    ChildNote(g.tree, g.vaPhys, g.smallSize, Cursor(g), n);
    var v := ViewAt(g.tree, Cursor(g));
    assert ViewAt(g.tree, n).tracked == [n] + v.tracked;
    BlocksAlloc(g.tree.nodes, g.tree.nodes, v.tracked, n);
    MoveInv(g, n, g.client[|g.client| - 1] + {BlockOf(g.tree.nodes[n].event)});
    BlockIsNew(g, MoveTo(g, n, g.client[|g.client| - 1] + {BlockOf(g.tree.nodes[n].event)}), n);
  }

  /** The node a recorded free gives back is tracked and starts where the free says. */
  lemma {:induction false} FreedNode(nodes: seq<Node>, base: Tables, v: View, depth: nat, vaPhys: seq<nat>,
                                     smallSize: nat, e: Event, n: NodeId, v': View)
    returns (id: NodeId)
    requires ViewOk(nodes, base, v, depth, vaPhys, smallSize)
    requires e.Free? || (e.FreeSmall? && SmallAt(v.tables.smallRanges, e.value))
    requires ApplyEvent(v, e, n, depth, vaPhys) == Some(v')
    ensures id in v.tracked && id < |nodes| && v'.tracked == Untrack(v.tracked, id)
    ensures At(BlockOf(nodes[id].event), e.FreeSmall?, e.value)
  {
    if e.Free? {
      id := v.tables.virtualPages[e.value].allocation;
      assert LargeEntry(nodes, e.value, v.tables.virtualPages[e.value]);
    } else {
      var r := v.tables.smallRanges[Position(v.tables.smallRanges, e.value)];
      id := r.allocation;
      assert r in v.tables.smallRanges && SmallEntry(nodes, r);
    }
  }

  /** A replayed free is of a block the client holds in this scope, and takes exactly that block. */
  lemma {:induction false} ReplayFreeInv(g: Graph, n: NodeId)
    requires Inv(g) && g.stack != [] && !Top(g).recording
    requires Cursor(g) < |g.tree.nodes| && n in g.tree.nodes[Cursor(g)].next && n < |g.tree.nodes|
    requires g.tree.nodes[n].event.Free? || g.tree.nodes[n].event.FreeSmall?
    ensures |g.client| == |g.stack|
    ensures var e := g.tree.nodes[n].event;
            && (exists b :: b in g.client[|g.client| - 1] && At(b, e.FreeSmall?, e.value))
            && Inv(MoveTo(g, n, WithoutAt(g.client[|g.client| - 1], e.FreeSmall?, e.value)))
  {
    hide Inv, LevelsOk, TreeOk, ViewOk, EntriesOk, Includes;
    TopFacts(g);
    InvTree(g);
    var t, c, e := g.tree, Cursor(g), g.tree.nodes[n].event;
    ChildNote(t, g.vaPhys, g.smallSize, c, n);
    var v := ViewAt(t, c);
    var id := FreedNode(t.nodes, BaseAt(t, c), v, Top(g).depth, g.vaPhys, g.smallSize, e, n, ViewAt(t, n));
    assert BlockOf(t.nodes[id].event) in Blocks(t.nodes, v.tracked);
    ViewBlocksFree(t.nodes, t.nodes, BaseAt(t, c), v, Top(g).depth, g.vaPhys, g.smallSize, id, e.FreeSmall?, e.value);
    MoveInv(g, n, WithoutAt(g.client[|g.client| - 1], e.FreeSmall?, e.value));
  }

  // ---------------------------------------------------------------- exact states

  /** Every scope was first entered with exactly what was live at its call. */
  ghost predicate CallsExact(t: Tree) {
    forall n | 0 <= n < |t.nodes| && t.nodes[n].event.Call? :: CallExact(t, n)
  }

  ghost predicate CallExact(t: Tree, n: NodeId)
    requires n < |t.nodes| && t.nodes[n].event.Call?
  {
    && t.nodes[n].event.scope < |t.nodes| && t.nodes[n].previous < |t.notes|
    && t.nodes[t.nodes[n].event.scope].snapshot == Some(ViewAt(t, t.nodes[n].previous).tables)
  }

  ghost predicate StackExact(t: Tree, stack: seq<State>) {
    forall i | 0 < i < |stack| :: LevelExact(t, stack, i)
  }

  ghost predicate LevelExact(t: Tree, stack: seq<State>, i: nat)
    requires 0 < i < |stack|
  {
    && stack[i].cursor < |t.notes| && t.notes[stack[i].cursor].scope < |t.notes| && stack[i - 1].cursor < |t.notes|
    && BaseAt(t, stack[i].cursor) == ViewAt(t, stack[i - 1].cursor).tables
  }

  /** Level `j` records and no scope opened inside it does. */
  ghost predicate Innermost(stack: seq<State>, j: nat) {
    j < |stack| && stack[j].recording && forall k | j < k < |stack| :: !stack[k].recording
  }

  ghost predicate TablesExact(t: Tree, stack: seq<State>, tables: Tables) {
    forall j: nat | Innermost(stack, j) :: stack[j].cursor < |t.notes| && tables == ViewAt(t, stack[j].cursor).tables
  }

  /**
   The working tables are the view of the innermost recording scope, and every
   scope was entered with the view of the scope around it.
   */
  ghost predicate Exact(g: Graph) {
    CallsExact(g.tree) && StackExact(g.tree, g.stack) && TablesExact(g.tree, g.stack, g.tables)
  }

  /** In an exact state, breaking later at the same node rebuilds what recording has now. */
  lemma {:induction false} RebuildIsRecorded(g: Graph, later: Graph)
    requires Inv(g) && Exact(g) && g.stack != [] && Top(g).recording
    requires Inv(later) && Extends(g.tree, later.tree)
    requires later.stack != [] && Cursor(later) == Cursor(g)
    ensures Cursor(later) < |later.tree.notes|
    ensures Started(later).tables == g.tables
    ensures Top(Started(later)).tracked == Top(g).tracked
    ensures Started(later).used == g.used
  {
    hide TreeOk, LevelsOk, TablesOk, EntriesOk, CallsExact, StackExact, CoversRecording, PeakOk, MapOk;
    TopFacts(g);
    assert Innermost(g.stack, |g.stack| - 1);
  }

  // ---------------------------------------------------------------- which steps keep a state exact

  lemma {:induction false} CallsExactAppend(t: Tree, c: NodeId, e: Event, note: Note)
    requires |t.notes| == |t.nodes| && c < |t.nodes| && CallsExact(t)
    requires e.Call? ==> e.scope < |t.nodes| && t.nodes[e.scope].snapshot == Some(ViewAt(t, c).tables)
    ensures CallsExact(Append(t, c, e, note))
  {
    var t' := Append(t, c, e, note);
    forall n | 0 <= n < |t'.nodes| && t'.nodes[n].event.Call?
      ensures CallExact(t', n)
    {
      if n < |t.nodes| { assert CallExact(t, n); }
    }
  }

  lemma {:induction false} StackExactExtends(t: Tree, t': Tree, stack: seq<State>)
    requires Extends(t, t') && StackExact(t, stack)
    ensures StackExact(t', stack)
  {
    forall i | 0 < i < |stack|
      ensures LevelExact(t', stack, i)
    {
      assert LevelExact(t, stack, i);
    }
  }

  /** Moving the top cursor inside its scope keeps the stack exact. */
  lemma {:induction false} StackExactTop(t: Tree, stack: seq<State>, s: State)
    requires stack != [] && StackExact(t, stack)
    requires s.cursor < |t.notes| && stack[|stack| - 1].cursor < |t.notes|
    requires t.notes[s.cursor].scope == t.notes[stack[|stack| - 1].cursor].scope < |t.notes|
    ensures StackExact(t, SetTop(stack, s))
  {
    forall i | 0 < i < |stack|
      ensures LevelExact(t, SetTop(stack, s), i)
    {
      assert LevelExact(t, stack, i);
    }
  }

  lemma {:induction false} RecordedExact(g: Graph, e: Event, v: View, tables: Tables, used: nat, held: set<Block>)
    requires Inv(g) && Exact(g) && g.stack != [] && Top(g).recording
    requires Cursor(g) < |g.tree.nodes| && g.tree.notes[Cursor(g)].scope < |g.tree.notes| && |g.client| == |g.stack|
    requires tables == v.tables && !e.Call?
    requires Extends(g.tree, Recorded(g, e, v, tables, used, held).tree)
    ensures Exact(Recorded(g, e, v, tables, used, held))
  {
    hide Inv, TreeOk, LevelsOk, LevelExact;
    var g' := Recorded(g, e, v, tables, used, held);
    TopFacts(g);
    CallsExactAppend(g.tree, Cursor(g), e, Note(v, g.tree.notes[Cursor(g)].depth, g.tree.notes[Cursor(g)].scope));
    StackExactExtends(g.tree, g'.tree, g.stack);
    StackExactTop(g'.tree, g.stack, Top(g'));
  }

  /** Alloc, free and end of scope act on the working tables as they act on the view. */
  lemma {:induction false} AllocatedLargeExact(g: Graph, va: nat, size: nat)
    requires Inv(g) && Exact(g) && g.stack != [] && Top(g).recording
    requires PagesOf(size) > 0 && FreeWindow(g.vaPhys, g.tables.physicalLive, va, PagesOf(size))
    ensures |g.client| == |g.stack| && Cursor(g) < |g.tree.nodes| == |g.tree.notes|
    ensures Exact(AllocatedLarge(g, va, size))
  {
    hide Inv, TreeOk, LevelsOk, CallsExact, StackExact, FreeWindow;
    TopFacts(g);
    ExactTop(g);
    var v, vp := ViewAt(g.tree, Cursor(g)), LargeEntryFor(g, size);
    RecordExtends(g, Alloc(va, size), View(AddLarge(v.tables, g.vaPhys, va, vp), [|g.tree.nodes|] + v.tracked));
    RecordedExact(g, Alloc(va, size), View(AddLarge(v.tables, g.vaPhys, va, vp), [|g.tree.nodes|] + v.tracked),
                  AddLarge(g.tables, g.vaPhys, va, vp), g.used + PagesOf(size) * MG_PAGE,
                      g.client[|g.client| - 1] + {Large(va, size)});
  }

  lemma {:induction false} ExactTop(g: Graph)
    requires Inv(g) && Exact(g) && g.stack != [] && Top(g).recording
    ensures Cursor(g) < |g.tree.notes| && g.tables == ViewAt(g.tree, Cursor(g)).tables
  {
    assert Innermost(g.stack, |g.stack| - 1);
  }

  lemma {:induction false} RecordExtends(g: Graph, e: Event, v: View)
    requires Inv(g) && g.stack != []
    ensures Cursor(g) < |g.tree.nodes| == |g.tree.notes|
    ensures Extends(g.tree, Append(g.tree, Cursor(g), e,
                                   Note(v, g.tree.notes[Cursor(g)].depth, g.tree.notes[Cursor(g)].scope)))
  {
    TopFacts(g);
    AppendExtends(g.tree, Cursor(g), e, Note(v, g.tree.notes[Cursor(g)].depth, g.tree.notes[Cursor(g)].scope));
  }

  lemma {:induction false} AllocatedSmallExact(g: Graph, offset: nat, size: nat)
    requires Inv(g) && Exact(g) && g.stack != [] && Top(g).recording
    ensures |g.client| == |g.stack| && Cursor(g) < |g.tree.nodes| == |g.tree.notes|
    ensures Exact(AllocatedSmall(g, offset, size))
  {
    hide Inv, TreeOk, LevelsOk, CallsExact, StackExact, InsertSmall;
    TopFacts(g);
    ExactTop(g);
    var v, r := ViewAt(g.tree, Cursor(g)), SmallEntryFor(g, offset, size);
    var v' := View(AddSmall(v.tables, r), [|g.tree.nodes|] + v.tracked);
    RecordExtends(g, AllocSmall(offset, size), v');
    RecordedExact(g, AllocSmall(offset, size), v', AddSmall(g.tables, r), g.used + AlignSmall(size),
                  g.client[|g.client| - 1] + {Small(offset, size)});
  }

  lemma {:induction false} FreedLargeExact(g: Graph, va: nat)
    requires Inv(g) && Exact(g) && g.stack != [] && Top(g).recording && OwnsLarge(g, va)
    requires FreedLarge.requires(g, va)
    ensures Exact(FreedLarge(g, va))
  {
    hide Inv, TreeOk, LevelsOk, CallsExact, StackExact, Untrack, OwnsLarge;
    TopFacts(g);
    ExactTop(g);
    var v := ViewAt(g.tree, Cursor(g));
    var v' := View(RemoveLarge(v.tables, g.vaPhys, va), Untrack(v.tracked, v.tables.virtualPages[va].allocation));
    RecordExtends(g, Free(va), v');
    var bytes: nat := g.tables.virtualPages[va].span * MG_PAGE;
    RecordedExact(g, Free(va), v', RemoveLarge(g.tables, g.vaPhys, va), g.used - bytes,
                  WithoutAt(g.client[|g.client| - 1], false, va));
  }

  lemma {:induction false} FreedSmallExact(g: Graph, offset: nat)
    requires Inv(g) && Exact(g) && g.stack != [] && Top(g).recording && OwnsSmall(g, offset)
    requires FreedSmall.requires(g, offset)
    ensures Exact(FreedSmall(g, offset))
  {
    hide Inv, TreeOk, LevelsOk, CallsExact, StackExact, Untrack, OwnsSmall, Position, RemoveSmall;
    TopFacts(g);
    ExactTop(g);
    var v := ViewAt(g.tree, Cursor(g));
    var s := v.tables.smallRanges;
    var v' := View(DropSmall(v.tables, offset), Untrack(v.tracked, s[Position(s, offset)].allocation));
    RecordExtends(g, FreeSmall(offset), v');
    var bytes := g.tables.smallRanges[Position(g.tables.smallRanges, offset)].bytes;
    RecordedExact(g, FreeSmall(offset), v', DropSmall(g.tables, offset), g.used - bytes,
                  WithoutAt(g.client[|g.client| - 1], true, offset));
  }

  lemma {:induction false} EndedExact(g: Graph)
    requires Inv(g) && Exact(g) && g.stack != [] && Top(g).recording
    ensures |g.client| == |g.stack| && Cursor(g) < |g.tree.nodes| == |g.tree.notes|
    ensures Exact(Ended(g))
  {
    hide Inv, TreeOk, LevelsOk, CallsExact, StackExact;
    TopFacts(g);
    ExactTop(g);
    RecordExtends(g, End, ViewAt(g.tree, Cursor(g)));
    RecordedExact(g, End, ViewAt(g.tree, Cursor(g)), g.tables, g.used, g.client[|g.client| - 1]);
  }

  lemma {:induction false} MoveExact(g: Graph, n: NodeId, held: set<Block>)
    requires Inv(g) && Exact(g) && g.stack != [] && !Top(g).recording
    requires Cursor(g) < |g.tree.nodes| && n in g.tree.nodes[Cursor(g)].next && |g.client| == |g.stack|
    ensures Exact(MoveTo(g, n, held))
  {
    hide Inv, TreeOk, LevelsOk, LevelExact, CallsExact;
    TopFacts(g);
    InvTree(g);
    ChildNote(g.tree, g.vaPhys, g.smallSize, Cursor(g), n);
    StackExactTop(g.tree, g.stack, Top(g).(cursor := n));
    var g' := MoveTo(g, n, held);
    forall j: nat | Innermost(g'.stack, j)
      ensures g'.stack[j].cursor < |g.tree.notes| && g.tables == ViewAt(g.tree, g'.stack[j].cursor).tables
    {
      assert j < |g.stack| - 1 && g'.stack[j] == g.stack[j];
      assert forall k | j < k < |g.stack| :: g'.stack[k].recording == g.stack[k].recording;
      assert Innermost(g.stack, j);
    }
  }

  /** A break makes the working tables true again, whatever they were. */
  lemma {:induction false} StartedExact(g: Graph)
    requires Inv(g) && CallsExact(g.tree) && StackExact(g.tree, g.stack) && g.stack != [] && Cursor(g) < |g.tree.notes|
    ensures Exact(Started(g))
  {
    hide Inv, TreeOk, LevelsOk, LevelExact, CallsExact;
    TopFacts(g);
    StackExactTop(g.tree, g.stack, Top(Started(g)));
  }

  lemma {:induction false} PushedExact(g: Graph, s: NodeId, recording: bool)
    requires |g.tree.notes| == |g.tree.nodes| && Exact(g) && s < |g.tree.notes| && g.tree.notes[s].scope == s
    requires g.stack != [] ==>
               Cursor(g) < |g.tree.notes| && ViewAt(g.tree, s).tables == ViewAt(g.tree, Cursor(g)).tables
    requires recording ==> ViewAt(g.tree, s).tables == g.tables
    ensures Exact(Pushed(g, s, recording))
  {
    var g' := Pushed(g, s, recording);
    forall i | 0 < i < |g'.stack|
      ensures LevelExact(g'.tree, g'.stack, i)
    {
      if i < |g.stack| { assert LevelExact(g.tree, g.stack, i); }
    }
    forall j: nat | Innermost(g'.stack, j)
      ensures g'.stack[j].cursor < |g.tree.notes| && g.tables == ViewAt(g.tree, g'.stack[j].cursor).tables
    {
      assert forall k | 0 <= k < |g.stack| :: g'.stack[k] == g.stack[k];
      if j < |g.stack| { assert Innermost(g.stack, j); }
    }
  }

  lemma {:induction false} PushReplayExact(g: Graph, call: NodeId)
    requires Inv(g) && Exact(g) && g.stack != [] && Cursor(g) < |g.tree.nodes|
    requires call in g.tree.nodes[Cursor(g)].next && call < |g.tree.nodes| && g.tree.nodes[call].event.Call?
    ensures Exact(Pushed(g, g.tree.nodes[call].event.scope, false))
  {
    var s := g.tree.nodes[call].event.scope;
    ChildNote(g.tree, g.vaPhys, g.smallSize, Cursor(g), call);
    ScopeNote(g.tree, g.vaPhys, g.smallSize, s);
    assert CallExact(g.tree, call);
    PushedExact(g, s, false);
  }

  lemma {:induction false} PushRootExact(g: Graph)
    requires Inv(g) && Exact(g) && g.stack == []
    ensures Exact(Pushed(g, 0, false))
  {
    hide TreeOk, CallsExact, StackExact;
    PushedExact(g, 0, false);
  }

  lemma {:induction false} NewScopeExact(g: Graph, name: string)
    requires Inv(g) && Exact(g) && g.stack != [] && Top(g).recording
    ensures Cursor(g) < |g.tree.nodes| == |g.tree.notes|
    ensures Exact(NewScope(g, name))
  {
    hide Inv, TreeOk, LevelsOk, LevelExact, NextOk;
    TopFacts(g);
    ExactTop(g);
    InvTree(g);
    NextOfTree(g.tree, g.vaPhys, g.smallSize);
    NewScopeTree(g, name);
    var c, s := Cursor(g), |g.tree.nodes|;
    var t := AddScope(g.tree, g.tables, |g.stack| + 1);
    AddScopeExtends(g.tree, g.tables, |g.stack| + 1);
    forall n | 0 <= n < |t.nodes| && t.nodes[n].event.Call?
      ensures CallExact(t, n)
    {
      assert CallExact(g.tree, n);
    }
    CallsExactAppend(t, c, Call(name, s), t.notes[c]);
    StackExactExtends(g.tree, NewScope(g, name).tree, g.stack);
  }

  lemma {:induction false} PushNewExact(g: Graph, name: string)
    requires Inv(g) && Exact(g) && g.stack != [] && Top(g).recording
    ensures Cursor(g) < |g.tree.nodes| == |g.tree.notes|
    ensures Exact(Pushed(NewScope(g, name), |g.tree.nodes|, true))
  {
    hide TreeOk, LevelsOk, CallsExact, StackExact, TablesOk, EntriesOk, CoversRecording, PeakOk, MapOk;
    TopFacts(g);
    ExactTop(g);
    NewScopeExact(g, name);
    NewScopeTree(g, name);
    PushedExact(NewScope(g, name), |g.tree.nodes|, true);
  }

  // ---------------------------------------------------------------- closing a scope

  /** Level `j` is the innermost recording one below the top, and every scope between holds nothing of its own. */
  predicate HeldBetween(stack: seq<State>, client: seq<set<Block>>, j: nat)
    requires |client| == |stack|
  {
    exists k | j < k < |stack| - 1 :: client[k] != {}
  }

  /**
   When closing the top scope leaves the enclosing recording scope with its own
   tables: the top never broke, or no scope around it records, or the replaying
   scopes in between hold nothing.
   */
  ghost predicate NeutralPop(g: Graph)
    requires g.stack != [] && |g.client| == |g.stack|
  {
    Top(g).recording ==> ClearBelow(g)
  }

  ghost predicate ClearBelow(g: Graph)
    requires g.stack != [] && |g.client| == |g.stack|
  {
    forall j: nat | Innermost(g.stack[..|g.stack| - 1], j) :: !HeldBetween(g.stack, g.client, j)
  }

  lemma {:induction false} EmptyLevel(g: Graph, k: nat)
    requires Inv(g) && Exact(g) && 0 < k < |g.stack| && |g.client| == |g.stack| && g.client[k] == {}
    ensures g.stack[k].cursor < |g.tree.notes| && g.stack[k - 1].cursor < |g.tree.notes|
    ensures ViewAt(g.tree, g.stack[k].cursor).tables == ViewAt(g.tree, g.stack[k - 1].cursor).tables
  {
    var t, n := g.tree, g.stack[k].cursor;
    LevelBounds(t, g.stack, g.client, k);
    assert LevelExact(t, g.stack, k);
    ViewFacts(t, g.vaPhys, g.smallSize, n);
    ViewFacts(t, g.vaPhys, g.smallSize, t.notes[n].scope);
    TrackedBound(t, g.vaPhys, g.smallSize, n);
    NothingTracked(t.nodes, ViewAt(t, n).tracked);
    ScopeNeutral(t.nodes, BaseAt(t, n), ViewAt(t, n), g.vaPhys, g.smallSize);
  }

  lemma {:induction false} SomethingTracked(nodes: seq<Node>, tracked: seq<NodeId>)
    requires tracked != [] && forall id | id in tracked :: id < |nodes|
    ensures Blocks(nodes, tracked) != {}
  {
    assert tracked[0] in tracked;
    assert BlockOf(nodes[tracked[0]].event) in Blocks(nodes, tracked);
  }

  lemma {:induction false} NothingTracked(nodes: seq<Node>, tracked: seq<NodeId>)
    requires Blocks(nodes, tracked) == {} && forall id | id in tracked :: id < |nodes|
    ensures tracked == []
  {
    if tracked != [] { SomethingTracked(nodes, tracked); }
  }

  lemma {:induction false} EmptyLevels(g: Graph, j: nat, k: nat)
    requires Inv(g) && Exact(g) && j <= k < |g.stack| && |g.client| == |g.stack|
    requires forall i | j < i <= k :: g.client[i] == {}
    ensures g.stack[k].cursor < |g.tree.notes| && g.stack[j].cursor < |g.tree.notes|
    ensures ViewAt(g.tree, g.stack[k].cursor).tables == ViewAt(g.tree, g.stack[j].cursor).tables
    decreases k
  {
    if j < k {
      EmptyLevel(g, k);
      EmptyLevels(g, j, k - 1);
    } else {
      LevelBounds(g.tree, g.stack, g.client, k);
    }
  }

  /** What a scope itself holds was not live in any scope around it. */
  lemma {:induction false} HeldIsNew(g: Graph, j: nat, k: nat, b: Block)
    requires Inv(g) && j < k < |g.stack| == |g.client| && b in g.client[k]
    ensures g.stack[|g.stack| - 1].cursor < |g.tree.notes| && g.stack[j].cursor < |g.tree.notes|
    ensures ViewAt(g.tree, g.stack[|g.stack| - 1].cursor).tables != ViewAt(g.tree, g.stack[j].cursor).tables
  {
    hide TablesOk, EntriesOk, ScopeView, LiveIn, Includes, CoversRecording, PeakOk;
    var t, top := g.tree, |g.stack| - 1;
    var id := ClientNode(g, k, b);
    var v := ViewAt(t, g.stack[k].cursor);
    ChainIncludes(t, g.vaPhys, g.smallSize, g.stack, g.client, k, top);
    ChainIncludes(t, g.vaPhys, g.smallSize, g.stack, g.client, j, k);
    ViewFacts(t, g.vaPhys, g.smallSize, g.stack[k].cursor);
    LiveInIncludes(t.nodes, ViewAt(t, g.stack[top].cursor).tables, v.tables, id);
    NotInBase(t.nodes, BaseAt(t, g.stack[k].cursor), v, ViewAt(t, g.stack[j].cursor).tables, id);
  }

  lemma {:induction false} NotInBase(nodes: seq<Node>, base: Tables, v: View, below: Tables, id: NodeId)
    requires ScopeView(nodes, base, v) && Includes(base, below) && id in v.tracked
    ensures !LiveIn(nodes, below, id)
  {
  }

  lemma {:induction false} PopStackExact(g: Graph)
    requires Exact(g) && g.stack != [] && |g.client| == |g.stack|
    ensures StackExact(Popped(g).tree, Popped(g).stack)
  {
    forall i | 0 < i < |g.stack| - 1
      ensures LevelExact(g.tree, Popped(g).stack, i)
    {
      assert LevelExact(g.tree, g.stack, i);
    }
  }

  lemma {:induction false} PopReplaying(g: Graph)
    requires Inv(g) && Exact(g) && g.stack != [] && |g.client| == |g.stack| && !Top(g).recording
    ensures Exact(Popped(g))
  {
    hide Inv, TreeOk, CallsExact;
    PopStackExact(g);
    forall j: nat | Innermost(Popped(g).stack, j)
      ensures g.stack[j].cursor < |g.tree.notes| && g.tables == ViewAt(g.tree, g.stack[j].cursor).tables
    {
      assert forall k | 0 <= k < |g.stack| - 1 :: Popped(g).stack[k] == g.stack[k];
      assert Innermost(g.stack, j);
    }
  }

  lemma {:induction false} PopRecording(g: Graph, j: nat)
    requires Inv(g) && Exact(g) && g.stack != [] && |g.client| == |g.stack| && Top(g).recording
    requires g.client[|g.client| - 1] == {} && j < |g.stack| - 1
    ensures g.stack[j].cursor < |g.tree.notes|
    ensures g.tables == ViewAt(g.tree, g.stack[j].cursor).tables <==> !HeldBetween(g.stack, g.client, j)
  {
    hide Inv, Exact, TablesOk, TreeOk;
    ExactTop(g);
    InvTree(g);
    LevelBounds(g.tree, g.stack, g.client, j);
    if HeldBetween(g.stack, g.client, j) {
      var k :| j < k < |g.stack| - 1 && g.client[k] != {};
      var b :| b in g.client[k];
      HeldIsNew(g, j, k, b);
    } else {
      EmptyLevels(g, j, |g.stack| - 1);
    }
  }

  /**
   Scope neutrality, with its exact condition.  Closing a scope that holds nothing
   leaves an exact state exactly when no replaying scope between it and the nearest
   recording scope holds a block, or the closed scope itself never left its recording.
   */
  lemma {:induction false} PopExactIff(g: Graph)
    requires Inv(g) && Exact(g) && g.stack != [] && |g.client| == |g.stack|
    requires g.client[|g.client| - 1] == {}
    ensures Exact(Popped(g)) <==> NeutralPop(g)
  {
    hide Inv, CallsExact, StackExact, HeldBetween;
    if !Top(g).recording {
      PopReplaying(g);
    } else {
      PopStackExact(g);
      var below := g.stack[..|g.stack| - 1];
      forall j: nat | Innermost(below, j)
        ensures g.stack[j].cursor < |g.tree.notes|
        ensures g.tables == ViewAt(g.tree, below[j].cursor).tables <==> !HeldBetween(g.stack, g.client, j)
      {
        PopRecording(g, j);
      }
      if NeutralPop(g) { assert TablesExact(g.tree, below, g.tables); }
    }
  }
}
