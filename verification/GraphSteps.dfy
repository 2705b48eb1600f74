/**
 The operations on a malloc graph as functions on its state, and the proof that
 each of them keeps the invariant of `GraphRun`.
 */
module GraphSteps {
  import opened Basics
  import opened GraphTables
  import opened GraphTree
  import opened GraphRun

  // ---------------------------------------------------------------- memory grows

  /** New virtual pages at the end of the map, new room at the end of the small heap. */
  function Grown(g: Graph, vaPhys: seq<nat>, physCount: nat, smallSize: nat): Graph {
    g.(vaPhys := vaPhys, physCount := physCount, smallSize := smallSize)
  }

  lemma {:induction false} GrownTree(t: Tree, vaPhys: seq<nat>, vaPhys': seq<nat>, smallSize: nat, smallSize': nat)
    requires TreeOk(t, vaPhys, smallSize) && vaPhys <= vaPhys' && smallSize <= smallSize'
    ensures TreeOk(t, vaPhys', smallSize')
  {
    TreeOkMono(t, t, vaPhys, vaPhys', smallSize, smallSize');
  }

  lemma {:induction false} GrownInv(g: Graph, vaPhys: seq<nat>, physCount: nat, smallSize: nat)
    requires Inv(g)
    requires g.vaPhys <= vaPhys && g.smallSize <= smallSize
    requires MapOk(vaPhys, physCount, smallSize)
    ensures Inv(Grown(g, vaPhys, physCount, smallSize))
  {
    GrownTree(g.tree, g.vaPhys, vaPhys, g.smallSize, smallSize);
    TablesOkGrow(g.tables, g.vaPhys, vaPhys, g.smallSize, smallSize);
  }

  // ---------------------------------------------------------------- recording one event

  /** `event`: append below the cursor and move the cursor there. */
  function Recorded(g: Graph, e: Event, v: View, tables: Tables, used: nat, held: set<Block>): Graph
    requires g.stack != [] && g.client != []
    requires Cursor(g) < |g.tree.nodes| == |g.tree.notes|
  {
    var c := Cursor(g);
    g.(tree := Append(g.tree, c, e, Note(v, g.tree.notes[c].depth, g.tree.notes[c].scope)),
       stack := SetTop(g.stack, Top(g).(cursor := |g.tree.nodes|, tracked := v.tracked)),
       tables := tables,
       used := used,
       peakUsed := Max(g.peakUsed, used),
       client := SetTop(g.client, held))
  }

  /** What a recorded event has to satisfy for the invariant to survive. */
  ghost predicate EventOk(g: Graph, e: Event, v: View, tables: Tables, held: set<Block>)
    requires g.stack != [] && Cursor(g) < |g.tree.nodes| == |g.tree.notes|
    requires g.tree.notes[Cursor(g)].scope < |g.tree.notes|
  {
    var c := Cursor(g);
    var nodes' := Append(g.tree, c, e, Note(v, g.tree.notes[c].depth, g.tree.notes[c].scope)).nodes;
    && AppendOk(g.tree, g.vaPhys, g.smallSize, c, e, v)
    && TablesOk(tables, g.vaPhys, g.smallSize)
    && EntriesOk(nodes', tables)
    && Includes(tables, v.tables)
    && held == Blocks(nodes', v.tracked)
  }

  lemma {:induction false} BlocksMono(nodes: seq<Node>, nodes': seq<Node>, tracked: seq<NodeId>)
    requires SameEvents(nodes, nodes')
    requires forall id | id in tracked :: id < |nodes|
    ensures Blocks(nodes', tracked) == Blocks(nodes, tracked)
  {
  }

  lemma {:induction false} TrackedBound(t: Tree, vaPhys: seq<nat>, smallSize: nat, n: NodeId)
    requires TreeOk(t, vaPhys, smallSize) && n < |t.nodes|
    ensures |t.notes| == |t.nodes|
    ensures forall id | id in ViewAt(t, n).tracked :: id < |t.nodes|
  {
    ViewFacts(t, vaPhys, smallSize, n);
    forall id | id in ViewAt(t, n).tracked
      ensures id < |t.nodes|
    {
      assert LiveIn(t.nodes, ViewAt(t, n).tables, id);
    }
  }

  /** An open scope whose own state did not change does not notice that the tree grew. */
  lemma {:induction false} LevelMono(t: Tree, vaPhys: seq<nat>, smallSize: nat, stack: seq<State>,
                                     client: seq<set<Block>>, t': Tree, stack': seq<State>, client': seq<set<Block>>,
                                     i: nat)
    requires TreeOk(t, vaPhys, smallSize) && LevelsOk(t, stack, client) && Extends(t, t') && i < |stack|
    requires |stack'| == |client'| && i < |stack'|
    requires stack'[i] == stack[i] && client'[i] == client[i]
    requires i > 0 ==> stack'[i - 1] == stack[i - 1]
    ensures LevelOk(t', stack', client', i)
  {
    LevelBounds(t, stack, client, i);
    if i > 0 { LevelStep(t, stack, client, i); }
    TrackedBound(t, vaPhys, smallSize, stack[i].cursor);
    BlocksMono(t.nodes, t'.nodes, ViewAt(t, stack[i].cursor).tracked);
  }

  lemma {:induction false} RecordedLevels(g: Graph, e: Event, v: View, tables: Tables, used: nat, held: set<Block>)
    requires TreeOk(g.tree, g.vaPhys, g.smallSize) && LevelsOk(g.tree, g.stack, g.client) && g.stack != [] &&
             Top(g).recording
    requires Cursor(g) < |g.tree.nodes| && g.tree.notes[Cursor(g)].scope < |g.tree.notes|
    requires Extends(g.tree, Recorded(g, e, v, tables, used, held).tree)
    requires held == Blocks(Recorded(g, e, v, tables, used, held).tree.nodes, v.tracked)
    ensures var g' := Recorded(g, e, v, tables, used, held); LevelsOk(g'.tree, g'.stack, g'.client)
  {
    var g' := Recorded(g, e, v, tables, used, held);
    var top := |g.stack| - 1;
    LevelBounds(g.tree, g.stack, g.client, top);
    if top > 0 { LevelStep(g.tree, g.stack, g.client, top); }
    assert BaseAt(g'.tree, |g.tree.nodes|) == BaseAt(g.tree, Cursor(g));
    assert LevelOk(g'.tree, g'.stack, g'.client, top);
    forall i | 0 <= i < top
      ensures LevelOk(g'.tree, g'.stack, g'.client, i)
    {
      LevelMono(g.tree, g.vaPhys, g.smallSize, g.stack, g.client, g'.tree, g'.stack, g'.client, i);
    }
  }

  /** Whatever contains the base of the top scope contains the view of every scope below it. */
  lemma {:induction false} BelowTop(g: Graph, tables: Tables, i: nat)
    requires TreeOk(g.tree, g.vaPhys, g.smallSize) && LevelsOk(g.tree, g.stack, g.client) && i + 1 < |g.stack|
    requires Cursor(g) < |g.tree.notes| && g.tree.notes[Cursor(g)].scope < |g.tree.notes|
    requires Includes(tables, BaseAt(g.tree, Cursor(g)))
    ensures g.stack[i].cursor < |g.tree.notes|
    ensures Includes(tables, ViewAt(g.tree, g.stack[i].cursor).tables)
  {
    ChainIncludes(g.tree, g.vaPhys, g.smallSize, g.stack, g.client, i, |g.stack| - 1);
    IncludesTransitive(tables, BaseAt(g.tree, Cursor(g)), ViewAt(g.tree, g.stack[i].cursor).tables);
  }

  lemma {:induction false} RecordedCovers(g: Graph, e: Event, v: View, tables: Tables, used: nat, held: set<Block>)
    requires TreeOk(g.tree, g.vaPhys, g.smallSize) && LevelsOk(g.tree, g.stack, g.client) && g.stack != []
    requires Cursor(g) < |g.tree.nodes| && g.tree.notes[Cursor(g)].scope < |g.tree.notes|
    requires Includes(tables, v.tables) && Includes(v.tables, BaseAt(g.tree, Cursor(g)))
    ensures var g' := Recorded(g, e, v, tables, used, held); CoversRecording(g'.tree, g'.stack, tables)
  {
    var g' := Recorded(g, e, v, tables, used, held);
    forall i | 0 <= i < |g'.stack| && g'.stack[i].recording && g'.stack[i].cursor < |g'.tree.notes|
      ensures Includes(tables, ViewAt(g'.tree, g'.stack[i].cursor).tables)
    {
      if i < |g.stack| - 1 {
        IncludesTransitive(tables, v.tables, BaseAt(g.tree, Cursor(g)));
        BelowTop(g, tables, i);
      }
    }
  }

  lemma {:induction false} AppendPeakRoot(t: Tree, c: NodeId, e: Event, note: Note, peak: nat, peak': nat)
    requires |t.notes| == |t.nodes| && c < |t.nodes| && PeakOk(t, peak) && RootFirst(t)
    requires peak <= peak' && Total(note.view.tables) <= peak'
    ensures PeakOk(Append(t, c, e, note), peak') && RootFirst(Append(t, c, e, note))
  {
    var t' := Append(t, c, e, note);
    forall n | 0 <= n < |t'.notes|
      ensures Total(ViewAt(t', n).tables) <= peak'
    {
      if n < |t.notes| { assert ViewAt(t', n) == ViewAt(t, n); }
    }
  }

  lemma {:induction false} RecordedInv(g: Graph, e: Event, v: View, tables: Tables, used: nat, held: set<Block>)
    requires Inv(g) && g.stack != [] && Top(g).recording
    requires Cursor(g) < |g.tree.nodes| && g.tree.notes[Cursor(g)].scope < |g.tree.notes|
    requires EventOk(g, e, v, tables, held)
    requires used == Total(tables)
    ensures Inv(Recorded(g, e, v, tables, used, held))
  {
    var c := Cursor(g);
    AppendFacts(g.tree, g.vaPhys, g.smallSize, c, e, v);
    AppendTreeOk(g.tree, g.vaPhys, g.smallSize, c, e, v);
    hide TreeOk, Includes, TablesOk, EntriesOk, AppendOk;
    RecordedLevels(g, e, v, tables, used, held);
    RecordedCovers(g, e, v, tables, used, held);
    hide LevelsOk, CoversRecording;
    IncludesTotal(tables, v.tables, g.vaPhys, g.smallSize);
    AppendPeakRoot(g.tree, c, e, Note(v, g.tree.notes[c].depth, g.tree.notes[c].scope), g.peakUsed,
                   Max(g.peakUsed, used));
  }

  // ---------------------------------------------------------------- the client's own list

  lemma {:induction false} BlocksAlloc(nodes: seq<Node>, nodes': seq<Node>, tracked: seq<NodeId>, id: NodeId)
    requires SameEvents(nodes, nodes') && id < |nodes'|
    requires forall q | q in tracked :: q < |nodes|
    ensures Blocks(nodes', [id] + tracked) == Blocks(nodes, tracked) + {BlockOf(nodes'[id].event)}
  {
  }

  /** In a view, one tracked node at most starts at a given place. */
  lemma {:induction false} OneAt(nodes: seq<Node>, v: View, id: NodeId, q: NodeId, small: bool, value: nat)
    requires EntriesOk(nodes, v.tables) && SmallSorted(v.tables.smallRanges)
    requires id < |nodes| && q < |nodes|
    requires LiveIn(nodes, v.tables, id) && LiveIn(nodes, v.tables, q)
    requires At(BlockOf(nodes[id].event), small, value) && At(BlockOf(nodes[q].event), small, value)
    ensures id == q
  {
    if small {
      var r :| r in v.tables.smallRanges && r.allocation == id;
      var p :| p in v.tables.smallRanges && p.allocation == q;
      assert SmallEntry(nodes, r) && SmallEntry(nodes, p);
      SmallByOffset(v.tables.smallRanges, r);
      SmallByOffset(v.tables.smallRanges, p);
    }
  }

  lemma {:induction false} BlocksFree(nodes: seq<Node>, v: View, id: NodeId, small: bool, value: nat)
    requires EntriesOk(nodes, v.tables) && SmallSorted(v.tables.smallRanges)
    requires NoDuplicates(v.tracked) && (forall q | q in v.tracked :: LiveIn(nodes, v.tables, q))
    requires id in v.tracked && id < |nodes| && At(BlockOf(nodes[id].event), small, value)
    ensures Blocks(nodes, Untrack(v.tracked, id)) == WithoutAt(Blocks(nodes, v.tracked), small, value)
  {
    UntrackMembers(v.tracked, id);
    assert LiveIn(nodes, v.tables, id);
    forall q | q in v.tracked && q != id
      ensures q < |nodes| && !At(BlockOf(nodes[q].event), small, value)
    {
      assert LiveIn(nodes, v.tables, q);
      if At(BlockOf(nodes[q].event), small, value) { OneAt(nodes, v, id, q, small, value); }
    }
  }

  // ---------------------------------------------------------------- replaying one event

  /** Follow a child of the cursor; nothing is recomputed. */
  function MoveTo(g: Graph, n: NodeId, held: set<Block>): Graph
    requires g.stack != [] && g.client != []
  {
    g.(stack := SetTop(g.stack, Top(g).(cursor := n)), client := SetTop(g.client, held))
  }

  lemma {:induction false} ChildNote(t: Tree, vaPhys: seq<nat>, smallSize: nat, c: NodeId, n: NodeId)
    requires TreeOk(t, vaPhys, smallSize) && c < |t.nodes| && n in t.nodes[c].next
    ensures c < n < |t.nodes| == |t.notes| && t.nodes[n].previous == c && t.nodes[n].snapshot.None?
    ensures t.notes[n].scope == t.notes[c].scope < |t.notes| && t.notes[n].depth == t.notes[c].depth
    ensures InnerOk(t, vaPhys, n)
  {
    var i :| 0 <= i < |t.nodes[c].next| && t.nodes[c].next[i] == n;
    assert ChildOk(t.nodes, c, t.nodes[c].next[i]);
    assert NodeOk(t, vaPhys, smallSize, n) && NodeOk(t, vaPhys, smallSize, c);
  }

  lemma {:induction false} MoveLevels(g: Graph, n: NodeId, held: set<Block>)
    requires LevelsOk(g.tree, g.stack, g.client) && g.stack != [] && !Top(g).recording
    requires n < |g.tree.nodes| && Cursor(g) < |g.tree.notes|
    requires g.tree.notes[n].scope == g.tree.notes[Cursor(g)].scope &&
             g.tree.notes[n].depth == g.tree.notes[Cursor(g)].depth
    requires held == Blocks(g.tree.nodes, ViewAt(g.tree, n).tracked)
    ensures var g' := MoveTo(g, n, held); LevelsOk(g'.tree, g'.stack, g'.client)
    ensures var g' := MoveTo(g, n, held); CoversRecording(g.tree, g.stack, g.tables) ==>
              CoversRecording(g'.tree, g'.stack, g'.tables)
  {
    var g' := MoveTo(g, n, held);
    var top := |g.stack| - 1;
    LevelBounds(g.tree, g.stack, g.client, top);
    if top > 0 { LevelStep(g.tree, g.stack, g.client, top); }
    forall i | 0 <= i < |g'.stack|
      ensures LevelOk(g'.tree, g'.stack, g'.client, i)
    {
      assert LevelOk(g.tree, g.stack, g.client, i);
    }
  }

  lemma {:induction false} MoveInv(g: Graph, n: NodeId, held: set<Block>)
    requires Inv(g) && g.stack != [] && !Top(g).recording
    requires Cursor(g) < |g.tree.nodes| && n in g.tree.nodes[Cursor(g)].next && n < |g.tree.notes|
    requires held == Blocks(g.tree.nodes, ViewAt(g.tree, n).tracked)
    ensures Inv(MoveTo(g, n, held))
  {
    ChildNote(g.tree, g.vaPhys, g.smallSize, Cursor(g), n);
    hide TreeOk, TablesOk, EntriesOk;
    MoveLevels(g, n, held);
  }

  // ---------------------------------------------------------------- leaving the recorded path

  /** `start_recording`: rebuild the state of the cursor and record from there. */
  function Started(g: Graph): Graph
    requires g.stack != [] && Cursor(g) < |g.tree.notes|
  {
    var v := ViewAt(g.tree, Cursor(g));
    g.(tables := v.tables,
       used := Total(v.tables),
       stack := SetTop(g.stack, Top(g).(tracked := v.tracked, recording := true, broken := true)))
  }

  lemma {:induction false} StartedLevels(g: Graph)
    requires LevelsOk(g.tree, g.stack, g.client) && g.stack != [] && Cursor(g) < |g.tree.notes|
    ensures var g' := Started(g); LevelsOk(g'.tree, g'.stack, g'.client)
  {
    var g' := Started(g);
    forall i | 0 <= i < |g'.stack|
      ensures LevelOk(g'.tree, g'.stack, g'.client, i)
    {
      assert LevelOk(g.tree, g.stack, g.client, i);
    }
  }

  lemma {:induction false} StartedCovers(g: Graph)
    requires TreeOk(g.tree, g.vaPhys, g.smallSize) && LevelsOk(g.tree, g.stack, g.client) && g.stack != []
    requires Cursor(g) < |g.tree.notes|
    ensures var g' := Started(g); CoversRecording(g'.tree, g'.stack, g'.tables)
  {
    var g' := Started(g);
    forall i | 0 <= i < |g'.stack| && g'.stack[i].recording && g'.stack[i].cursor < |g'.tree.notes|
      ensures Includes(g'.tables, ViewAt(g'.tree, g'.stack[i].cursor).tables)
    {
      ChainIncludes(g.tree, g.vaPhys, g.smallSize, g.stack, g.client, i, |g.stack| - 1);
    }
  }

  lemma {:induction false} StartedInv(g: Graph)
    requires Inv(g) && g.stack != [] && Cursor(g) < |g.tree.notes|
    ensures Inv(Started(g))
  {
    StartedLevels(g);
    StartedCovers(g);
    ViewFacts(g.tree, g.vaPhys, g.smallSize, Cursor(g));
    hide TreeOk, TablesOk, LevelsOk, EntriesOk, CoversRecording;
    assert Total(ViewAt(g.tree, Cursor(g)).tables) <= g.peakUsed;
  }

  // ---------------------------------------------------------------- scopes

  function Pushed(g: Graph, scope: NodeId, recording: bool): Graph {
    g.(stack := g.stack + [State(scope, [], |g.stack| + 1, recording, false)], client := g.client + [{}])
  }

  lemma {:induction false} PushedLevels(g: Graph, scope: NodeId, recording: bool)
    requires LevelsOk(g.tree, g.stack, g.client)
    requires scope < |g.tree.notes| && g.tree.notes[scope].scope == scope && g.tree.notes[scope].depth == |g.stack| + 1
    requires ViewAt(g.tree, scope).tracked == []
    requires g.stack != [] ==>
               Cursor(g) < |g.tree.notes| && Includes(ViewAt(g.tree, scope).tables, ViewAt(g.tree, Cursor(g)).tables)
    ensures var g' := Pushed(g, scope, recording); LevelsOk(g'.tree, g'.stack, g'.client)
    ensures CoversRecording(g.tree, g.stack, g.tables) && (recording ==> ViewAt(g.tree, scope).tables == g.tables) ==>
              var g' := Pushed(g, scope, recording); CoversRecording(g'.tree, g'.stack, g'.tables)
  {
    var g' := Pushed(g, scope, recording);
    forall i | 0 <= i < |g'.stack|
      ensures LevelOk(g'.tree, g'.stack, g'.client, i)
    {
      if i < |g.stack| { assert LevelOk(g.tree, g.stack, g.client, i); }
    }
  }

  lemma {:induction false} ScopeNote(t: Tree, vaPhys: seq<nat>, smallSize: nat, s: NodeId)
    requires TreeOk(t, vaPhys, smallSize) && s < |t.nodes| && t.nodes[s].snapshot.Some?
    ensures |t.notes| == |t.nodes|
    ensures t.notes[s].scope == s && t.notes[s].view == View(t.nodes[s].snapshot.value, [])
  {
    assert NodeOk(t, vaPhys, smallSize, s);
  }

  /** Entering a scope that was recorded before, at a call below the cursor. */
  lemma {:induction false} PushReplayInv(g: Graph, call: NodeId)
    requires Inv(g) && g.stack != [] && Cursor(g) < |g.tree.nodes|
    requires call in g.tree.nodes[Cursor(g)].next && call < |g.tree.nodes| && g.tree.nodes[call].event.Call?
    ensures Inv(Pushed(g, g.tree.nodes[call].event.scope, false))
  {
    var s := g.tree.nodes[call].event.scope;
    ChildNote(g.tree, g.vaPhys, g.smallSize, Cursor(g), call);
    ScopeNote(g.tree, g.vaPhys, g.smallSize, s);
    LevelBounds(g.tree, g.stack, g.client, |g.stack| - 1);
    hide TreeOk, TablesOk, EntriesOk, Includes;
    PushedLevels(g, s, false);
  }

  /** Replaying a complete graph from its root. */
  lemma {:induction false} PushRootInv(g: Graph)
    requires Inv(g) && g.stack == []
    ensures Inv(Pushed(g, 0, false))
  {
    hide TreeOk, TablesOk, EntriesOk, Includes;
    PushedLevels(g, 0, false);
  }

  /** A new named scope below the cursor, entered with the current tables. */
  function NewScope(g: Graph, name: string): Graph
    requires g.stack != [] && Cursor(g) < |g.tree.nodes| == |g.tree.notes|
  {
    var c, s := Cursor(g), |g.tree.nodes|;
    var t := AddScope(g.tree, g.tables, |g.stack| + 1);
    g.(tree := Append(t, c, Call(name, s), t.notes[c]))
  }

  lemma {:induction false} ViewOkMono(nodes: seq<Node>, nodes': seq<Node>, base: Tables, v: View, depth: nat,
                                      vaPhys: seq<nat>, smallSize: nat)
    requires SameEvents(nodes, nodes') && ViewOk(nodes, base, v, depth, vaPhys, smallSize)
    ensures ViewOk(nodes', base, v, depth, vaPhys, smallSize)
  {
    EntriesOkMono(nodes, nodes', v.tables);
    ScopeViewMono(nodes, nodes', base, v);
  }

  lemma {:induction false} CallAppendOk(t: Tree, vaPhys: seq<nat>, smallSize: nat, c: NodeId, e: Event)
    requires TreeOk(t, vaPhys, smallSize) && c < |t.nodes| && e.Call? &&
             CallOk(t, Node(e, c, [], None), t.notes[c].depth)
    ensures t.notes[c].scope < |t.notes|
    ensures AppendOk(t, vaPhys, smallSize, c, e, ViewAt(t, c))
  {
    ViewFacts(t, vaPhys, smallSize, c);
    AppendExtends(t, c, e, t.notes[c]);
    ViewOkMono(t.nodes, Append(t, c, e, t.notes[c]).nodes, BaseAt(t, c), ViewAt(t, c), t.notes[c].depth, vaPhys,
               smallSize);
  }

  lemma {:induction false} NextOfTree(t: Tree, vaPhys: seq<nat>, smallSize: nat)
    requires TreeOk(t, vaPhys, smallSize)
    ensures |t.notes| == |t.nodes| && NextOk(t.nodes)
  {
  }

  lemma {:induction false} NewScopeTree(g: Graph, name: string)
    requires Inv(g) && g.stack != [] && Cursor(g) < |g.tree.nodes| && Top(g).recording
    ensures var t' := NewScope(g, name).tree; TreeOk(t', g.vaPhys, g.smallSize) && Extends(g.tree, t')
    ensures var t' := NewScope(g, name).tree;
            && |t'.notes| == |g.tree.notes| + 2
            && t'.notes[|g.tree.notes|] == Note(View(g.tables, []), |g.stack| + 1, |g.tree.notes|)
            && t'.notes[|g.tree.notes| + 1] == g.tree.notes[Cursor(g)]
  {
    hide TreeOk, TablesOk, EntriesOk, Includes, AppendOk, ViewOk, PeakOk, MapOk, NextOk;
    var c, s := Cursor(g), |g.tree.nodes|;
    var t := AddScope(g.tree, g.tables, |g.stack| + 1);
    LevelBounds(g.tree, g.stack, g.client, |g.stack| - 1);
    NextOfTree(g.tree, g.vaPhys, g.smallSize);
    AddScopeOk(g.tree, g.vaPhys, g.smallSize, g.tables, |g.stack| + 1);
    AddScopeExtends(g.tree, g.tables, |g.stack| + 1);
    CallAppendOk(t, g.vaPhys, g.smallSize, c, Call(name, s));
    AppendTreeOk(t, g.vaPhys, g.smallSize, c, Call(name, s), ViewAt(t, c));
  }

  lemma {:induction false} LevelsMono(g: Graph, t': Tree)
    requires TreeOk(g.tree, g.vaPhys, g.smallSize) && LevelsOk(g.tree, g.stack, g.client) && Extends(g.tree, t')
    ensures LevelsOk(t', g.stack, g.client)
    ensures CoversRecording(g.tree, g.stack, g.tables) ==> CoversRecording(t', g.stack, g.tables)
  {
    forall i | 0 <= i < |g.stack|
      ensures LevelOk(t', g.stack, g.client, i)
      ensures g.stack[i].cursor < |g.tree.notes|
    {
      LevelMono(g.tree, g.vaPhys, g.smallSize, g.stack, g.client, t', g.stack, g.client, i);
      LevelBounds(g.tree, g.stack, g.client, i);
    }
  }

  lemma {:induction false} NewScopePeak(g: Graph, t': Tree)
    requires |t'.notes| == |t'.nodes| == |g.tree.notes| + 2 && Extends(g.tree, t') && RootFirst(g.tree) &&
             PeakOk(g.tree, g.peakUsed)
    requires Total(ViewAt(t', |g.tree.notes|).tables) <= g.peakUsed
    requires Total(ViewAt(t', |g.tree.notes| + 1).tables) <= g.peakUsed
    ensures PeakOk(t', g.peakUsed) && RootFirst(t')
  {
    forall n | 0 <= n < |t'.notes|
      ensures Total(ViewAt(t', n).tables) <= g.peakUsed
    {
      if n < |g.tree.notes| { assert ViewAt(t', n) == ViewAt(g.tree, n); }
    }
  }

  lemma {:induction false} PushNewInv(g: Graph, name: string)
    requires Inv(g) && g.stack != [] && Cursor(g) < |g.tree.nodes| && Top(g).recording
    ensures Inv(Pushed(NewScope(g, name), |g.tree.nodes|, true))
  {
    var g1 := NewScope(g, name);
    NewScopeTree(g, name);
    LevelsMono(g, g1.tree);
    EntriesOkMono(g.tree.nodes, g1.tree.nodes, g.tables);
    assert Total(ViewAt(g.tree, Cursor(g)).tables) <= g.peakUsed;
    NewScopePeak(g, g1.tree);
    assert Includes(g.tables, ViewAt(g.tree, Cursor(g)).tables);
    hide TreeOk, TablesOk, EntriesOk, Includes, LevelsOk, CoversRecording, PeakOk;
    PushedLevels(g1, |g.tree.nodes|, true);
  }

  /** The top scope is closed. */
  function Popped(g: Graph): Graph
    requires g.stack != [] && g.client != []
  {
    g.(stack := g.stack[..|g.stack| - 1], client := g.client[..|g.client| - 1])
  }

  lemma {:induction false} PoppedInv(g: Graph)
    requires Inv(g) && g.stack != []
    ensures Inv(Popped(g))
  {
    var g' := Popped(g);
    forall i | 0 <= i < |g'.stack|
      ensures LevelOk(g'.tree, g'.stack, g'.client, i)
    {
      assert LevelOk(g.tree, g.stack, g.client, i);
    }
    hide TreeOk, TablesOk, EntriesOk, Includes;
  }
}
