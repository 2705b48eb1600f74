/**
 The whole state of one malloc graph, the invariant that every run keeps, and what
 each operation does to the state.
 */
module GraphRun {
  import opened Basics
  import opened GraphTables
  import opened GraphTree

  /** One open scope.  `stack[0]` is the outermost one, the last element is on top. */
  datatype State = State(cursor: NodeId, tracked: seq<NodeId>, depth: nat, recording: bool, broken: bool)

  /** A pointer the graph gave out, and the size asked for. */
  datatype Block = Large(va: nat, size: nat) | Small(offset: nat, size: nat)

  /**
   `client` is not in the program.  It is the caller's own list: for every open
   scope, the blocks it was given inside that scope and has not freed.
   */
  datatype Graph = Graph(
    tree: Tree,
    stack: seq<State>,
    tables: Tables,
    vaPhys: seq<nat>,
    physCount: nat,
    smallSize: nat,
    used: nat,
    peakUsed: nat,
    assertBreaks: bool,
    failed: bool,
    client: seq<set<Block>>)

  function BlockOf(e: Event): Block {
    match e
    case Alloc(va, bytes) => Large(va, bytes)
    case AllocSmall(offset, bytes) => Small(offset, bytes)
    case _ => Small(0, 0)
  }

  function Blocks(nodes: seq<Node>, tracked: seq<NodeId>): set<Block> {
    set id | id in tracked && id < |nodes| :: BlockOf(nodes[id].event)
  }

  /** The block starts at the given place of the given heap. */
  predicate At(b: Block, small: bool, value: nat) {
    match b
    case Large(va, _) => !small && va == value
    case Small(offset, _) => small && offset == value
  }

  function WithoutAt(blocks: set<Block>, small: bool, value: nat): set<Block> {
    set b | b in blocks && !At(b, small, value)
  }

  // ---------------------------------------------------------------- the invariant

  /** View of the point node `n` stands for. */
  function ViewAt(t: Tree, n: NodeId): View
    requires n < |t.notes|
  {
    t.notes[n].view
  }

  /** Tables with which the scope of node `n` was first entered. */
  function BaseAt(t: Tree, n: NodeId): Tables
    requires n < |t.notes| && t.notes[n].scope < |t.notes|
  {
    t.notes[t.notes[n].scope].view.tables
  }

  ghost predicate MapOk(vaPhys: seq<nat>, physCount: nat, smallSize: nat) {
    && (forall i | 0 <= i < |vaPhys| :: vaPhys[i] < physCount)
    && physCount <= |vaPhys| <= MG_PAGES
    && PagesOf(smallSize) <= MG_SMALL_PAGES && Aligned(smallSize)
  }

  ghost predicate LevelOk(t: Tree, stack: seq<State>, client: seq<set<Block>>, i: nat)
    requires |t.notes| == |t.nodes| && i < |stack| == |client|
  {
    var s := stack[i];
    && s.cursor < |t.nodes| && t.notes[s.cursor].scope < |t.nodes|
    && s.depth == i + 1 == t.notes[s.cursor].depth
    && s.tracked == (if s.recording then t.notes[s.cursor].view.tracked else [])
    && client[i] == Blocks(t.nodes, t.notes[s.cursor].view.tracked)
    && (i > 0 ==> stack[i - 1].cursor < |t.nodes| &&
                  Includes(BaseAt(t, s.cursor), t.notes[stack[i - 1].cursor].view.tables))
  }

  ghost predicate LevelsOk(t: Tree, stack: seq<State>, client: seq<set<Block>>) {
    && |t.notes| == |t.nodes|
    && |client| == |stack|
    && forall i | 0 <= i < |stack| :: LevelOk(t, stack, client, i)
  }

  /** The tables hold at least what every recording scope has alive. */
  ghost predicate CoversRecording(t: Tree, stack: seq<State>, tables: Tables) {
    forall i | 0 <= i < |stack| && stack[i].recording && stack[i].cursor < |t.notes| ::
      Includes(tables, ViewAt(t, stack[i].cursor).tables)
  }

  ghost predicate PeakOk(t: Tree, peak: nat) {
    forall n | 0 <= n < |t.notes| :: Total(ViewAt(t, n).tables) <= peak
  }

  ghost predicate RootFirst(t: Tree) {
    && |t.notes| == |t.nodes| > 0
    && t.nodes[0].snapshot == Some(EMPTY_TABLES)
    && t.notes[0] == Note(View(EMPTY_TABLES, []), 1, 0)
  }

  /** What every run keeps as long as the graph has not failed. */
  ghost predicate Inv(g: Graph) {
    && TreeOk(g.tree, g.vaPhys, g.smallSize)
    && RootFirst(g.tree)
    && MapOk(g.vaPhys, g.physCount, g.smallSize)
    && LevelsOk(g.tree, g.stack, g.client)
    && TablesOk(g.tables, g.vaPhys, g.smallSize)
    && EntriesOk(g.tree.nodes, g.tables)
    && CoversRecording(g.tree, g.stack, g.tables)
    && g.used == Total(g.tables) <= g.peakUsed
    && PeakOk(g.tree, g.peakUsed)
  }

  // ---------------------------------------------------------------- stack helpers

  function Top(g: Graph): State
    requires g.stack != []
  {
    g.stack[|g.stack| - 1]
  }

  function SetTop<T>(s: seq<T>, x: T): seq<T>
    requires s != []
  {
    s[|s| - 1 := x]
  }

  function Cursor(g: Graph): NodeId
    requires g.stack != []
  {
    Top(g).cursor
  }

  // ---------------------------------------------------------------- safety of what the client holds

  lemma {:induction false} LevelBounds(t: Tree, stack: seq<State>, client: seq<set<Block>>, i: nat)
    requires LevelsOk(t, stack, client) && i < |stack|
    ensures |client| == |stack|
    ensures stack[i].cursor < |t.nodes| == |t.notes|
    ensures t.notes[stack[i].cursor].scope < |t.nodes|
    ensures stack[i].depth == i + 1 == t.notes[stack[i].cursor].depth
    ensures client[i] == Blocks(t.nodes, ViewAt(t, stack[i].cursor).tracked)
    ensures stack[i].tracked == (if stack[i].recording then ViewAt(t, stack[i].cursor).tracked else [])
  {
    assert LevelOk(t, stack, client, i);
  }

  lemma {:induction false} LevelStep(t: Tree, stack: seq<State>, client: seq<set<Block>>, i: nat)
    requires LevelsOk(t, stack, client) && 0 < i < |stack|
    ensures stack[i].cursor < |t.nodes| && stack[i - 1].cursor < |t.nodes| == |t.notes|
    ensures t.notes[stack[i].cursor].scope < |t.nodes|
    ensures Includes(BaseAt(t, stack[i].cursor), ViewAt(t, stack[i - 1].cursor).tables)
  {
    assert LevelOk(t, stack, client, i);
  }

  lemma {:induction false} ViewFacts(t: Tree, vaPhys: seq<nat>, smallSize: nat, n: NodeId)
    requires TreeOk(t, vaPhys, smallSize) && n < |t.nodes|
    ensures |t.notes| == |t.nodes| && t.notes[n].scope < |t.nodes|
    ensures ViewOk(t.nodes, BaseAt(t, n), ViewAt(t, n), t.notes[n].depth, vaPhys, smallSize)
  {
    ScopeSnapshot(t, vaPhys, smallSize, n);
  }

  lemma {:induction false} ViewIncludesBase(t: Tree, vaPhys: seq<nat>, smallSize: nat, n: NodeId)
    requires TreeOk(t, vaPhys, smallSize) && n < |t.nodes|
    ensures |t.notes| == |t.nodes| && t.notes[n].scope < |t.nodes|
    ensures Includes(ViewAt(t, n).tables, BaseAt(t, n))
  {
    ScopeSnapshot(t, vaPhys, smallSize, n);
  }

  /** What an open scope has alive is part of the view of every scope opened inside it. */
  lemma {:induction false} ChainIncludes(t: Tree, vaPhys: seq<nat>, smallSize: nat, stack: seq<State>,
                                         client: seq<set<Block>>, i: nat, k: nat)
    requires TreeOk(t, vaPhys, smallSize) && LevelsOk(t, stack, client) && i <= k < |stack|
    ensures stack[i].cursor < |t.nodes| && stack[k].cursor < |t.nodes|
    ensures t.notes[stack[k].cursor].scope < |t.nodes|
    ensures Includes(ViewAt(t, stack[k].cursor).tables, ViewAt(t, stack[i].cursor).tables)
    ensures i < k ==> Includes(BaseAt(t, stack[k].cursor), ViewAt(t, stack[i].cursor).tables)
    decreases k
  {
    LevelBounds(t, stack, client, k);
    if i < k {
      ChainIncludes(t, vaPhys, smallSize, stack, client, i, k - 1);
      LevelStep(t, stack, client, k);
      ViewIncludesBase(t, vaPhys, smallSize, stack[k].cursor);
      var base, v := BaseAt(t, stack[k].cursor), ViewAt(t, stack[i].cursor).tables;
      IncludesTransitive(base, ViewAt(t, stack[k - 1].cursor).tables, v);
      IncludesTransitive(ViewAt(t, stack[k].cursor).tables, base, v);
    }
  }

  /** Tracked nodes whose events give the client's blocks. */
  lemma {:induction false} ClientNode(g: Graph, i: nat, b: Block) returns (id: NodeId)
    requires Inv(g) && i < |g.stack| && b in g.client[i]
    ensures g.stack[i].cursor < |g.tree.nodes| == |g.tree.notes|
    ensures id in ViewAt(g.tree, g.stack[i].cursor).tracked && id < |g.tree.nodes|
    ensures b == BlockOf(g.tree.nodes[id].event)
    ensures LiveIn(g.tree.nodes, ViewAt(g.tree, g.stack[i].cursor).tables, id)
  {
    LevelBounds(g.tree, g.stack, g.client, i);
    ViewFacts(g.tree, g.vaPhys, g.smallSize, g.stack[i].cursor);
    id :| id in ViewAt(g.tree, g.stack[i].cursor).tracked && id < |g.tree.nodes| &&
        b == BlockOf(g.tree.nodes[id].event);
  }

  lemma {:induction false} LiveInIncludes(nodes: seq<Node>, big: Tables, small: Tables, id: NodeId)
    requires Includes(big, small) && LiveIn(nodes, small, id)
    ensures LiveIn(nodes, big, id)
  {
  }

  /** The virtual page with byte `i` of a block that starts at page `va`. */
  function PageOfByte(va: nat, i: nat): (n: nat)
    ensures va <= n && (n - va) * MG_PAGE <= i < (n - va + 1) * MG_PAGE
  {
    va + i / MG_PAGE
  }

  /**
   The memory behind a block, byte by byte of what was asked for: in the large heap each
   byte lies on a mapped page, and different pages are different memory.
   */
  ghost predicate BlockOk(vaPhys: seq<nat>, smallSize: nat, b: Block) {
    match b
    case Large(va, size) =>
      && size > 0
      && (forall i: nat | i < size :: PageOfByte(va, i) < |vaPhys|)
      && forall i: nat, j: nat | i < size && j < size && PageOfByte(va, i) != PageOfByte(va, j) ::
           vaPhys[PageOfByte(va, i)] != vaPhys[PageOfByte(va, j)]
    case Small(offset, size) => size > 0 && offset + size <= smallSize && Aligned(offset)
  }

  /** No byte of the one block is memory of the other. */
  ghost predicate BlocksApart(vaPhys: seq<nat>, b: Block, c: Block) {
    match (b, c)
    case (Large(va, m), Large(wa, n)) =>
      forall i: nat, j: nat | i < m && j < n && PageOfByte(va, i) < |vaPhys| && PageOfByte(wa, j) < |vaPhys| ::
        vaPhys[PageOfByte(va, i)] != vaPhys[PageOfByte(wa, j)]
    case (Small(x, m), Small(y, n)) => x + m <= y || y + n <= x
    case _ => true
  }

  /** Whole pages cover the bytes. */
  lemma {:induction false} BytesInPages(va: nat, size: nat)
    ensures forall i: nat | i < size :: va <= PageOfByte(va, i) < va + PagesOf(size)
    ensures size > 0 ==> PageOfByte(va, size - 1) == va + PagesOf(size) - 1
    ensures size > 0 <==> PagesOf(size) > 0
  {
    forall i: nat | i < size
      ensures va <= PageOfByte(va, i) < va + PagesOf(size)
    {
      assert i / MG_PAGE * MG_PAGE <= i < PagesOf(size) * MG_PAGE;
    }
  }

  lemma {:induction false} LiveBlockOk(nodes: seq<Node>, t: Tables, vaPhys: seq<nat>, smallSize: nat, id: NodeId)
    requires TablesOk(t, vaPhys, smallSize) && EntriesOk(nodes, t) && LiveIn(nodes, t, id)
    ensures BlockOk(vaPhys, smallSize, BlockOf(nodes[id].event))
  {
    if nodes[id].event.Alloc? {
      assert LargeEntry(nodes, nodes[id].event.value, t.virtualPages[nodes[id].event.value]);
      BytesInPages(nodes[id].event.value, nodes[id].event.bytes);
    } else {
      var r :| r in t.smallRanges && r.allocation == id;
      assert SmallEntry(nodes, r);
    }
  }

  lemma {:induction false} PagesApart(vaPhys: seq<nat>, va: nat, m: nat, wa: nat, n: nat)
    requires PhysOf(vaPhys, va, PagesOf(m)) !! PhysOf(vaPhys, wa, PagesOf(n))
    ensures BlocksApart(vaPhys, Large(va, m), Large(wa, n))
  {
    BytesInPages(va, m);
    BytesInPages(wa, n);
    forall i: nat, j: nat | i < m && j < n && PageOfByte(va, i) < |vaPhys| && PageOfByte(wa, j) < |vaPhys|
      ensures vaPhys[PageOfByte(va, i)] != vaPhys[PageOfByte(wa, j)]
    {
      assert vaPhys[PageOfByte(va, i)] in PhysOf(vaPhys, va, PagesOf(m));
      assert vaPhys[PageOfByte(wa, j)] in PhysOf(vaPhys, wa, PagesOf(n));
    }
  }

  lemma {:induction false} LiveBlocksApart(nodes: seq<Node>, t: Tables, vaPhys: seq<nat>, smallSize: nat, id: NodeId,
                                           jd: NodeId)
    requires TablesOk(t, vaPhys, smallSize) && EntriesOk(nodes, t)
    requires LiveIn(nodes, t, id) && LiveIn(nodes, t, jd) && id != jd
    ensures BlocksApart(vaPhys, BlockOf(nodes[id].event), BlockOf(nodes[jd].event))
  {
    var e, f := nodes[id].event, nodes[jd].event;
    if e.Alloc? && f.Alloc? {
      assert LargeEntry(nodes, e.value, t.virtualPages[e.value]);
      assert LargeEntry(nodes, f.value, t.virtualPages[f.value]);
      PagesApart(vaPhys, e.value, e.bytes, f.value, f.bytes);
    } else if e.AllocSmall? && f.AllocSmall? {
      var r :| r in t.smallRanges && r.allocation == id;
      var q :| q in t.smallRanges && q.allocation == jd;
      assert SmallEntry(nodes, r) && SmallEntry(nodes, q);
      var i :| 0 <= i < |t.smallRanges| && t.smallRanges[i] == r;
      var j :| 0 <= j < |t.smallRanges| && t.smallRanges[j] == q;
      assert if i < j then Before(r, q) else Before(q, r);
    }
  }

  /** Safety: nothing a client holds, in any open scope, shares memory with anything else it holds. */
  lemma {:induction false} ClientDisjoint(g: Graph, i: nat, b: Block, j: nat, c: Block)
    requires Inv(g) && i <= j < |g.stack| && b in g.client[i] && c in g.client[j]
    requires i != j || b != c
    ensures BlockOk(g.vaPhys, g.smallSize, b) && BlockOk(g.vaPhys, g.smallSize, c)
    ensures BlocksApart(g.vaPhys, b, c)
  {
    var id := ClientNode(g, i, b);
    var jd := ClientNode(g, j, c);
    var t := g.tree;
    var v, w := ViewAt(t, g.stack[j].cursor), ViewAt(t, g.stack[i].cursor);
    ChainIncludes(t, g.vaPhys, g.smallSize, g.stack, g.client, i, j);
    ViewFacts(t, g.vaPhys, g.smallSize, g.stack[j].cursor);
    LiveInIncludes(t.nodes, v.tables, w.tables, id);
    if i < j {
      LiveInIncludes(t.nodes, BaseAt(t, g.stack[j].cursor), w.tables, id);
      assert id !in v.tracked;
    }
    LiveBlockOk(t.nodes, v.tables, g.vaPhys, g.smallSize, id);
    LiveBlockOk(t.nodes, v.tables, g.vaPhys, g.smallSize, jd);
    LiveBlocksApart(t.nodes, v.tables, g.vaPhys, g.smallSize, id, jd);
  }
}
