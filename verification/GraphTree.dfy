/**
 The recorded event tree.  A node is one event, its parent is the event recorded
 before it, and a named scope is a root of its own that carries a snapshot of the
 tables at the moment it was first entered.

 `notes[n]` is not in the program: it keeps, for every node, the view of the
 allocator that belongs to the point just after node `n`.
 */
module GraphTree {
  import opened Basics
  import opened GraphTables

  datatype Event =
    | Sentinel
    | Alloc(value: nat, bytes: nat)
    | Free(value: nat)
    | AllocSmall(value: nat, bytes: nat)
    | FreeSmall(value: nat)
    | Call(name: string, scope: NodeId)
    | End

  datatype Node = Node(event: Event, previous: NodeId, next: seq<NodeId>, snapshot: Option<Tables>)

  /** What `materialize` rebuilds: the tables and the scope's list of tracked allocations. */
  datatype View = View(tables: Tables, tracked: seq<NodeId>)

  datatype Note = Note(view: View, depth: nat, scope: NodeId)

  datatype Tree = Tree(nodes: seq<Node>, notes: seq<Note>)

  // ---------------------------------------------------------------- tracked list

  /** The list without the first occurrence of `id`. */
  function Untrack(s: seq<NodeId>, id: NodeId): (r: seq<NodeId>)
    requires id in s
  {
    if s[0] == id then s[1..] else [s[0]] + Untrack(s[1..], id)
  }

  lemma {:induction false} UntrackMembers(s: seq<NodeId>, id: NodeId)
    requires NoDuplicates(s) && id in s
    ensures NoDuplicates(Untrack(s, id))
    ensures forall q :: q in Untrack(s, id) <==> q in s && q != id
    decreases |s|
  {
    assert s == [s[0]] + s[1..];
    assert forall i | 1 <= i < |s| :: s[i] != s[0];
    if s[0] != id {
      UntrackMembers(s[1..], id);
      var r := Untrack(s[1..], id);
      assert s[0] !in r;
      assert forall i | 0 <= i < |r| :: r[i] in r;
    }
  }

  // ---------------------------------------------------------------- applying one event

  /** The effect of `dry_apply`; None is the program's failure. */
  function ApplyEvent(v: View, e: Event, id: NodeId, depth: nat, vaPhys: seq<nat>): Option<View> {
    match e
    case Alloc(va, bytes) =>
      Some(View(AddLarge(v.tables, vaPhys, va, VirtualPage(PagesOf(bytes), depth, id)), [id] + v.tracked))
    case Free(va) =>
      if va in v.tables.virtualPages && v.tables.virtualPages[va].allocation in v.tracked then
        Some(View(RemoveLarge(v.tables, vaPhys, va), Untrack(v.tracked, v.tables.virtualPages[va].allocation)))
      else None
    case AllocSmall(offset, bytes) =>
      Some(View(AddSmall(v.tables, SmallRange(offset, AlignSmall(bytes), depth, id)), [id] + v.tracked))
    case FreeSmall(offset) =>
      var s := v.tables.smallRanges;
      var k := Position(s, offset);
      if k < |s| && s[k].allocation in v.tracked then
        Some(View(v.tables.(smallRanges := RemoveSmall(s, k)), Untrack(v.tracked, s[k].allocation)))
      else None
    case Sentinel | Call(_, _) | End => Some(v)
  }

  // ---------------------------------------------------------------- invariants of a view

  /** Every entry names the node that recorded it. */
  ghost predicate EntriesOk(nodes: seq<Node>, t: Tables) {
    && (forall va | va in t.virtualPages :: LargeEntry(nodes, va, t.virtualPages[va]))
    && (forall r | r in t.smallRanges :: SmallEntry(nodes, r))
  }

  predicate LargeEntry(nodes: seq<Node>, va: nat, vp: VirtualPage) {
    && vp.allocation < |nodes|
    && nodes[vp.allocation].event.Alloc?
    && nodes[vp.allocation].event.value == va
    && PagesOf(nodes[vp.allocation].event.bytes) == vp.span
  }

  predicate SmallEntry(nodes: seq<Node>, r: SmallRange) {
    && r.allocation < |nodes|
    && nodes[r.allocation].event.AllocSmall?
    && nodes[r.allocation].event.value == r.offset
    && AlignSmall(nodes[r.allocation].event.bytes) == r.bytes
  }

  /** Allocation `id` is live in `t`. */
  ghost predicate LiveIn(nodes: seq<Node>, t: Tables, id: NodeId) {
    && id < |nodes|
    && (match nodes[id].event
        case Alloc(va, _) => va in t.virtualPages && t.virtualPages[va].allocation == id
        case AllocSmall(_, _) => exists r :: r in t.smallRanges && r.allocation == id
        case _ => false)
  }

  /** Inside a scope entered with tables `base`, the live allocations are those of `base` and the tracked ones. */
  ghost predicate ScopeView(nodes: seq<Node>, base: Tables, v: View) {
    && Includes(v.tables, base)
    && NoDuplicates(v.tracked)
    && (forall va | va in v.tables.virtualPages ::
          v.tables.virtualPages[va].allocation in v.tracked || va in base.virtualPages)
    && (forall r | r in v.tables.smallRanges :: r.allocation in v.tracked || r in base.smallRanges)
    && (forall va | va in base.virtualPages :: base.virtualPages[va].allocation !in v.tracked)
    && (forall r | r in base.smallRanges :: r.allocation !in v.tracked)
    && (forall id | id in v.tracked :: LiveIn(nodes, v.tables, id))
  }

  /** Tracked allocations carry the depth of their own scope. */
  ghost predicate DepthOk(v: View, depth: nat) {
    && (forall va | va in v.tables.virtualPages ::
          v.tables.virtualPages[va].allocation in v.tracked ==> v.tables.virtualPages[va].ownerDepth == depth)
    && (forall r | r in v.tables.smallRanges :: r.allocation in v.tracked ==> r.ownerDepth == depth)
  }

  /** A view that recording may be in, inside a scope entered with tables `base`. */
  ghost predicate ViewOk(nodes: seq<Node>, base: Tables, v: View, depth: nat, vaPhys: seq<nat>, smallSize: nat) {
    && TablesOk(v.tables, vaPhys, smallSize)
    && EntriesOk(nodes, v.tables)
    && ScopeView(nodes, base, v)
    && DepthOk(v, depth)
  }

  /** A scope that leaves nothing alive ends with the tables it was entered with. */
  lemma {:induction false} ScopeNeutral(nodes: seq<Node>, base: Tables, v: View, vaPhys: seq<nat>, smallSize: nat)
    requires TablesOk(base, vaPhys, smallSize) && TablesOk(v.tables, vaPhys, smallSize)
    requires ScopeView(nodes, base, v) && v.tracked == []
    ensures v.tables == base
  {
    assert Includes(base, v.tables);
    IncludesAntisymmetric(base, v.tables, vaPhys, smallSize);
  }

  // ---------------------------------------------------------------- invariants of the tree

  ghost predicate NodeOk(t: Tree, vaPhys: seq<nat>, smallSize: nat, n: NodeId)
    requires |t.notes| == |t.nodes| && n < |t.nodes|
  {
    var node, note := t.nodes[n], t.notes[n];
    && note.scope < |t.nodes|
    && t.nodes[note.scope].snapshot.Some?
    && t.notes[note.scope].depth == note.depth
    && ViewOk(t.nodes, t.nodes[note.scope].snapshot.value, note.view, note.depth, vaPhys, smallSize)
    && (if node.snapshot.Some? then RootOk(t, n) else InnerOk(t, vaPhys, n))
  }

  ghost predicate RootOk(t: Tree, n: NodeId)
    requires |t.notes| == |t.nodes| && n < |t.nodes| && t.nodes[n].snapshot.Some?
  {
    t.nodes[n].event == Sentinel && t.notes[n].scope == n && t.notes[n].view == View(t.nodes[n].snapshot.value, [])
  }

  ghost predicate InnerOk(t: Tree, vaPhys: seq<nat>, n: NodeId)
    requires |t.notes| == |t.nodes| && n < |t.nodes|
  {
    var node, note := t.nodes[n], t.notes[n];
    && node.previous < n
    && note.scope == t.notes[node.previous].scope
    && ApplyEvent(t.notes[node.previous].view, node.event, n, note.depth, vaPhys) == Some(note.view)
    && (node.event.FreeSmall? ==> SmallAt(t.notes[node.previous].view.tables.smallRanges, node.event.value))
    && (node.event.Call? ==> CallOk(t, node, note.depth))
  }

  /** A range starts exactly at `offset`. */
  predicate SmallAt(s: seq<SmallRange>, offset: nat) {
    Position(s, offset) < |s| && s[Position(s, offset)].offset == offset
  }

  /** The scope of a call was entered with at least what is live at the call. */
  ghost predicate CallOk(t: Tree, node: Node, depth: nat)
    requires |t.notes| == |t.nodes| && node.event.Call? && node.previous < |t.nodes|
  {
    && node.event.scope < |t.nodes|
    && t.nodes[node.event.scope].snapshot.Some?
    && t.notes[node.event.scope].depth == depth + 1
    && Includes(t.nodes[node.event.scope].snapshot.value, t.notes[node.previous].view.tables)
  }

  ghost predicate NextOk(nodes: seq<Node>) {
    forall n, i | 0 <= n < |nodes| && 0 <= i < |nodes[n].next| :: ChildOk(nodes, n, nodes[n].next[i])
  }

  predicate ChildOk(nodes: seq<Node>, n: NodeId, c: NodeId) {
    n < c < |nodes| && nodes[c].previous == n && nodes[c].snapshot.None?
  }

  ghost predicate TreeOk(t: Tree, vaPhys: seq<nat>, smallSize: nat) {
    && |t.notes| == |t.nodes|
    && NextOk(t.nodes)
    && forall n | 0 <= n < |t.nodes| :: NodeOk(t, vaPhys, smallSize, n)
  }

  // ---------------------------------------------------------------- growing the tree

  /** `t'` keeps every event, parent, snapshot and note of `t`. */
  ghost predicate Extends(t: Tree, t': Tree) {
    && |t.notes| == |t.nodes| && |t'.notes| == |t'.nodes|
    && |t.nodes| <= |t'.nodes|
    && forall i | 0 <= i < |t.nodes| ::
         && t'.notes[i] == t.notes[i]
         && t'.nodes[i].event == t.nodes[i].event
         && t'.nodes[i].previous == t.nodes[i].previous
         && t'.nodes[i].snapshot == t.nodes[i].snapshot
  }

  ghost predicate SameEvents(nodes: seq<Node>, nodes': seq<Node>) {
    |nodes| <= |nodes'| && forall i | 0 <= i < |nodes| :: nodes'[i].event == nodes[i].event
  }

  lemma {:induction false} EntriesOkMono(nodes: seq<Node>, nodes': seq<Node>, t: Tables)
    requires EntriesOk(nodes, t) && SameEvents(nodes, nodes')
    ensures EntriesOk(nodes', t)
  {
  }

  lemma {:induction false} ScopeViewMono(nodes: seq<Node>, nodes': seq<Node>, base: Tables, v: View)
    requires ScopeView(nodes, base, v) && SameEvents(nodes, nodes')
    ensures ScopeView(nodes', base, v)
  {
    forall id | id in v.tracked
      ensures LiveIn(nodes', v.tables, id)
    {
      assert LiveIn(nodes, v.tables, id);
    }
  }

  /** Extending the page map does not change what an event does. */
  lemma {:induction false} ApplyEventGrow(v: View, e: Event, id: NodeId, depth: nat, vaPhys: seq<nat>,
                                          vaPhys': seq<nat>, v': View)
    requires vaPhys <= vaPhys'
    requires WindowsOk(v.tables, vaPhys) && WindowsOk(v'.tables, vaPhys)
    requires ApplyEvent(v, e, id, depth, vaPhys) == Some(v')
    ensures ApplyEvent(v, e, id, depth, vaPhys') == Some(v')
  {
    if e.Alloc? {
      assert v'.tables.virtualPages[e.value].span == PagesOf(e.bytes);
      PhysOfGrow(vaPhys, vaPhys', e.value, PagesOf(e.bytes));
    } else if e.Free? {
      PhysOfGrow(vaPhys, vaPhys', e.value, v.tables.virtualPages[e.value].span);
    }
  }

  lemma {:induction false} NodeOkMono(t: Tree, t': Tree, vaPhys: seq<nat>, vaPhys': seq<nat>, smallSize: nat,
                                      smallSize': nat, n: NodeId)
    requires Extends(t, t') && vaPhys <= vaPhys' && smallSize <= smallSize'
    requires n < |t.nodes| && NodeOk(t, vaPhys, smallSize, n)
    requires t.nodes[n].snapshot.None? ==>
               t.nodes[n].previous < n && WindowsOk(t.notes[t.nodes[n].previous].view.tables, vaPhys)
    ensures NodeOk(t', vaPhys', smallSize', n)
  {
    var note := t.notes[n];
    TablesOkGrow(note.view.tables, vaPhys, vaPhys', smallSize, smallSize');
    EntriesOkMono(t.nodes, t'.nodes, note.view.tables);
    ScopeViewMono(t.nodes, t'.nodes, t.nodes[note.scope].snapshot.value, note.view);
    if t.nodes[n].snapshot.None? {
      ApplyEventGrow(t.notes[t.nodes[n].previous].view, t.nodes[n].event, n, note.depth, vaPhys, vaPhys', note.view);
    }
  }

  lemma {:induction false} TreeOkMono(t: Tree, t': Tree, vaPhys: seq<nat>, vaPhys': seq<nat>, smallSize: nat,
                                      smallSize': nat)
    requires TreeOk(t, vaPhys, smallSize) && Extends(t, t')
    requires vaPhys <= vaPhys' && smallSize <= smallSize'
    ensures forall n | 0 <= n < |t.nodes| :: NodeOk(t', vaPhys', smallSize', n)
  {
    forall n | 0 <= n < |t.nodes|
      ensures NodeOk(t', vaPhys', smallSize', n)
    {
      assert NodeOk(t, vaPhys, smallSize, n);
      if t.nodes[n].snapshot.None? {
        assert NodeOk(t, vaPhys, smallSize, t.nodes[n].previous);
      }
      NodeOkMono(t, t', vaPhys, vaPhys', smallSize, smallSize', n);
    }
  }

  /** `append_event`: a new last child of `parent`. */
  function Append(t: Tree, parent: NodeId, e: Event, note: Note): Tree
    requires parent < |t.nodes|
  {
    var p := t.nodes[parent];
    Tree(t.nodes[parent := p.(next := p.next + [|t.nodes|])] + [Node(e, parent, [], None)], t.notes + [note])
  }

  /** A scope root: entered for the first time with tables `base`. */
  function AddScope(t: Tree, base: Tables, depth: nat): Tree {
    Tree(t.nodes + [Node(Sentinel, 0, [], Some(base))], t.notes + [Note(View(base, []), depth, |t.nodes|)])
  }

  lemma {:induction false} AppendExtends(t: Tree, parent: NodeId, e: Event, note: Note)
    requires |t.notes| == |t.nodes| && parent < |t.nodes| && NextOk(t.nodes)
    ensures Extends(t, Append(t, parent, e, note))
    ensures NextOk(Append(t, parent, e, note).nodes)
    ensures SameEvents(t.nodes, Append(t, parent, e, note).nodes)
  {
    var nodes' := Append(t, parent, e, note).nodes;
    forall n, i | 0 <= n < |nodes'| && 0 <= i < |nodes'[n].next|
      ensures ChildOk(nodes', n, nodes'[n].next[i])
    {
      if n < |t.nodes| && i < |t.nodes[n].next| {
        assert ChildOk(t.nodes, n, t.nodes[n].next[i]);
      }
    }
  }

  lemma {:induction false} AddScopeExtends(t: Tree, base: Tables, depth: nat)
    requires |t.notes| == |t.nodes| && NextOk(t.nodes)
    ensures Extends(t, AddScope(t, base, depth))
    ensures NextOk(AddScope(t, base, depth).nodes)
    ensures SameEvents(t.nodes, AddScope(t, base, depth).nodes)
  {
    var nodes' := AddScope(t, base, depth).nodes;
    forall n, i | 0 <= n < |nodes'| && 0 <= i < |nodes'[n].next|
      ensures ChildOk(nodes', n, nodes'[n].next[i])
    {
      assert ChildOk(t.nodes, n, t.nodes[n].next[i]);
    }
  }

  lemma {:induction false} AddScopeOk(t: Tree, vaPhys: seq<nat>, smallSize: nat, base: Tables, depth: nat)
    requires TreeOk(t, vaPhys, smallSize)
    requires TablesOk(base, vaPhys, smallSize) && EntriesOk(t.nodes, base)
    ensures TreeOk(AddScope(t, base, depth), vaPhys, smallSize)
  {
    var t' := AddScope(t, base, depth);
    AddScopeExtends(t, base, depth);
    TreeOkMono(t, t', vaPhys, vaPhys, smallSize, smallSize);
    EntriesOkMono(t.nodes, t'.nodes, base);
    assert NodeOk(t', vaPhys, smallSize, |t.nodes|);
  }

  // ---------------------------------------------------------------- one event inside a scope

  lemma {:induction false} AllocTracked(nodes: seq<Node>, nodes': seq<Node>, base: Tables, v: View, va: nat,
                                        vp: VirtualPage, vaPhys: seq<nat>)
    requires SameEvents(nodes, nodes') && EntriesOk(nodes, v.tables) && EntriesOk(nodes, base) &&
             ScopeView(nodes, base, v)
    requires va !in v.tables.virtualPages
    requires |nodes| <= vp.allocation && LargeEntry(nodes', va, vp)
    ensures ScopeView(nodes', base, View(AddLarge(v.tables, vaPhys, va, vp), [vp.allocation] + v.tracked))
    ensures DepthOk(v, vp.ownerDepth) ==> DepthOk(View(AddLarge(v.tables, vaPhys, va, vp), [vp.allocation] + v.tracked),
                                                  vp.ownerDepth)
    ensures EntriesOk(nodes', AddLarge(v.tables, vaPhys, va, vp))
  {
    hide DepthOk;
    var id := vp.allocation;
    var v' := View(AddLarge(v.tables, vaPhys, va, vp), [id] + v.tracked);
    AllocDepth(nodes, v, va, vp, vaPhys);
    AllocEntries(nodes, nodes', v.tables, va, vp, vaPhys);
    forall q | q in v.tracked
      ensures q < |nodes| && LiveIn(nodes', v'.tables, q)
    {
      assert LiveIn(nodes, v.tables, q);
    }
    assert LiveIn(nodes', v'.tables, id);
  }

  lemma {:induction false} AllocDepth(nodes: seq<Node>, v: View, va: nat, vp: VirtualPage, vaPhys: seq<nat>)
    requires EntriesOk(nodes, v.tables) && |nodes| <= vp.allocation
    ensures DepthOk(v, vp.ownerDepth) ==> DepthOk(View(AddLarge(v.tables, vaPhys, va, vp), [vp.allocation] + v.tracked),
                                                  vp.ownerDepth)
  {
  }

  lemma {:induction false} AllocEntries(nodes: seq<Node>, nodes': seq<Node>, t: Tables, va: nat, vp: VirtualPage,
                                        vaPhys: seq<nat>)
    requires SameEvents(nodes, nodes') && EntriesOk(nodes, t) && LargeEntry(nodes', va, vp)
    ensures EntriesOk(nodes', AddLarge(t, vaPhys, va, vp))
  {
  }

  lemma {:induction false} AllocSmallTracked(nodes: seq<Node>, nodes': seq<Node>, base: Tables, v: View, r: SmallRange)
    requires SameEvents(nodes, nodes') && EntriesOk(nodes, v.tables) && EntriesOk(nodes, base) &&
             ScopeView(nodes, base, v)
    requires |nodes| <= r.allocation && SmallEntry(nodes', r)
    requires forall q :: q in InsertSmall(v.tables.smallRanges, r) <==> q in v.tables.smallRanges || q == r
    ensures ScopeView(nodes', base, View(AddSmall(v.tables, r), [r.allocation] + v.tracked))
    ensures DepthOk(v, r.ownerDepth) ==> DepthOk(View(AddSmall(v.tables, r), [r.allocation] + v.tracked), r.ownerDepth)
    ensures EntriesOk(nodes', AddSmall(v.tables, r))
  {
    var id := r.allocation;
    var v' := View(AddSmall(v.tables, r), [id] + v.tracked);
    forall q | q in v.tracked
      ensures q < |nodes| && LiveIn(nodes', v'.tables, q)
    {
      assert LiveIn(nodes, v.tables, q);
    }
    assert r in v'.tables.smallRanges;
    assert LiveIn(nodes', v'.tables, id);
  }

  lemma {:induction false} FreeTracked(nodes: seq<Node>, base: Tables, v: View, va: nat, vaPhys: seq<nat>)
    requires EntriesOk(nodes, v.tables) && ScopeView(nodes, base, v)
    requires va in v.tables.virtualPages && v.tables.virtualPages[va].allocation in v.tracked
    ensures ScopeView(nodes, base, View(RemoveLarge(v.tables, vaPhys, va),
                                        Untrack(v.tracked, v.tables.virtualPages[va].allocation)))
    ensures EntriesOk(nodes, RemoveLarge(v.tables, vaPhys, va))
  {
    var id := v.tables.virtualPages[va].allocation;
    var v' := View(RemoveLarge(v.tables, vaPhys, va), Untrack(v.tracked, id));
    UntrackMembers(v.tracked, id);
    assert LargeEntry(nodes, va, v.tables.virtualPages[va]);
    forall q | q in v'.tracked
      ensures LiveIn(nodes, v'.tables, q)
    {
      assert LiveIn(nodes, v.tables, q);
    }
    forall wa | wa in v'.tables.virtualPages
      ensures v'.tables.virtualPages[wa].allocation in v'.tracked || wa in base.virtualPages
    {
      assert LargeEntry(nodes, wa, v.tables.virtualPages[wa]);
    }
    forall r | r in v.tables.smallRanges
      ensures r.allocation in v'.tracked || r in base.smallRanges
    {
      assert SmallEntry(nodes, r);
    }
  }

  /** Two live ranges recorded by the same node are the same range. */
  lemma {:induction false} SmallEntryUnique(nodes: seq<Node>, s: seq<SmallRange>, r: SmallRange, q: SmallRange)
    requires SmallSorted(s) && r in s && q in s
    requires SmallEntry(nodes, r) && SmallEntry(nodes, q) && r.allocation == q.allocation
    ensures r == q
  {
    SmallByOffset(s, r);
    SmallByOffset(s, q);
  }

  lemma {:induction false} FreeSmallTracked(nodes: seq<Node>, base: Tables, v: View, k: nat)
    requires EntriesOk(nodes, v.tables) && ScopeView(nodes, base, v) && SmallSorted(v.tables.smallRanges)
    requires k < |v.tables.smallRanges| && v.tables.smallRanges[k].allocation in v.tracked
    ensures ScopeView(nodes, base, View(v.tables.(smallRanges := RemoveSmall(v.tables.smallRanges, k)),
                                        Untrack(v.tracked, v.tables.smallRanges[k].allocation)))
    ensures EntriesOk(nodes, v.tables.(smallRanges := RemoveSmall(v.tables.smallRanges, k)))
  {
    var s := v.tables.smallRanges;
    var gone := s[k];
    var t' := v.tables.(smallRanges := RemoveSmall(s, k));
    var tracked' := Untrack(v.tracked, gone.allocation);
    UntrackMembers(v.tracked, gone.allocation);
    RemoveMembers(s, k);
    assert gone in s && SmallEntry(nodes, gone);
    forall q | q in tracked'
      ensures LiveIn(nodes, t', q)
    {
      assert LiveIn(nodes, v.tables, q);
      if nodes[q].event.AllocSmall? {
        var r :| r in s && r.allocation == q;
        assert r in t'.smallRanges;
      }
    }
    forall r | r in t'.smallRanges
      ensures r.allocation in tracked' || r in base.smallRanges
    {
      assert SmallEntry(nodes, r);
      if r.allocation == gone.allocation { SmallEntryUnique(nodes, s, r, gone); }
    }
    forall va | va in v.tables.virtualPages
      ensures v.tables.virtualPages[va].allocation in tracked' || va in base.virtualPages
    {
      assert LargeEntry(nodes, va, v.tables.virtualPages[va]);
    }
  }

  // ---------------------------------------------------------------- appending a node

  /** The new node `e` under `c` is justified by what the tree says about `c`. */
  ghost predicate AppendOk(t: Tree, vaPhys: seq<nat>, smallSize: nat, c: NodeId, e: Event, v: View)
    requires |t.notes| == |t.nodes| && c < |t.nodes| && t.notes[c].scope < |t.notes|
  {
    var depth := t.notes[c].depth;
    && ApplyEvent(t.notes[c].view, e, |t.nodes|, depth, vaPhys) == Some(v)
    && (e.FreeSmall? ==> SmallAt(t.notes[c].view.tables.smallRanges, e.value))
    && (e.Call? ==> CallOk(t, Node(e, c, [], None), depth))
    && ViewOk(Append(t, c, e, Note(v, depth, t.notes[c].scope)).nodes, t.notes[t.notes[c].scope].view.tables, v, depth,
              vaPhys,
              smallSize)
  }

  lemma {:induction false} AppendFacts(t: Tree, vaPhys: seq<nat>, smallSize: nat, c: NodeId, e: Event, v: View)
    requires |t.notes| == |t.nodes| && c < |t.nodes| && t.notes[c].scope < |t.notes|
    requires AppendOk(t, vaPhys, smallSize, c, e, v)
    ensures TablesOk(v.tables, vaPhys, smallSize)
    ensures Includes(v.tables, t.notes[t.notes[c].scope].view.tables)
  {
  }

  lemma {:induction false} AppendNewNode(t: Tree, vaPhys: seq<nat>, smallSize: nat, c: NodeId, e: Event, v: View)
    requires |t.notes| == |t.nodes| && c < |t.nodes|
    requires NodeOk(t, vaPhys, smallSize, c)
    requires t.nodes[t.notes[c].scope].snapshot == Some(t.notes[t.notes[c].scope].view.tables)
    requires AppendOk(t, vaPhys, smallSize, c, e, v)
    ensures NodeOk(Append(t, c, e, Note(v, t.notes[c].depth, t.notes[c].scope)), vaPhys, smallSize, |t.nodes|)
  {
    var t' := Append(t, c, e, Note(v, t.notes[c].depth, t.notes[c].scope));
    var n := |t.nodes|;
    assert t'.nodes[n] == Node(e, c, [], None) && t'.notes[n].view == v;
    assert t'.notes[c] == t.notes[c];
    assert InnerOk(t', vaPhys, n);
  }

  lemma {:induction false} ScopeSnapshot(t: Tree, vaPhys: seq<nat>, smallSize: nat, c: NodeId)
    requires TreeOk(t, vaPhys, smallSize) && c < |t.nodes|
    ensures t.notes[c].scope < |t.nodes|
    ensures t.nodes[t.notes[c].scope].snapshot == Some(t.notes[t.notes[c].scope].view.tables)
    ensures ViewOk(t.nodes, t.notes[t.notes[c].scope].view.tables, t.notes[c].view, t.notes[c].depth, vaPhys, smallSize)
  {
    assert NodeOk(t, vaPhys, smallSize, c);
    assert NodeOk(t, vaPhys, smallSize, t.notes[c].scope);
  }

  lemma {:induction false} AppendNodeOk(t: Tree, vaPhys: seq<nat>, smallSize: nat, c: NodeId, e: Event, v: View,
                                        n: NodeId)
    requires TreeOk(t, vaPhys, smallSize) && c < |t.nodes| && t.notes[c].scope < |t.notes| && n <= |t.nodes|
    requires AppendOk(t, vaPhys, smallSize, c, e, v)
    requires Extends(t, Append(t, c, e, Note(v, t.notes[c].depth, t.notes[c].scope)))
    ensures NodeOk(Append(t, c, e, Note(v, t.notes[c].depth, t.notes[c].scope)), vaPhys, smallSize, n)
  {
    hide NodeOk, NextOk, AppendOk, Extends;
    var t' := Append(t, c, e, Note(v, t.notes[c].depth, t.notes[c].scope));
    if n < |t.nodes| {
      TreeOkMono(t, t', vaPhys, vaPhys, smallSize, smallSize);
    } else {
      ScopeSnapshot(t, vaPhys, smallSize, c);
      AppendNewNode(t, vaPhys, smallSize, c, e, v);
    }
  }

  lemma {:induction false} AppendTreeOk(t: Tree, vaPhys: seq<nat>, smallSize: nat, c: NodeId, e: Event, v: View)
    requires TreeOk(t, vaPhys, smallSize) && c < |t.nodes| && t.notes[c].scope < |t.notes|
    requires AppendOk(t, vaPhys, smallSize, c, e, v)
    ensures TreeOk(Append(t, c, e, Note(v, t.notes[c].depth, t.notes[c].scope)), vaPhys, smallSize)
    ensures Extends(t, Append(t, c, e, Note(v, t.notes[c].depth, t.notes[c].scope)))
  {
    hide NodeOk, NextOk, AppendOk, Extends;
    var note := Note(v, t.notes[c].depth, t.notes[c].scope);
    AppendExtends(t, c, e, note);
    forall n | 0 <= n <= |t.nodes|
      ensures NodeOk(Append(t, c, e, note), vaPhys, smallSize, n)
    {
      AppendNodeOk(t, vaPhys, smallSize, c, e, v, n);
    }
  }
}
