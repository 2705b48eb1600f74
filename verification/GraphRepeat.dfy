/**
 Repeating what was recorded.  A scope that makes the calls it made once before is led
 to the same nodes of the tree, gets the same answers and changes no table, exactly as
 long as no allocation or free was recorded, the first time, beside one that matched it.
 */
module GraphRepeat {
  import opened Basics
  import opened GraphTables
  import opened GraphTree
  import opened GraphRun
  import opened GraphSteps
  import opened GraphAlloc
  import opened GraphReplay
  import opened GraphSearch
  import opened GraphOps
  import opened GraphRuns

  /** The event a call is looked up by. */
  function Want(op: Op): Event {
    match op
    case OpAlloc(size, _, _) => AllocEvent(size)
    case OpFree(small, value) => FreeEvent(small, value)
    case OpPush(name) => Call(name, 0)
    case OpPop => End
    case OpPushRoot => Sentinel
  }

  function Barred(op: Op): Rogues {
    if op.OpAlloc? then op.rogues else NO_ROGUES
  }

  /** The same call, whatever the driver answers, when no escaped allocation is in its way. */
  predicate SameCall(op: Op, again: Op) {
    if op.OpAlloc? then again.OpAlloc? && again.size == op.size && again.rogues == NO_ROGUES else again == op
  }

  /** What the program looks up: a recording scope does not look for its allocations and frees. */
  function LookedUp(g: Graph, op: Op): Option<NodeId>
    requires g.stack != [] && Cursor(g) < |g.tree.nodes|
  {
    if Top(g).recording && !op.OpPush? then None else FindEvent(g, Want(op), Barred(op))
  }

  /** The call goes where the first recorded event that matches it leads, if there is one. */
  ghost predicate Fresh(g: Graph, op: Op) {
    (op.OpAlloc? || op.OpFree?) && g.stack != [] && Cursor(g) < |g.tree.nodes| ==>
      FindEvent(g, Want(op), NO_ROGUES) == LookedUp(g, op)
  }

  // ---------------------------------------------------------------- children are only appended

  ghost predicate ChildrenKept(t: Tree, t': Tree) {
    |t.nodes| <= |t'.nodes| && forall i | 0 <= i < |t.nodes| :: t.nodes[i].next <= t'.nodes[i].next
  }

  lemma {:induction false} ChildrenSame(t: Tree)
    ensures ChildrenKept(t, t)
  {
  }

  lemma {:induction false} ChildrenTransitive(a: Tree, b: Tree, c: Tree)
    requires ChildrenKept(a, b) && ChildrenKept(b, c)
    ensures ChildrenKept(a, c)
  {
  }

  lemma {:induction false} ScopeKeepsChildren(g: Graph, g': Graph, r: Reply, name: string)
    requires Wellformed(g) && (StepPush(g, name, g', r) || StepPop(g, g', r))
    ensures g'.failed || ChildrenKept(g.tree, g'.tree)
  {
    hide FindEvent, ViewAt;
  }

  lemma {:induction false} AllocKeepsChildren(g: Graph, g': Graph, r: Reply, size: nat, rogues: Rogues, grants: nat)
    requires Wellformed(g) && StepAlloc(g, size, rogues, grants, g', r)
    ensures g'.failed || ChildrenKept(g.tree, g'.tree)
  {
    hide FindEvent, SmallPlan, LargePlan, AddLarge, AddSmall, ViewAt;
  }

  lemma {:induction false} FreeKeepsChildren(g: Graph, g': Graph, r: Reply, small: bool, value: nat)
    requires Wellformed(g) && StepFree(g, small, value, g', r)
    ensures g'.failed || ChildrenKept(g.tree, g'.tree)
  {
    hide FindEvent, OwnsSmall, OwnsLarge, RemoveLarge, DropSmall, Untrack, ViewAt;
  }

  lemma {:induction false} StepKeepsChildren(g: Graph, op: Op, g': Graph, r: Reply)
    requires Step(g, op, g', r)
    ensures g'.failed || ChildrenKept(g.tree, g'.tree)
  {
    hide StepAlloc, StepFree, StepPush, StepPop, ChildrenKept;
    ChildrenSame(g.tree);
    if !g.failed && g.stack != [] {
      match op
      case OpPush(name) => ScopeKeepsChildren(g, g', r, name);
      case OpPop => ScopeKeepsChildren(g, g', r, "");
      case OpPushRoot =>
      case OpAlloc(size, rogues, grants) => AllocKeepsChildren(g, g', r, size, rogues, grants);
      case OpFree(small, value) => FreeKeepsChildren(g, g', r, small, value);
    }
  }

  lemma {:induction false} RunKeepsChildren(run: Run, i: nat, j: nat)
    requires IsRun(run) && i <= j < |run.states| && !run.states[j].failed
    ensures ChildrenKept(run.states[i].tree, run.states[j].tree)
    decreases j
  {
    hide Step, Allowed, ChildrenKept;
    if i == j {
      ChildrenSame(run.states[i].tree);
    } else {
      assert RunStep(run, j - 1);
      FailedBefore(run, j);
      StepKeepsChildren(run.states[j - 1], run.ops[j - 1], run.states[j], run.replies[j - 1]);
      RunKeepsChildren(run, i, j - 1);
      ChildrenTransitive(run.states[i].tree, run.states[j - 1].tree, run.states[j].tree);
    }
  }

  // ---------------------------------------------------------------- looking up in a larger tree

  /** With nothing escaped, what matches depends on the event alone. */
  predicate Answers(e: Event, want: Event) {
    Matches(e, want, [], NO_ROGUES)
  }

  lemma {:induction false} AnswersAnywhere(e: Event, want: Event, vaPhys: seq<nat>)
    ensures Matches(e, want, vaPhys, NO_ROGUES) <==> Answers(e, want)
  {
  }

  lemma {:induction false} MatchedAnswers(e: Event, want: Event, vaPhys: seq<nat>, rogues: Rogues)
    requires Matches(e, want, vaPhys, rogues)
    ensures Answers(e, want)
  {
  }

  /** A first match stays the first, and a further child is found when there was none. */
  lemma {:induction false} FirstKept(nodes: seq<Node>, nodes': seq<Node>, kids: seq<NodeId>, kids': seq<NodeId>,
                                     want: Event, vaPhys: seq<nat>, vaPhys': seq<nat>)
    requires SameEvents(nodes, nodes') && kids <= kids' && forall k | k in kids :: k < |nodes|
    ensures var found := FirstMatch(nodes, kids, want, vaPhys, NO_ROGUES);
            && (found.Some? ==> FirstMatch(nodes', kids', want, vaPhys', NO_ROGUES) == found)
            && (found.None? && |kids| < |kids'| && kids'[|kids|] < |nodes'| &&
                Answers(nodes'[kids'[|kids|]].event, want) ==>
                  FirstMatch(nodes', kids', want, vaPhys', NO_ROGUES) == Some(kids'[|kids|]))
    decreases |kids|
  {
    if kids == [] {
      if kids' != [] && kids'[0] < |nodes'| { AnswersAnywhere(nodes'[kids'[0]].event, want, vaPhys'); }
    } else {
      assert kids[0] in kids && kids'[0] == kids[0] && forall k | k in kids[1..] :: k in kids;
      AnswersAnywhere(nodes[kids[0]].event, want, vaPhys);
      AnswersAnywhere(nodes[kids[0]].event, want, vaPhys');
      FirstKept(nodes, nodes', kids[1..], kids'[1..], want, vaPhys, vaPhys');
    }
  }

  /** A match with escaped allocations in the way is a match without them. */
  lemma {:induction false} FoundPlainly(g: Graph, want: Event, rogues: Rogues)
    requires g.stack != [] && Cursor(g) < |g.tree.nodes|
    requires FindEvent(g, want, rogues).Some?
    ensures FindEvent(g, want, NO_ROGUES).Some?
    ensures FindEvent(g, want, rogues).value < |g.tree.nodes| &&
            Answers(g.tree.nodes[FindEvent(g, want, rogues).value].event, want)
  {
    var n := FindEvent(g, want, rogues).value;
    MatchedAnswers(g.tree.nodes[n].event, want, g.vaPhys, rogues);
    AnswersAnywhere(g.tree.nodes[n].event, want, g.vaPhys);
  }

  /** `h` stands where `g` stands, in a tree that has grown at least to `t`. */
  ghost predicate Later(g: Graph, t: Tree, h: Graph) {
    && g.stack != [] && h.stack != [] && Cursor(g) == Cursor(h) && Cursor(g) < |g.tree.nodes|
    && NextOk(g.tree.nodes) && ChildrenKept(g.tree, t) && ChildrenKept(t, h.tree)
    && SameEvents(g.tree.nodes, t.nodes) && SameEvents(t.nodes, h.tree.nodes)
  }

  /** `n` is the next child of the cursor in `t`. */
  ghost predicate NextChild(g: Graph, t: Tree, n: NodeId)
    requires g.stack != [] && Cursor(g) < |g.tree.nodes| <= |t.nodes|
  {
    g.tree.nodes[Cursor(g)].next + [n] <= t.nodes[Cursor(g)].next && |g.tree.nodes| <= n < |t.nodes|
  }

  /** What the larger tree answers, when `g` found `m` or added `n`. */
  lemma {:induction false} LaterFinds(g: Graph, t: Tree, h: Graph, want: Event)
    requires Later(g, t, h)
    ensures FindEvent(g, want, NO_ROGUES).Some? ==> FindEvent(h, want, NO_ROGUES) == FindEvent(g, want, NO_ROGUES)
    ensures forall n: nat | NextChild(g, t, n) && Answers(t.nodes[n].event, want) &&
            FindEvent(g, want, NO_ROGUES).None? ::
              FindEvent(h, want, NO_ROGUES) == Some(n)
  {
    hide FirstMatch, Answers;
    var c := Cursor(g);
    var kids, kids' := g.tree.nodes[c].next, h.tree.nodes[c].next;
    forall k | k in kids
      ensures k < |g.tree.nodes|
    {
      var i :| 0 <= i < |kids| && kids[i] == k;
      assert ChildOk(g.tree.nodes, c, g.tree.nodes[c].next[i]);
    }
    assert kids <= t.nodes[c].next <= kids';
    FirstKept(g.tree.nodes, h.tree.nodes, kids, kids', want, g.vaPhys, h.vaPhys);
  }

  // ---------------------------------------------------------------- where one call goes

  function Answer(op: Op, e: Event): Reply {
    if op.OpAlloc? then Gave(BlockOf(e)) else Done
  }

  function HeldAfter(op: Op, e: Event, held: set<Block>): set<Block> {
    match op
    case OpAlloc(_, _, _) => held + {BlockOf(e)}
    case OpFree(small, value) => WithoutAt(held, small, value)
    case _ => held
  }

  /** An allocation or free goes to the node found, or to a new child, and is answered by that node. */
  ghost predicate Goes(g: Graph, op: Op, g': Graph, r: Reply)
    requires Wellformed(g)
  {
    && |g'.stack| == |g.stack| && Cursor(g') < |g'.tree.nodes| && |g.tree.nodes| <= |g'.tree.nodes|
    && g'.stack[..|g.stack| - 1] == g.stack[..|g.stack| - 1]
    && Answers(g'.tree.nodes[Cursor(g')].event, Want(op))
    && r == Answer(op, g'.tree.nodes[Cursor(g')].event)
    && g'.client == SetTop(g.client, HeldAfter(op, g'.tree.nodes[Cursor(g')].event, g.client[|g.client| - 1]))
    && match LookedUp(g, op)
       case Some(n) => Cursor(g') == n && g' == g.(stack := g'.stack, client := g'.client)
                        && Top(g').recording == Top(g).recording
       case None => NextChild(g, g'.tree, Cursor(g'))
  }

  lemma {:induction false} RecordedShape(g: Graph, event: Event, v: View, tables: Tables, used: nat, held: set<Block>)
    requires Wellformed(g)
    ensures var g' := Recorded(g, event, v, tables, used, held);
            && Cursor(g') == |g.tree.nodes| && |g'.tree.nodes| == |g.tree.nodes| + 1
            && g'.tree.nodes[Cursor(g')].event == event && NextChild(g, g'.tree, Cursor(g'))
            && |g'.stack| == |g.stack| && g'.stack[..|g.stack| - 1] == g.stack[..|g.stack| - 1]
            && g'.client == SetTop(g.client, held)
  {
  }

  lemma {:induction false} RecordedAlloc(g: Graph, size: nat, rogues: Rogues, g': Graph, r: Reply)
    requires Wellformed(g) && RecordsAlloc(g, size, rogues, g', r)
    ensures r.Gave? && |g'.stack| == |g.stack| && g'.stack[..|g.stack| - 1] == g.stack[..|g.stack| - 1]
    ensures |g.tree.nodes| <= |g'.tree.nodes| && NextChild(g, g'.tree, Cursor(g')) && Cursor(g') < |g'.tree.nodes|
    ensures Answers(g'.tree.nodes[Cursor(g')].event, AllocEvent(size)) &&
            r.block == BlockOf(g'.tree.nodes[Cursor(g')].event)
    ensures g'.client == SetTop(g.client, g.client[|g.client| - 1] + {r.block})
  {
    hide SmallPlan, LargePlan, AddLarge, AddSmall, ViewAt, Recorded, NextChild;
    var v := ViewAt(g.tree, Cursor(g));
    var id, held := |g.tree.nodes|, g.client[|g.client| - 1] + {r.block};
    if size < MG_SMALL_LIMIT {
      var g1 := Grown(g, g.vaPhys, g.physCount, Max(g.smallSize, r.block.offset + AlignSmall(size)));
      var entry := SmallEntryFor(g1, r.block.offset, size);
      RecordedShape(g1, AllocSmall(r.block.offset, size), View(AddSmall(v.tables, entry), [id] + v.tracked),
                    AddSmall(g.tables, entry), g.used + AlignSmall(size), held);
      assert NextChild(g1, g'.tree, id);
      NextChildSame(g1, g, g'.tree, id);
    } else {
      var g1 := Grown(g, g'.vaPhys, g'.physCount, g.smallSize);
      var entry := LargeEntryFor(g1, size);
      RecordedShape(g1, Alloc(r.block.va, size),
                    View(AddLarge(v.tables, g1.vaPhys, r.block.va, entry), [id] + v.tracked),
                    AddLarge(g.tables, g1.vaPhys, r.block.va, entry), g.used + PagesOf(size) * MG_PAGE, held);
      NextChildSame(g1, g, g'.tree, id);
    }
  }

  lemma {:induction false} NextChildSame(g: Graph, g': Graph, t: Tree, n: NodeId)
    requires g.stack != [] && g'.stack != [] && g'.tree == g.tree &&
             Cursor(g') == Cursor(g) < |g.tree.nodes| <= |t.nodes|
    ensures NextChild(g, t, n) <==> NextChild(g', t, n)
  {
  }

  lemma {:induction false} AllocGoes(g: Graph, size: nat, rogues: Rogues, grants: nat, g': Graph, r: Reply)
    requires Wellformed(g) && StepAlloc(g, size, rogues, grants, g', r)
    requires !g'.failed || LookedUp(g, OpAlloc(size, rogues, grants)).Some?
    ensures Goes(g, OpAlloc(size, rogues, grants), g', r)
  {
    hide FindEvent, RecordsAlloc, ViewAt, NextChild, Answers;
    if LookedUp(g, OpAlloc(size, rogues, grants)).Some? {
      FoundPlainly(g, AllocEvent(size), rogues);
    } else {
      var g1 := Recording(g);
      RecordedAlloc(g1, size, rogues, g', r);
      NextChildSame(g1, g, g'.tree, Cursor(g'));
      assert g1.stack[..|g.stack| - 1] == g.stack[..|g.stack| - 1] && g1.client == g.client;
    }
  }

  lemma {:induction false} FreeGoes(g: Graph, small: bool, value: nat, g': Graph, r: Reply)
    requires Wellformed(g) && StepFree(g, small, value, g', r)
    requires !g'.failed || LookedUp(g, OpFree(small, value)).Some?
    ensures Goes(g, OpFree(small, value), g', r)
  {
    hide FindEvent, OwnsSmall, OwnsLarge, RemoveLarge, DropSmall, Untrack, ViewAt;
    if LookedUp(g, OpFree(small, value)).Some? {
      FoundPlainly(g, FreeEvent(small, value), NO_ROGUES);
    }
  }

  /** Where the same call goes later: to the same node exactly if it was fresh. */
  lemma {:induction false} LaterGoes(g: Graph, op: Op, again: Op, g': Graph, r: Reply, h: Graph)
    requires SameCall(op, again)
    requires (op.OpAlloc? || op.OpFree?) && Wellformed(g) && Wellformed(h) && Goes(g, op, g', r)
    requires Later(g, g'.tree, h) && !Top(h).recording
    ensures LookedUp(h, again).Some?
    ensures LookedUp(h, again) == Some(Cursor(g')) <==> Fresh(g, op)
  {
    hide FindEvent, Later, Answers, FirstMatch;
    LaterFinds(g, g'.tree, h, Want(op));
    if LookedUp(g, op).Some? {
      FoundPlainly(g, Want(op), Barred(op));
    } else if FindEvent(g, Want(op), NO_ROGUES).Some? {
      FoundPlainly(g, Want(op), NO_ROGUES);
    }
  }

  // ---------------------------------------------------------------- one call repeated

  /** Level `e + i` of `h` replays and holds what level `d + i` of `g` holds, at the same node. */
  ghost predicate LevelFollows(g: Graph, d: nat, h: Graph, e: nat, i: nat)
    requires |g.client| == |g.stack| && |h.client| == |h.stack| && d + i < |g.stack| && e + i < |h.stack|
  {
    h.stack[e + i].cursor == g.stack[d + i].cursor && !h.stack[e + i].recording && h.client[e + i] == g.client[d + i]
  }

  /** From level `e` on, `h` replays what `g` has on its levels from `d` on. */
  ghost predicate Follows(g: Graph, d: nat, h: Graph, e: nat) {
    && |g.client| == |g.stack| && |h.client| == |h.stack| && d <= |g.stack| && e <= |h.stack|
    && |g.stack| - d == |h.stack| - e
    && forall i: nat | i < |g.stack| - d :: LevelFollows(g, d, h, e, i)
  }

  /** Nothing but the place in the tree and what is held has changed. */
  ghost predicate OnlyMoved(h: Graph, h': Graph) {
    h' == h.(stack := h'.stack, client := h'.client)
  }

  lemma {:induction false} BlockFollows(g: Graph, d: nat, op: Op, again: Op, g': Graph, r: Reply, h: Graph, e: nat,
                                        h': Graph, r': Reply)
    requires (op.OpAlloc? || op.OpFree?) && Wellformed(g) && Wellformed(h) && |g.stack| > d
    requires Goes(g, op, g', r) && SameCall(op, again) && Goes(h, again, h', r')
    requires Follows(g, d, h, e) && Later(g, g'.tree, h)
    ensures Follows(g', d, h', e) <==> Fresh(g, op)
    ensures OnlyMoved(h, h') && (Fresh(g, op) ==> r' == r)
  {
    hide FindEvent, Answers, Fresh, Later;
    var last := |g.stack| - 1 - d;
    assert LevelFollows(g, d, h, e, last) && h.stack[e + last] == Top(h) && g.stack[d + last] == Top(g);
    LaterGoes(g, op, again, g', r, h);
    assert Follows(g', d, h', e) ==> LevelFollows(g', d, h', e, last);
    assert h'.stack[e + last] == Top(h') && g'.stack[d + last] == Top(g');
    if Fresh(g, op) {
      assert r' == r by { AnswerSame(g, op, again, g', r, h, h', r'); }
      forall i: nat | i < |g.stack| - d
        ensures LevelFollows(g', d, h', e, i)
      {
        assert LevelFollows(g, d, h, e, i);
        if i < last {
          assert h'.stack[..|h.stack| - 1][e + i] == h.stack[e + i] &&
                 g'.stack[..|g.stack| - 1][d + i] == g.stack[d + i];
        }
      }
    }
  }

  lemma {:induction false} AnswerSame(g: Graph, op: Op, again: Op, g': Graph, r: Reply, h: Graph, h': Graph, r': Reply)
    requires Wellformed(g) && Wellformed(h) && Goes(g, op, g', r) && SameCall(op, again) && Goes(h, again, h', r')
    requires Later(g, g'.tree, h) && LookedUp(h, again) == Some(Cursor(g'))
    ensures r' == r && Cursor(h') == Cursor(g')
    ensures h.client[|h.client| - 1] == g.client[|g.client| - 1] ==>
              h'.client[|h.client| - 1] == g'.client[|g.client| - 1]
  {
    hide FindEvent, Answers;
    assert h'.tree.nodes[Cursor(h')].event == g'.tree.nodes[Cursor(g')].event;
  }

  lemma {:induction false} PushLeads(g: Graph, name: string, g': Graph, r: Reply, h: Graph)
    requires Wellformed(g) && StepPush(g, name, g', r) && !g'.failed && h.stack != [] && Later(g, g'.tree, h)
    ensures r == Done && |g'.stack| == |g.stack| + 1 && g'.client == g.client + [{}]
    ensures forall i | 0 <= i < |g.stack| :: g'.stack[i].cursor == g.stack[i].cursor
    ensures var m := FindEvent(h, Call(name, 0), NO_ROGUES);
            m.Some? && m.value < |h.tree.nodes| && h.tree.nodes[m.value].event.Call? &&
            h.tree.nodes[m.value].event.scope == Cursor(g')
  {
    hide FindEvent, FirstMatch, Later, ViewAt;
    LaterFinds(g, g'.tree, h, Call(name, 0));
    var m := FindEvent(g, Call(name, 0), NO_ROGUES);
    if m.Some? {
      FoundPlainly(g, Call(name, 0), NO_ROGUES);
      assert Later(g, g'.tree, h) ==>
               h.tree.nodes[m.value].event == g.tree.nodes[m.value].event by { LaterEvent(g, g'.tree, h); }
    } else {
      var n := |g.tree.nodes| + 1;
      assert g'.tree.nodes[n].event == Call(name, |g.tree.nodes|) && Answers(g'.tree.nodes[n].event, Call(name, 0));
      assert NextChild(g, g'.tree, n);
      LaterEvent(g, g'.tree, h);
    }
  }

  lemma {:induction false} LaterEvent(g: Graph, t: Tree, h: Graph)
    requires Later(g, t, h)
    ensures |g.tree.nodes| <= |t.nodes| <= |h.tree.nodes|
    ensures forall n | 0 <= n < |t.nodes| :: h.tree.nodes[n].event == t.nodes[n].event
    ensures forall n | 0 <= n < |g.tree.nodes| :: h.tree.nodes[n].event == g.tree.nodes[n].event
  {
  }

  lemma {:induction false} PushFollows(g: Graph, d: nat, name: string, g': Graph, r: Reply, h: Graph, e: nat, h': Graph,
                                       r': Reply)
    requires Wellformed(g) && Wellformed(h) && |g.stack| > d && !g'.failed && Follows(g, d, h, e) &&
             Later(g, g'.tree, h)
    requires StepPush(g, name, g', r) && StepPush(h, name, h', r')
    ensures Follows(g', d, h', e) && OnlyMoved(h, h') && r' == r
  {
    hide FindEvent, Later;
    PushLeads(g, name, g', r, h);
    forall i: nat | i < |g'.stack| - d
      ensures LevelFollows(g', d, h', e, i)
    {
      if i < |g.stack| - d { assert LevelFollows(g, d, h, e, i); }
    }
  }

  lemma {:induction false} PopLeads(g: Graph, g': Graph, r: Reply, h: Graph)
    requires Wellformed(g) && StepPop(g, g', r) && !g'.failed && h.stack != [] && Later(g, g'.tree, h)
    ensures r == Done && FindEvent(h, End, NO_ROGUES).Some? && g'.client == g.client[..|g.client| - 1]
    ensures |g'.stack| == |g.stack| - 1 && forall i | 0 <= i < |g'.stack| :: g'.stack[i].cursor == g.stack[i].cursor
  {
    hide FindEvent, FirstMatch, Later, ViewAt;
    LaterFinds(g, g'.tree, h, End);
    var m := FindEvent(g, End, NO_ROGUES);
    if m.None? {
      var n := |g.tree.nodes|;
      assert NextChild(g, g'.tree, n) && Answers(g'.tree.nodes[n].event, End);
    }
  }

  lemma {:induction false} PopFollows(g: Graph, d: nat, g': Graph, r: Reply, h: Graph, e: nat, h': Graph, r': Reply)
    requires Wellformed(g) && Wellformed(h) && |g.stack| > d && !g'.failed && Follows(g, d, h, e) &&
             Later(g, g'.tree, h)
    requires StepPop(g, g', r) && StepPop(h, h', r')
    ensures Follows(g', d, h', e) && OnlyMoved(h, h') && r' == r
  {
    hide FindEvent, Later;
    PopLeads(g, g', r, h);
    assert LevelFollows(g, d, h, e, |g.stack| - 1 - d);
    forall i: nat | i < |g'.stack| - d
      ensures LevelFollows(g', d, h', e, i)
    {
      assert LevelFollows(g, d, h, e, i);
    }
  }

  lemma {:induction false} FollowsOpen(g: Graph, d: nat, h: Graph, e: nat)
    requires Follows(g, d, h, e) && |g.stack| > d
    ensures g.stack != [] && h.stack != [] && !Top(h).recording
  {
    assert LevelFollows(g, d, h, e, |g.stack| - 1 - d);
  }

  /**
   One call repeated where it was made before, in a tree that has since grown.  It is led
   to the same node exactly if it was fresh, and then gets the same answer and records
   nothing.
   */
  lemma {:induction false} StepFollows(g: Graph, d: nat, op: Op, again: Op, g': Graph, r: Reply, h: Graph, e: nat,
                                       h': Graph, r': Reply)
    requires !g.failed && !h.failed && |g.stack| > d && !g'.failed && Follows(g, d, h, e) && Later(g, g'.tree, h)
    requires Step(g, op, g', r) && SameCall(op, again) && Step(h, again, h', r')
    ensures Follows(g', d, h', e) <==> Fresh(g, op)
    ensures OnlyMoved(h, h') && (Fresh(g, op) ==> r' == r)
  {
    hide StepAlloc, StepFree, StepPush, StepPop, Follows, Later, Goes, FindEvent;
    FollowsOpen(g, d, h, e);
    match op
    case OpAlloc(size, rogues, grants) =>
      AllocGoes(g, size, rogues, grants, g', r);
      LaterGoes(g, op, again, g', r, h);
      AllocGoes(h, size, NO_ROGUES, again.grants, h', r');
      BlockFollows(g, d, op, again, g', r, h, e, h', r');
    case OpFree(small, value) =>
      FreeGoes(g, small, value, g', r);
      LaterGoes(g, op, again, g', r, h);
      FreeGoes(h, small, value, h', r');
      BlockFollows(g, d, op, again, g', r, h, e, h', r');
    case OpPush(name) => PushFollows(g, d, name, g', r, h, e, h', r');
    case OpPop => PopFollows(g, d, g', r, h, e, h', r');
    case OpPushRoot =>
  }

  // ---------------------------------------------------------------- a stretch of calls repeated

  /**
   From state `b` on, the run makes the `n` calls it made from state `a` on.  The scopes on
   levels `d` and `e`, and those inside them, stand at the same nodes at first, and the
   later ones replay.  The first stretch closes none of the scopes below.
   */
  ghost predicate Repeats(run: Run, a: nat, d: nat, b: nat, e: nat, n: nat)
    requires IsRun(run)
  {
    && a + n <= b && b + n < |run.states| && !run.states[b].failed
    && Follows(run.states[a], d, run.states[b], e)
    && (forall k: nat | k < n :: CallRepeated(run, a, d, b, k))
  }

  ghost predicate CallRepeated(run: Run, a: nat, d: nat, b: nat, k: nat)
    requires IsRun(run) && a + k <= b && b + k < |run.ops|
  {
    |run.states[a + k].stack| > d && SameCall(run.ops[a + k], run.ops[b + k])
  }

  ghost predicate FreshAt(run: Run, a: nat, k: nat)
    requires IsRun(run) && a + k < |run.ops|
  {
    Fresh(run.states[a + k], run.ops[a + k])
  }

  /** The first `n` calls of a stretch are fresh. */
  ghost predicate FreshStretch(run: Run, a: nat, n: nat)
    requires IsRun(run) && a + n < |run.states|
  {
    forall k: nat | k < n :: FreshAt(run, a, k)
  }

  ghost predicate FollowsAt(run: Run, a: nat, d: nat, b: nat, e: nat, k: nat)
    requires IsRun(run) && a + k < |run.states| && b + k < |run.states|
  {
    Follows(run.states[a + k], d, run.states[b + k], e)
  }

  ghost predicate SameReply(run: Run, a: nat, b: nat, k: nat)
    requires IsRun(run) && a + k < |run.ops| && b + k < |run.ops|
  {
    run.replies[b + k] == run.replies[a + k]
  }

  /** What the repetition has come to after `k` calls. */
  ghost predicate Repeated(run: Run, a: nat, d: nat, b: nat, e: nat, k: nat)
    requires IsRun(run) && a + k <= b && b + k < |run.states|
  {
    && FollowsAt(run, a, d, b, e, k)
    && OnlyMoved(run.states[b], run.states[b + k])
    && forall i: nat | i < k :: SameReply(run, a, b, i)
  }

  lemma {:induction false} SoundBefore(run: Run, i: nat, j: nat)
    requires IsRun(run) && i <= j < |run.states| && !run.states[j].failed
    ensures !run.states[i].failed
  {
    if run.states[i].failed { FailedStays(run, i, j); }
  }

  lemma {:induction false} LaterInRun(run: Run, i: nat, j: nat, h: Graph)
    requires IsRun(run) && i < j < |run.states| && !run.states[j].failed && run.states[i].stack != []
    requires h.stack != [] && Cursor(h) == Cursor(run.states[i]) && h.tree == run.states[j].tree
    ensures Later(run.states[i], run.states[i + 1].tree, h)
  {
    hide Step, Allowed, Inv;
    SoundBefore(run, i, j);
    SoundBefore(run, i + 1, j);
    RunInv(run, i);
    TopFacts(run.states[i]);
    InvTree(run.states[i]);
    RunKeepsChildren(run, i, i + 1);
    RunKeepsChildren(run, i + 1, j);
    RunExtends(run, i, i + 1);
    RunExtends(run, i + 1, j);
  }

  lemma {:induction false} NextRepeated(run: Run, a: nat, d: nat, b: nat, e: nat, n: nat, k: nat)
    requires IsRun(run) && Repeats(run, a, d, b, e, n) && k < n && Repeated(run, a, d, b, e, k)
    ensures FreshAt(run, a, k) ==> Repeated(run, a, d, b, e, k + 1)
    ensures FreshAt(run, a, k) <==> FollowsAt(run, a, d, b, e, k + 1)
  {
    hide Step, Allowed, Fresh, Later;
    var g, h := run.states[a + k], run.states[b + k];
    assert CallRepeated(run, a, d, b, k) && RunStep(run, a + k) && RunStep(run, b + k);
    SoundBefore(run, a + k, b);
    SoundBefore(run, a + k + 1, b);
    FollowsOpen(g, d, h, e);
    assert LevelFollows(g, d, h, e, |g.stack| - 1 - d);
    LaterInRun(run, a + k, b, h);
    StepFollows(g, d, run.ops[a + k], run.ops[b + k], run.states[a + k + 1], run.replies[a + k],
                h, e, run.states[b + k + 1], run.replies[b + k]);
    assert a + (k + 1) == a + k + 1 && b + (k + 1) == b + k + 1;
    assert FreshAt(run, a, k) ==> SameReply(run, a, b, k);
  }

  lemma {:induction false} RepeatStarts(run: Run, a: nat, d: nat, b: nat, e: nat, n: nat)
    requires IsRun(run) && Repeats(run, a, d, b, e, n)
    ensures Repeated(run, a, d, b, e, 0)
  {
    assert a + 0 == a && b + 0 == b;
  }

  /**
   A repetition of fresh calls gets the answers they got, and neither records nor rebuilds
   anything: tree, tables, usage and page map stay as they are.
   */
  lemma {:induction false} FreshRepeats(run: Run, a: nat, d: nat, b: nat, e: nat, n: nat, k: nat)
    requires IsRun(run) && Repeats(run, a, d, b, e, n) && k <= n && FreshStretch(run, a, k)
    ensures Repeated(run, a, d, b, e, k)
    decreases k
  {
    hide FreshAt, FollowsAt, OnlyMoved, Repeated;
    if k == 0 {
      RepeatStarts(run, a, d, b, e, n);
    } else {
      FreshRepeats(run, a, d, b, e, n, k - 1);
      NextRepeated(run, a, d, b, e, n, k - 1);
      assert FreshAt(run, a, k - 1);
    }
  }

  /**
   Replay, with its exact condition.  The repetition is led along the nodes of the first
   pass throughout if and only if every allocation and free of the first pass was fresh.
   */
  lemma {:induction false} RepeatsIff(run: Run, a: nat, d: nat, b: nat, e: nat, n: nat)
    requires IsRun(run) && Repeats(run, a, d, b, e, n)
    ensures FreshStretch(run, a, n) <==> forall k: nat | k <= n :: FollowsAt(run, a, d, b, e, k)
    ensures FreshStretch(run, a, n) ==> Repeated(run, a, d, b, e, n)
  {
    hide FreshAt, Follows, OnlyMoved;
    if FreshStretch(run, a, n) {
      forall k: nat | k <= n
        ensures FollowsAt(run, a, d, b, e, k)
      {
        FreshRepeats(run, a, d, b, e, n, k);
      }
      FreshRepeats(run, a, d, b, e, n, n);
    } else if forall k: nat | k <= n :: FollowsAt(run, a, d, b, e, k) {
      FollowedIsFresh(run, a, d, b, e, n, n);
    }
  }

  lemma {:induction false} FollowedIsFresh(run: Run, a: nat, d: nat, b: nat, e: nat, n: nat, k: nat)
    requires IsRun(run) && Repeats(run, a, d, b, e, n) && k <= n
    requires forall i: nat | i <= n :: FollowsAt(run, a, d, b, e, i)
    ensures FreshStretch(run, a, k)
    decreases k
  {
    hide FreshAt, FollowsAt, Repeated;
    if k > 0 {
      FollowedIsFresh(run, a, d, b, e, n, k - 1);
      FreshRepeats(run, a, d, b, e, n, k - 1);
      NextRepeated(run, a, d, b, e, n, k - 1);
      assert FollowsAt(run, a, d, b, e, k);
    }
  }

  /** A new pass over a complete graph stands where every pass began, the recording one included. */
  lemma {:induction false} NewPass(run: Run, a: nat, b: nat)
    requires IsRun(run) && a <= b < |run.ops| && !run.states[b].failed
    requires |run.states[a].stack| == 1 && Cursor(run.states[a]) == 0 && run.states[a].client == [{}]
    requires run.states[b].stack == [] && run.ops[b] == OpPushRoot
    ensures Follows(run.states[a], 0, run.states[b + 1], 0)
  {
    hide Inv;
    assert RunStep(run, b);
    RunInv(run, b);
    InvTree(run.states[b]);
  }
}
