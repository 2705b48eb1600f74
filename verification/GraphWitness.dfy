/**
 A run in which closing a scope is not neutral: the root records, an outer scope
 replays and holds a block, and a scope inside that one breaks.
 */
module GraphWitness {
  import opened Basics
  import opened GraphTables
  import opened GraphTree
  import opened GraphRun
  import opened GraphSteps
  import opened GraphAlloc
  import opened GraphFree
  import opened GraphReplay
  import opened GraphSearch
  import opened SmallHeap
  import opened GraphOps
  import opened GraphSafety
  import opened GraphRuns
  import opened GraphRepeat

  // The outer scope and its inner one are recorded once.  On the second pass the outer one
  // replays, but the inner one meets a new scope "deep" and so breaks.  `NODES_N` is the
  // tree when it has N nodes, `GN` the state after N calls.

  /** The block the outer scope allocates and frees, and the tables while it is alive. */
  const HELD := Small(0, 4096)
  const HELD_TABLES := Tables(map[], {}, [SmallRange(0, 4096, 2, 3)])

  const NOTHING := View(EMPTY_TABLES, [])
  const HOLDING := View(HELD_TABLES, [3])
  const INSIDE := View(HELD_TABLES, [])

  function GraphOf(t: Tree, stack: seq<State>, tables: Tables, used: nat, client: seq<set<Block>>): Graph {
    var reached := if |t.nodes| > 3 then 4096 else 0;
    Graph(t, stack, tables, [], 0, reached, used, reached, false, false, client)
  }

  const NODES_1: seq<Node> := [
    Node(Sentinel, 0, [], Some(EMPTY_TABLES))]

  const NODES_3: seq<Node> := [
    Node(Sentinel, 0, [2], Some(EMPTY_TABLES)),
    Node(Sentinel, 0, [], Some(EMPTY_TABLES)),
    Node(Call("outer", 1), 0, [], None)]

  const NODES_4: seq<Node> := [
    Node(Sentinel, 0, [2], Some(EMPTY_TABLES)),
    Node(Sentinel, 0, [3], Some(EMPTY_TABLES)),
    Node(Call("outer", 1), 0, [], None),
    Node(AllocSmall(0, 4096), 1, [], None)]

  const NODES_6: seq<Node> := [
    Node(Sentinel, 0, [2], Some(EMPTY_TABLES)),
    Node(Sentinel, 0, [3], Some(EMPTY_TABLES)),
    Node(Call("outer", 1), 0, [], None),
    Node(AllocSmall(0, 4096), 1, [5], None),
    Node(Sentinel, 0, [], Some(HELD_TABLES)),
    Node(Call("inner", 4), 3, [], None)]

  const NODES_7: seq<Node> := [
    Node(Sentinel, 0, [2], Some(EMPTY_TABLES)),
    Node(Sentinel, 0, [3], Some(EMPTY_TABLES)),
    Node(Call("outer", 1), 0, [], None),
    Node(AllocSmall(0, 4096), 1, [5], None),
    Node(Sentinel, 0, [6], Some(HELD_TABLES)),
    Node(Call("inner", 4), 3, [], None),
    Node(End, 4, [], None)]

  const NODES_8: seq<Node> := [
    Node(Sentinel, 0, [2], Some(EMPTY_TABLES)),
    Node(Sentinel, 0, [3], Some(EMPTY_TABLES)),
    Node(Call("outer", 1), 0, [], None),
    Node(AllocSmall(0, 4096), 1, [5, 7], None),
    Node(Sentinel, 0, [6], Some(HELD_TABLES)),
    Node(Call("inner", 4), 3, [], None),
    Node(End, 4, [], None),
    Node(FreeSmall(0), 3, [], None)]

  const NODES_9: seq<Node> := [
    Node(Sentinel, 0, [2], Some(EMPTY_TABLES)),
    Node(Sentinel, 0, [3], Some(EMPTY_TABLES)),
    Node(Call("outer", 1), 0, [], None),
    Node(AllocSmall(0, 4096), 1, [5, 7], None),
    Node(Sentinel, 0, [6], Some(HELD_TABLES)),
    Node(Call("inner", 4), 3, [], None),
    Node(End, 4, [], None),
    Node(FreeSmall(0), 3, [8], None),
    Node(End, 7, [], None)]

  const NODES_11: seq<Node> := [
    Node(Sentinel, 0, [2], Some(EMPTY_TABLES)),
    Node(Sentinel, 0, [3], Some(EMPTY_TABLES)),
    Node(Call("outer", 1), 0, [], None),
    Node(AllocSmall(0, 4096), 1, [5, 7], None),
    Node(Sentinel, 0, [6, 10], Some(HELD_TABLES)),
    Node(Call("inner", 4), 3, [], None),
    Node(End, 4, [], None),
    Node(FreeSmall(0), 3, [8], None),
    Node(End, 7, [], None),
    Node(Sentinel, 0, [], Some(HELD_TABLES)),
    Node(Call("deep", 9), 4, [], None)]

  const NODES_12: seq<Node> := [
    Node(Sentinel, 0, [2], Some(EMPTY_TABLES)),
    Node(Sentinel, 0, [3], Some(EMPTY_TABLES)),
    Node(Call("outer", 1), 0, [], None),
    Node(AllocSmall(0, 4096), 1, [5, 7], None),
    Node(Sentinel, 0, [6, 10], Some(HELD_TABLES)),
    Node(Call("inner", 4), 3, [], None),
    Node(End, 4, [], None),
    Node(FreeSmall(0), 3, [8], None),
    Node(End, 7, [], None),
    Node(Sentinel, 0, [11], Some(HELD_TABLES)),
    Node(Call("deep", 9), 4, [], None),
    Node(End, 9, [], None)]

  const NODES_13: seq<Node> := [
    Node(Sentinel, 0, [2], Some(EMPTY_TABLES)),
    Node(Sentinel, 0, [3], Some(EMPTY_TABLES)),
    Node(Call("outer", 1), 0, [], None),
    Node(AllocSmall(0, 4096), 1, [5, 7], None),
    Node(Sentinel, 0, [6, 10, 12], Some(HELD_TABLES)),
    Node(Call("inner", 4), 3, [], None),
    Node(End, 4, [], None),
    Node(FreeSmall(0), 3, [8], None),
    Node(End, 7, [], None),
    Node(Sentinel, 0, [11], Some(HELD_TABLES)),
    Node(Call("deep", 9), 4, [], None),
    Node(End, 9, [], None),
    Node(End, 4, [], None)]

  const NOTES: seq<Note> := [
    Note(NOTHING, 1, 0),
    Note(NOTHING, 2, 1),
    Note(NOTHING, 1, 0),
    Note(HOLDING, 2, 1),
    Note(INSIDE, 3, 4),
    Note(HOLDING, 2, 1),
    Note(INSIDE, 3, 4),
    Note(NOTHING, 2, 1),
    Note(NOTHING, 2, 1),
    Note(INSIDE, 4, 9),
    Note(INSIDE, 3, 4),
    Note(INSIDE, 4, 9),
    Note(INSIDE, 3, 4)]

  function G0(): Graph {
    GraphOf(Tree(NODES_1, NOTES[..1]),
            [State(0, [], 1, true, false)],
            EMPTY_TABLES, 0, [{}])
  }

  function G1(): Graph {
    GraphOf(Tree(NODES_3, NOTES[..3]),
            [State(0, [], 1, true, false), State(1, [], 2, true, false)],
            EMPTY_TABLES, 0, [{}, {}])
  }

  function G2(): Graph {
    GraphOf(Tree(NODES_4, NOTES[..4]),
            [State(0, [], 1, true, false), State(3, [3], 2, true, false)],
            HELD_TABLES, 4096, [{}, {HELD}])
  }

  function G3(): Graph {
    GraphOf(Tree(NODES_6, NOTES[..6]),
            [State(0, [], 1, true, false), State(3, [3], 2, true, false), State(4, [], 3, true, false)],
            HELD_TABLES, 4096, [{}, {HELD}, {}])
  }

  function G4(): Graph {
    GraphOf(Tree(NODES_7, NOTES[..7]),
            [State(0, [], 1, true, false), State(3, [3], 2, true, false)],
            HELD_TABLES, 4096, [{}, {HELD}])
  }

  function G5(): Graph {
    GraphOf(Tree(NODES_8, NOTES[..8]),
            [State(0, [], 1, true, false), State(7, [], 2, true, false)],
            EMPTY_TABLES, 0, [{}, {}])
  }

  function G6(): Graph {
    GraphOf(Tree(NODES_9, NOTES[..9]),
            [State(0, [], 1, true, false)],
            EMPTY_TABLES, 0, [{}])
  }

  function G7(): Graph {
    GraphOf(Tree(NODES_9, NOTES[..9]),
            [State(0, [], 1, true, false), State(1, [], 2, false, false)],
            EMPTY_TABLES, 0, [{}, {}])
  }

  function G8(): Graph {
    GraphOf(Tree(NODES_9, NOTES[..9]),
            [State(0, [], 1, true, false), State(3, [], 2, false, false)],
            EMPTY_TABLES, 0, [{}, {HELD}])
  }

  function G9(): Graph {
    GraphOf(Tree(NODES_9, NOTES[..9]),
            [State(0, [], 1, true, false), State(3, [], 2, false, false), State(4, [], 3, false, false)],
            EMPTY_TABLES, 0, [{}, {HELD}, {}])
  }

  function G10(): Graph {
    GraphOf(Tree(NODES_11, NOTES[..11]),
            [State(0, [], 1, true, false), State(3, [], 2, false, false), State(4, [], 3, true, true),
             State(9, [], 4, true, false)],
            HELD_TABLES, 4096, [{}, {HELD}, {}, {}])
  }

  function G11(): Graph {
    GraphOf(Tree(NODES_12, NOTES[..12]),
            [State(0, [], 1, true, false), State(3, [], 2, false, false), State(4, [], 3, true, true)],
            HELD_TABLES, 4096, [{}, {HELD}, {}])
  }

  function G12(): Graph {
    GraphOf(Tree(NODES_13, NOTES[..13]),
            [State(0, [], 1, true, false), State(3, [], 2, false, false)],
            HELD_TABLES, 4096, [{}, {HELD}])
  }

  function G13(): Graph {
    GraphOf(Tree(NODES_13, NOTES[..13]),
            [State(0, [], 1, true, false), State(7, [], 2, false, false)],
            HELD_TABLES, 4096, [{}, {}])
  }

  function G14(): Graph {
    GraphOf(Tree(NODES_13, NOTES[..13]),
            [State(0, [], 1, true, false)],
            HELD_TABLES, 4096, [{}])
  }

  lemma {:induction false} FirstPlan()
    ensures SmallPlan(G1(), NO_ROGUES, 4096, 0)
    ensures InsertSmall([], SmallRange(0, 4096, 2, 3)) == [SmallRange(0, 4096, 2, 3)]
  {
    assert !GapFits([], 0, 0, 4096);
  }

  lemma {:induction false} Step0()
    ensures Allowed(G0(), OpPush("outer")) && Wellformed(G0())
    ensures Step(G0(), OpPush("outer"), G1(), Done)
  {
    assert FindEvent(G0(), Call("outer", 0), NO_ROGUES).None?;
    var a := Pushed(NewScope(Recording(G0()), "outer"), 1, true);
    assert a.tree.nodes[0].next == NODES_3[0].next;
    assert a.tree.nodes == NODES_3;
    assert a.tree.notes == NOTES[..3];
    assert a.stack == G1().stack && a.client == G1().client;
    assert a.tables == G1().tables && a.used == G1().used;
  }

  lemma {:induction false} Step1()
    ensures Allowed(G1(), OpAlloc(4096, NO_ROGUES, 1)) && Wellformed(G1())
    ensures Step(G1(), OpAlloc(4096, NO_ROGUES, 1), G2(), Gave(HELD))
  {
    hide SmallPlan, InsertSmall;
    FirstPlan();
    var a := AllocatedSmall(Grown(G1(), [], 0, 4096), 0, 4096);
    assert a.tree.nodes[1].next == NODES_4[1].next;
    assert {} + {HELD} == {HELD};
    assert [3] + [] == [3];
    assert a.tree.nodes == NODES_4;
    assert a.tree.notes == NOTES[..4];
    assert a.stack == G2().stack && a.client == G2().client;
    assert a.tables == G2().tables && a.used == G2().used;
  }

  lemma {:induction false} Step2()
    ensures Allowed(G2(), OpPush("inner")) && Wellformed(G2())
    ensures Step(G2(), OpPush("inner"), G3(), Done)
  {
    assert FindEvent(G2(), Call("inner", 0), NO_ROGUES).None?;
    var a := Pushed(NewScope(Recording(G2()), "inner"), 4, true);
    assert a.tree.nodes[3].next == NODES_6[3].next;
    assert a.tree.nodes == NODES_6;
    assert a.tree.notes == NOTES[..6];
    assert a.stack == G3().stack && a.client == G3().client;
    assert a.tables == G3().tables && a.used == G3().used;
  }

  lemma {:induction false} Step3()
    ensures Allowed(G3(), OpPop) && Wellformed(G3())
    ensures Step(G3(), OpPop, G4(), Done)
  {
    var a := Popped(Ended(G3()));
    assert a.tree.nodes[4].next == NODES_7[4].next;
    assert a.tree.nodes == NODES_7;
    assert a.tree.notes == NOTES[..7];
    assert a.stack == G4().stack && a.client == G4().client;
    assert a.tables == G4().tables && a.used == G4().used;
  }

  lemma {:induction false} Step4()
    ensures Allowed(G4(), OpFree(true, 0)) && Wellformed(G4())
    ensures Step(G4(), OpFree(true, 0), G5(), Done)
  {
    assert SmallAt(HELD_TABLES.smallRanges, 0) && OwnsSmall(G4(), 0);
    assert DropSmall(HELD_TABLES, 0) == EMPTY_TABLES;
    assert Untrack([3], 3) == [];
    assert WithoutAt({HELD}, true, 0) == {};
    assert Position(HELD_TABLES.smallRanges, 0) == 0 && 3 in HOLDING.tracked;
    assert Cursor(G4()) == 3 && ViewAt(G4().tree, 3) == HOLDING;
    assert G4().tables.smallRanges[0].bytes <= G4().used;
    assert FreedSmall.requires(G4(), 0);
    var a := FreedSmall(G4(), 0);
    assert a.tree.nodes[3].next == NODES_8[3].next;
    assert a.tree.nodes == NODES_8;
    assert a.tree.notes == NOTES[..8];
    assert a.stack == G5().stack && a.client == G5().client;
    assert a.tables == G5().tables && a.used == G5().used;
  }

  lemma {:induction false} Step5()
    ensures Allowed(G5(), OpPop) && Wellformed(G5())
    ensures Step(G5(), OpPop, G6(), Done)
  {
    var a := Popped(Ended(G5()));
    assert a.tree.nodes[7].next == NODES_9[7].next;
    assert a.tree.nodes == NODES_9;
    assert a.tree.notes == NOTES[..9];
    assert a.stack == G6().stack && a.client == G6().client;
    assert a.tables == G6().tables && a.used == G6().used;
  }

  lemma {:induction false} Step6()
    ensures Allowed(G6(), OpPush("outer")) && Wellformed(G6())
    ensures Step(G6(), OpPush("outer"), G7(), Done)
  {
    assert FindEvent(G6(), Call("outer", 0), NO_ROGUES) == Some(2);
    var a := Pushed(G6(), 1, false);
    assert a.tree.nodes == NODES_9;
    assert a.tree.notes == NOTES[..9];
    assert a.stack == G7().stack && a.client == G7().client;
    assert a.tables == G7().tables && a.used == G7().used;
  }

  lemma {:induction false} Step7()
    ensures Allowed(G7(), OpAlloc(4096, NO_ROGUES, 1)) && Wellformed(G7())
    ensures Step(G7(), OpAlloc(4096, NO_ROGUES, 1), G8(), Gave(HELD))
  {
    assert FindEvent(G7(), AllocSmall(0, 4096), NO_ROGUES) == Some(3);
    var a := MoveTo(G7(), 3, {} + {HELD});
    assert {} + {HELD} == {HELD};
    assert a.tree.nodes == NODES_9;
    assert a.tree.notes == NOTES[..9];
    assert a.stack == G8().stack && a.client == G8().client;
    assert a.tables == G8().tables && a.used == G8().used;
  }

  lemma {:induction false} Step8()
    ensures Allowed(G8(), OpPush("inner")) && Wellformed(G8())
    ensures Step(G8(), OpPush("inner"), G9(), Done)
  {
    assert FindEvent(G8(), Call("inner", 0), NO_ROGUES) == Some(5);
    var a := Pushed(G8(), 4, false);
    assert a.tree.nodes == NODES_9;
    assert a.tree.notes == NOTES[..9];
    assert a.stack == G9().stack && a.client == G9().client;
    assert a.tables == G9().tables && a.used == G9().used;
  }

  lemma {:induction false} Step9()
    ensures Allowed(G9(), OpPush("deep")) && Wellformed(G9())
    ensures Step(G9(), OpPush("deep"), G10(), Done)
  {
    assert FindEvent(G9(), Call("deep", 0), NO_ROGUES).None?;
    var a := Pushed(NewScope(Recording(G9()), "deep"), 9, true);
    assert a.tree.nodes[4].next == NODES_11[4].next;
    assert a.tree.nodes == NODES_11;
    assert a.tree.notes == NOTES[..11];
    assert a.stack == G10().stack && a.client == G10().client;
    assert a.tables == G10().tables && a.used == G10().used;
  }

  lemma {:induction false} Step10()
    ensures Allowed(G10(), OpPop) && Wellformed(G10())
    ensures Step(G10(), OpPop, G11(), Done)
  {
    var a := Popped(Ended(G10()));
    assert a.tree.nodes[9].next == NODES_12[9].next;
    assert a.tree.nodes == NODES_12;
    assert a.tree.notes == NOTES[..12];
    assert a.stack == G11().stack && a.client == G11().client;
    assert a.tables == G11().tables && a.used == G11().used;
  }

  lemma {:induction false} Step11()
    ensures Allowed(G11(), OpPop) && Wellformed(G11())
    ensures Step(G11(), OpPop, G12(), Done)
  {
    var a := Popped(Ended(G11()));
    assert a.tree.nodes[4].next == NODES_13[4].next;
    assert a.tree.nodes == NODES_13;
    assert a.tree.notes == NOTES[..13];
    assert a.stack == G12().stack && a.client == G12().client;
    assert a.tables == G12().tables && a.used == G12().used;
  }

  lemma {:induction false} Step12()
    ensures Allowed(G12(), OpFree(true, 0)) && Wellformed(G12())
    ensures Step(G12(), OpFree(true, 0), G13(), Done)
  {
    assert FindEvent(G12(), FreeSmall(0), NO_ROGUES) == Some(7);
    assert WithoutAt({HELD}, true, 0) == {};
    var a := MoveTo(G12(), 7, WithoutAt({HELD}, true, 0));
    assert a.tree.nodes == NODES_13;
    assert a.tree.notes == NOTES[..13];
    assert a.stack == G13().stack && a.client == G13().client;
    assert a.tables == G13().tables && a.used == G13().used;
  }

  lemma {:induction false} Step13()
    ensures Allowed(G13(), OpPop) && Wellformed(G13())
    ensures Step(G13(), OpPop, G14(), Done)
  {
    assert FindEvent(G13(), End, NO_ROGUES) == Some(8);
    var a := Popped(G13());
    assert a.tree.nodes == NODES_13;
    assert a.tree.notes == NOTES[..13];
    assert a.stack == G14().stack && a.client == G14().client;
    assert a.tables == G14().tables && a.used == G14().used;
  }

  /** The run through all these states. */
  function TheRun(): Run {
    Run([G0(), G1(), G2(), G3(), G4(), G5(), G6(), G7(), G8(), G9(), G10(), G11(), G12(), G13(), G14()],
        [OpPush("outer"), OpAlloc(4096, NO_ROGUES, 1), OpPush("inner"), OpPop, OpFree(true, 0), OpPop,
         OpPush("outer"), OpAlloc(4096, NO_ROGUES, 1), OpPush("inner"), OpPush("deep"), OpPop, OpPop, OpFree(true, 0),
         OpPop],
        [Done, Gave(HELD), Done, Done, Done, Done, Done, Gave(HELD), Done, Done, Done, Done, Done, Done])
  }

  lemma {:induction false} RunStepAt(i: nat)
    requires i < |TheRun().ops|
    ensures RunStep(TheRun(), i)
  {
    hide Step, Allowed, Wellformed, G0, G1, G2, G3, G4, G5, G6, G7, G8, G9, G10, G11, G12, G13, G14;
    match i
    case 0 => Step0();
    case 1 => Step1();
    case 2 => Step2();
    case 3 => Step3();
    case 4 => Step4();
    case 5 => Step5();
    case 6 => Step6();
    case 7 => Step7();
    case 8 => Step8();
    case 9 => Step9();
    case 10 => Step10();
    case 11 => Step11();
    case 12 => Step12();
    case _ => Step13();
  }

  lemma {:induction false} StartsInitial()
    ensures G0() == Initial(false)
  {
    assert NOTES[..1] == [Note(NOTHING, 1, 0)];
  }

  lemma {:induction false} IsARun()
    ensures IsRun(TheRun())
  {
    hide RunStep, Initial, G0, G1, G2, G3, G4, G5, G6, G7, G8, G9, G10, G11, G12, G13, G14;
    StartsInitial();
    forall i | 0 <= i < |TheRun().ops|
      ensures RunStep(TheRun(), i)
    {
      RunStepAt(i);
    }
  }

  /**
   Neutrality fails.  In this run every scope is closed holding nothing, and at the
   end the client holds nothing and only the root scope is open, which has recorded
   throughout; still the working tables keep the outer scope's freed block, and
   `used` counts it.  The only closing that is not neutral is the one of the broken
   inner scope, while the outer one replays and holds that block.
   */
  lemma {:induction false} NeutralityFails()
    ensures IsRun(TheRun()) && |TheRun().states| == 15
    ensures !NeutralStep(TheRun().states[11])
    ensures var g := TheRun().states[14];
            && !g.failed && |g.stack| == 1 && Top(g).recording && !Top(g).broken && g.client == [{}]
            && Cursor(g) == 0 && ViewAt(g.tree, 0).tables == EMPTY_TABLES
            && g.used == 4096 && !Exact(g)
  {
    IsARun();
    var g, h := G11(), G14();
    assert Innermost(g.stack[..2], 0);
    assert HeldBetween(g.stack, g.client, 0) by { assert g.client[1] == {HELD}; }
    assert Innermost(h.stack, 0);
    assert h.tables != EMPTY_TABLES;
  }

  // ---------------------------------------------------------------- a free recorded beside one that matches

  // The second pass again, but the new scope comes where "inner" stood.  The outer scope
  // records from there on, and its free is recorded although node 7 is one already.

  const NODES_B11: seq<Node> := [
    Node(Sentinel, 0, [2], Some(EMPTY_TABLES)),
    Node(Sentinel, 0, [3], Some(EMPTY_TABLES)),
    Node(Call("outer", 1), 0, [], None),
    Node(AllocSmall(0, 4096), 1, [5, 7, 10], None),
    Node(Sentinel, 0, [6], Some(HELD_TABLES)),
    Node(Call("inner", 4), 3, [], None),
    Node(End, 4, [], None),
    Node(FreeSmall(0), 3, [8], None),
    Node(End, 7, [], None),
    Node(Sentinel, 0, [], Some(HELD_TABLES)),
    Node(Call("deep", 9), 3, [], None)]

  const NODES_B12: seq<Node> := [
    Node(Sentinel, 0, [2], Some(EMPTY_TABLES)),
    Node(Sentinel, 0, [3], Some(EMPTY_TABLES)),
    Node(Call("outer", 1), 0, [], None),
    Node(AllocSmall(0, 4096), 1, [5, 7, 10], None),
    Node(Sentinel, 0, [6], Some(HELD_TABLES)),
    Node(Call("inner", 4), 3, [], None),
    Node(End, 4, [], None),
    Node(FreeSmall(0), 3, [8], None),
    Node(End, 7, [], None),
    Node(Sentinel, 0, [11], Some(HELD_TABLES)),
    Node(Call("deep", 9), 3, [], None),
    Node(End, 9, [], None)]

  const NOTES_B: seq<Note> := NOTES[..9] + [Note(INSIDE, 3, 9), Note(HOLDING, 2, 1), Note(INSIDE, 3, 9)]

  function B9(): Graph {
    GraphOf(Tree(NODES_B11, NOTES_B[..11]),
            [State(0, [], 1, true, false), State(3, [3], 2, true, true), State(9, [], 3, true, false)],
            HELD_TABLES, 4096, [{}, {HELD}, {}])
  }

  function B10(): Graph {
    GraphOf(Tree(NODES_B12, NOTES_B),
            [State(0, [], 1, true, false), State(3, [3], 2, true, true)],
            HELD_TABLES, 4096, [{}, {HELD}])
  }

  lemma {:induction false} StepB8()
    ensures Allowed(G8(), OpPush("deep")) && Wellformed(G8())
    ensures Step(G8(), OpPush("deep"), B9(), Done)
  {
    assert FindEvent(G8(), Call("deep", 0), NO_ROGUES).None?;
    var a := Pushed(NewScope(Recording(G8()), "deep"), 9, true);
    assert a.tree.nodes[3].next == NODES_B11[3].next;
    assert a.tree.nodes == NODES_B11;
    assert a.tree.notes == NOTES_B[..11];
    assert a.stack == B9().stack && a.client == B9().client;
    assert a.tables == B9().tables && a.used == B9().used;
  }

  lemma {:induction false} StepB9()
    ensures Allowed(B9(), OpPop) && Wellformed(B9())
    ensures Step(B9(), OpPop, B10(), Done)
  {
    var a := Popped(Ended(B9()));
    assert a.tree.nodes[9].next == NODES_B12[9].next;
    assert a.tree.nodes == NODES_B12;
    assert a.tree.notes == NOTES_B;
    assert a.stack == B10().stack && a.client == B10().client;
    assert a.tables == B10().tables && a.used == B10().used;
  }

  // The free is recorded as node 12, both scopes end, and a new pass makes the same calls.

  const NODES_B13: seq<Node> :=
    NODES_B12[3 := Node(AllocSmall(0, 4096), 1, [5, 7, 10, 12], None)] + [Node(FreeSmall(0), 3, [], None)]

  const NODES_B14: seq<Node> :=
    NODES_B13[12 := Node(FreeSmall(0), 3, [13], None)] + [Node(End, 12, [], None)]

  const NODES_B15: seq<Node> :=
    NODES_B14[0 := Node(Sentinel, 0, [2, 14], Some(EMPTY_TABLES))] + [Node(End, 0, [], None)]

  const NOTES_B15: seq<Note> := NOTES_B + [Note(NOTHING, 2, 1), Note(NOTHING, 2, 1), Note(NOTHING, 1, 0)]

  function B11(): Graph {
    GraphOf(Tree(NODES_B13, NOTES_B15[..13]),
            [State(0, [], 1, true, false), State(12, [], 2, true, true)],
            EMPTY_TABLES, 0, [{}, {}])
  }

  function B12(): Graph {
    GraphOf(Tree(NODES_B14, NOTES_B15[..14]), [State(0, [], 1, true, false)], EMPTY_TABLES, 0, [{}])
  }

  /** A state of the new pass, which leaves the tree as it is. */
  function Pass(stack: seq<State>, client: seq<set<Block>>): Graph {
    GraphOf(Tree(NODES_B15, NOTES_B15), stack, EMPTY_TABLES, 0, client)
  }

  function Replaying(cursor: NodeId, depth: nat): State {
    State(cursor, [], depth, false, false)
  }

  function B13(): Graph { Pass([], []) }

  function B14(): Graph { Pass([Replaying(0, 1)], [{}]) }

  function B15(): Graph { Pass([Replaying(0, 1), Replaying(1, 2)], [{}, {}]) }

  function B16(): Graph { Pass([Replaying(0, 1), Replaying(3, 2)], [{}, {HELD}]) }

  function B17(): Graph { Pass([Replaying(0, 1), Replaying(3, 2), Replaying(9, 3)], [{}, {HELD}, {}]) }

  function B18(): Graph { B16() }

  function B19(): Graph { Pass([Replaying(0, 1), Replaying(7, 2)], [{}, {}]) }

  lemma {:induction false} StepB10()
    ensures Allowed(B10(), OpFree(true, 0)) && Wellformed(B10())
    ensures Step(B10(), OpFree(true, 0), B11(), Done)
  {
    assert SmallAt(HELD_TABLES.smallRanges, 0) && OwnsSmall(B10(), 0);
    assert DropSmall(HELD_TABLES, 0) == EMPTY_TABLES;
    assert Untrack([3], 3) == [];
    assert WithoutAt({HELD}, true, 0) == {};
    assert Position(HELD_TABLES.smallRanges, 0) == 0 && 3 in HOLDING.tracked;
    assert Cursor(B10()) == 3 && ViewAt(B10().tree, 3) == HOLDING;
    assert B10().tables.smallRanges[0].bytes <= B10().used;
    assert FreedSmall.requires(B10(), 0);
    var a := FreedSmall(B10(), 0);
    assert [5, 7, 10] + [12] == [5, 7, 10, 12];
    assert a.tree.nodes == NODES_B13;
    assert a.tree.notes == NOTES_B15[..13];
    assert a.stack == B11().stack && a.client == B11().client;
    assert a.tables == B11().tables && a.used == B11().used;
  }

  lemma {:induction false} StepB11()
    ensures Allowed(B11(), OpPop) && Wellformed(B11())
    ensures Step(B11(), OpPop, B12(), Done)
  {
    var a := Popped(Ended(B11()));
    assert [] + [13] == [13];
    assert a.tree.nodes == NODES_B14;
    assert a.tree.notes == NOTES_B15[..14];
    assert a.stack == B12().stack && a.client == B12().client;
  }

  lemma {:induction false} StepB12()
    ensures Allowed(B12(), OpPop) && Wellformed(B12())
    ensures Step(B12(), OpPop, B13(), Done)
  {
    var a := Popped(Ended(B12()));
    assert [2] + [14] == [2, 14];
    assert a.tree.nodes == NODES_B15;
    assert a.tree.notes == NOTES_B15;
    assert a.stack == B13().stack && a.client == B13().client;
  }

  lemma {:induction false} StepB13()
    ensures Allowed(B13(), OpPushRoot)
    ensures Step(B13(), OpPushRoot, B14(), Done)
  {
    var a := Pushed(B13(), 0, false);
    assert a.stack == B14().stack && a.client == B14().client;
  }

  lemma {:induction false} StepB14()
    ensures Allowed(B14(), OpPush("outer")) && Wellformed(B14())
    ensures Step(B14(), OpPush("outer"), B15(), Done)
  {
    assert FindEvent(B14(), Call("outer", 0), NO_ROGUES) == Some(2);
    var a := Pushed(B14(), 1, false);
    assert a.stack == B15().stack && a.client == B15().client;
  }

  lemma {:induction false} StepB15()
    ensures Allowed(B15(), OpAlloc(4096, NO_ROGUES, 1)) && Wellformed(B15())
    ensures Step(B15(), OpAlloc(4096, NO_ROGUES, 1), B16(), Gave(HELD))
  {
    assert FindEvent(B15(), AllocSmall(0, 4096), NO_ROGUES) == Some(3);
    assert {} + {HELD} == {HELD};
    var a := MoveTo(B15(), 3, {} + {HELD});
    assert a.stack == B16().stack && a.client == B16().client;
  }

  /** What is found at node 3 in the end. */
  lemma {:induction false} FoundAtThree(g: Graph)
    requires g.stack != [] && Cursor(g) == 3 && |g.tree.nodes| > 12 && g.tree.nodes[3].next == [5, 7, 10, 12]
    requires g.tree.nodes[5].event == Call("inner", 4) && g.tree.nodes[7].event == FreeSmall(0)
    requires g.tree.nodes[10].event == Call("deep", 9)
    ensures FindEvent(g, FreeSmall(0), NO_ROGUES) == Some(7) && FindEvent(g, Call("deep", 0), NO_ROGUES) == Some(10)
  {
    var nodes, kids, deep := g.tree.nodes, g.tree.nodes[3].next, Call("deep", 0);
    assert kids[1..] == [7, 10, 12] && [7, 10, 12][1..] == [10, 12];
    assert FirstMatch(nodes, [7, 10, 12], FreeSmall(0), g.vaPhys, NO_ROGUES) == Some(7);
    assert FirstMatch(nodes, [10, 12], deep, g.vaPhys, NO_ROGUES) == Some(10);
    assert FirstMatch(nodes, [7, 10, 12], deep, g.vaPhys, NO_ROGUES) == Some(10);
  }

  lemma {:induction false} StepB16()
    ensures Allowed(B16(), OpPush("deep")) && Wellformed(B16())
    ensures Step(B16(), OpPush("deep"), B17(), Done)
  {
    hide FirstMatch;
    FoundAtThree(B16());
    var a := Pushed(B16(), 9, false);
    assert a.stack == B17().stack && a.client == B17().client;
  }

  lemma {:induction false} StepB17()
    ensures Allowed(B17(), OpPop) && Wellformed(B17())
    ensures Step(B17(), OpPop, B18(), Done)
  {
    assert FindEvent(B17(), End, NO_ROGUES) == Some(11);
    var a := Popped(B17());
    assert a.stack == B18().stack && a.client == B18().client;
  }

  lemma {:induction false} StepB18()
    ensures Allowed(B18(), OpFree(true, 0)) && Wellformed(B18())
    ensures Step(B18(), OpFree(true, 0), B19(), Done)
  {
    hide FirstMatch;
    FoundAtThree(B18());
    assert WithoutAt({HELD}, true, 0) == {};
    var a := MoveTo(B18(), 7, WithoutAt({HELD}, true, 0));
    assert a.stack == B19().stack && a.client == B19().client;
  }

  /** The run: the second pass from state 6 on, the third, which repeats it, from state 14. */
  function BesideRun(): Run {
    Run(TheRun().states[..9] + [B9(), B10(), B11(), B12(), B13(), B14(), B15(), B16(), B17(), B18(), B19()],
        TheRun().ops[..8] + [OpPush("deep"), OpPop, OpFree(true, 0), OpPop, OpPop, OpPushRoot,
                             OpPush("outer"), OpAlloc(4096, NO_ROGUES, 1), OpPush("deep"), OpPop, OpFree(true, 0)],
        TheRun().replies[..8] + [Done, Done, Done, Done, Done, Done, Done, Gave(HELD), Done, Done, Done])
  }

  lemma {:induction false} StepBeside(i: nat)
    requires i < |BesideRun().ops|
    ensures RunStep(BesideRun(), i)
  {
    hide Step, Allowed, Wellformed, G0, G1, G2, G3, G4, G5, G6, G7, G8, B9, B10, B11, B12, B13, B14, B15, B16, B17,
         B18, B19;
    match i
    case 8 => StepB8();
    case 9 => StepB9();
    case 10 => StepB10();
    case 11 => StepB11();
    case 12 => StepB12();
    case 13 => StepB13();
    case 14 => StepB14();
    case 15 => StepB15();
    case 16 => StepB16();
    case 17 => StepB17();
    case 18 => StepB18();
    case _ => RunStepAt(i);
  }

  lemma {:induction false} BesideIsARun()
    ensures IsRun(BesideRun())
  {
    hide RunStep, Initial, G0, G1, G2, G3, G4, G5, G6, G7, G8, B9, B10, B11, B12, B13, B14, B15, B16, B17, B18, B19;
    StartsInitial();
    forall i | 0 <= i < |BesideRun().ops|
      ensures RunStep(BesideRun(), i)
    {
      StepBeside(i);
    }
  }

  lemma {:induction false} FreeIsThere()
    ensures !Fresh(B10(), OpFree(true, 0))
  {
    assert FindEvent(B10(), FreeSmall(0), NO_ROGUES) == Some(7);
  }

  lemma {:induction false} RepeatedCalls()
    requires IsRun(BesideRun())
    ensures Repeats(BesideRun(), 6, 0, 14, 0, 5)
  {
    hide IsRun, G1, G2, G3, G4, G5, G9, G10, G11, G12, G13, G14;
    var run := BesideRun();
    assert run.states[6] == G6() && run.states[14] == B14();
    assert LevelFollows(G6(), 0, B14(), 0, 0);
    forall k: nat | k < 5
      ensures CallRepeated(run, 6, 0, 14, k)
    {
      assert run.states[7] == G7() && run.states[8] == G8() && run.states[9] == B9() && run.states[10] == B10();
    }
  }

  lemma {:induction false} FourFresh()
    requires IsRun(BesideRun())
    ensures FreshStretch(BesideRun(), 6, 4) && !FreshAt(BesideRun(), 6, 4)
  {
    hide IsRun, FindEvent, B10;
    var run := BesideRun();
    FreeIsThere();
    assert run.states[7] == G7() && run.states[10] == B10() && run.ops[10] == OpFree(true, 0);
    forall k: nat | k < 4
      ensures FreshAt(run, 6, k)
    {
      assert run.ops[6] == OpPush("outer") && run.ops[7] == OpAlloc(4096, NO_ROGUES, 1);
      assert run.ops[8] == OpPush("deep") && run.ops[9] == OpPop;
    }
  }

  lemma {:induction false} Apart()
    ensures !Follows(B11(), 0, B19(), 0)
  {
    assert !LevelFollows(B11(), 0, B19(), 0, 1);
  }

  /**
   A repetition goes astray.  The third pass makes the calls of the second, and is led to
   the free recorded in the first pass, node 7, where the second had recorded node 12.
   */
  lemma {:induction false} RepeatMisses()
    ensures IsRun(BesideRun()) && Repeats(BesideRun(), 6, 0, 14, 0, 5)
    ensures FreshStretch(BesideRun(), 6, 4) && !FreshAt(BesideRun(), 6, 4)
    ensures !FollowsAt(BesideRun(), 6, 0, 14, 0, 5)
    ensures Cursor(BesideRun().states[11]) == 12 && Cursor(BesideRun().states[19]) == 7
  {
    hide IsRun, Fresh, Follows, FreshStretch, FreshAt, Repeats;
    BesideIsARun();
    RepeatedCalls();
    FourFresh();
    Apart();
    assert BesideRun().states[11] == B11() && BesideRun().states[19] == B19();
  }
}
